/** The persistent arm's bookkeeping: the replay window, the eviction cap and the rejoin
    lockout, over every serialised sequence of calls and every posterior the engine reads. */
module PersistentArm {
  import opened Agents
  import opened Words
  import opened Wrappers
  import Workflow

  const REPLAY_CAP := 2

  /** The cap on leave-acts a task, if any; the lockout in tasks; the universe's width. */
  datatype Config = Config(evictionCap: Option<nat>, lockout: U64, nBits: nat)

  predicate InForce(cfg: Config) {
    1 <= cfg.nBits <= 16
  }

  datatype Observation = NoObs | Success | Failure

  /** What a query comes to: no read of the acting control, a non-finite one, or a probability. */
  datatype Posterior = NoRead | NonFinite | Read(p1: real)

  const DECLINED := Workflow.Decision(false, 0.0)

  // ----- One call -----

  datatype State = State(replay: seq<seq<Observation>>, tasksObserved: nat, evictions: nat,
                         evictedAt: map<nat, nat>, queries: U64)

  const FRESH := State([], 0, 0, map[], 0)

  function ObservationAt(required: Mask, perBit: seq<bool>, b: nat): Observation
    requires b < |perBit|
  {
    if b !in required then NoObs else if perBit[b] then Success else Failure
  }

  function ObservationVector(required: Mask, perBit: seq<bool>): (obs: seq<Observation>)
    ensures |obs| == |perBit|
  {
    seq(|perBit|, b requires 0 <= b < |perBit| => ObservationAt(required, perBit, b))
  }

  /** The window after one more vector: the oldest goes when it is full. */
  function Pushed(replay: seq<seq<Observation>>, obs: seq<Observation>): seq<seq<Observation>> {
    (if |replay| == REPLAY_CAP then replay[1..] else replay) + [obs]
  }

  /** An outcome of the wrong width changes nothing; any other is recorded, whether or not the
      engine accepts its update. */
  function OutcomeStep(cfg: Config, st: State, required: Mask, perBit: seq<bool>): State {
    if |perBit| != cfg.nBits then st
    else
      st.(replay := Pushed(st.replay, ObservationVector(required, perBit)),
          tasksObserved := st.tasksObserved + 1,
          evictions := 0)
  }

  /** Some demanded bit lies in the universe. */
  predicate Demands(cfg: Config, required: Mask) {
    exists b :: b in required && b < cfg.nBits
  }

  function DecisionFrom(p: Posterior, leave: bool): Workflow.Decision {
    if !p.Read? then DECLINED
    else Workflow.Decision(if leave then p.p1 >= 0.5 else p.p1 > 0.5, p.p1 - 0.5)
  }

  /** A query, unless nothing is demanded. */
  function QueryStep(cfg: Config, st: State, required: Mask, p: Posterior, leave: bool): (State, Workflow.Decision) {
    if !Demands(cfg, required) then (st, DECLINED)
    else (st.(queries := WrappingAdd(st.queries, 1)), DecisionFrom(p, leave))
  }

  /** The bar in force: the sum is taken on 64-bit words. */
  predicate Barred(cfg: Config, st: State, id: nat) {
    cfg.lockout > 0 && id in st.evictedAt &&
    st.tasksObserved > st.evictedAt[id] &&
    st.tasksObserved <= (st.evictedAt[id] + cfg.lockout) % WORD
  }

  function JoinStep(cfg: Config, st: State, id: nat, required: Mask, p: Posterior): (State, Workflow.Decision) {
    if Barred(cfg, st, id) then (st, DECLINED) else QueryStep(cfg, st, required, p, false)
  }

  predicate Capped(cfg: Config, st: State) {
    cfg.evictionCap.Some? && st.evictions >= cfg.evictionCap.value
  }

  function LeaveStep(cfg: Config, st: State, id: nat, required: Mask, p: Posterior): (State, Workflow.Decision) {
    if Capped(cfg, st) then (st, DECLINED)
    else
      var (after, d) := QueryStep(cfg, st, required, p, true);
      if d.act then
        (after.(evictions := after.evictions + 1, evictedAt := after.evictedAt[id := after.tasksObserved]), d)
      else (after, d)
  }

  // ----- The object -----

  class PersistentAifArm {
    const cfg: Config
    var replay: seq<seq<Observation>>
    var tasksObserved: nat
    var evictions: nat
    var evictedAt: map<nat, nat>
    var queries: U64

    ghost function Abs(): State
      reads this
    {
      State(replay, tasksObserved, evictions, evictedAt, queries)
    }

    constructor (cfg: Config)
      ensures this.cfg == cfg && Abs() == FRESH
    {
      this.cfg := cfg;
      replay, tasksObserved, evictions, evictedAt, queries := [], 0, 0, map[], 0;
    }

    /** Reports whether the engine's update applied; a refused update leaves its trace. */
    method ObserveOutcomeChecked(required: Mask, perBit: seq<bool>, accepted: bool) returns (applied: bool)
      modifies this
      ensures Abs() == OutcomeStep(cfg, old(Abs()), required, perBit)
      ensures applied <==> |perBit| == cfg.nBits && accepted
    {
      if |perBit| != cfg.nBits {
        return false;
      }
      var obs: seq<Observation> := [];
      for b := 0 to |perBit|
        invariant obs == ObservationVector(required, perBit)[..b] && unchanged(this)
      {
        obs := obs + [if b !in required then NoObs else if perBit[b] then Success else Failure];
      }
      assert obs == ObservationVector(required, perBit);
      applied := accepted;
      if |replay| == REPLAY_CAP {
        replay := replay[1..];
      }
      replay := replay + [obs];
      tasksObserved := tasksObserved + 1;
      evictions := 0;
    }

    method Decide(required: Mask, p: Posterior, leave: bool) returns (d: Workflow.Decision)
      modifies this`queries
      ensures (Abs(), d) == QueryStep(cfg, old(Abs()), required, p, leave)
    {
      var demanded := Demands(cfg, required);
      if !demanded {
        return DECLINED;
      }
      queries := WrappingAdd(queries, 1);
      d := DecisionFrom(p, leave);
    }

    method ShouldJoin(id: nat, required: Mask, p: Posterior) returns (d: Workflow.Decision)
      modifies this
      ensures (Abs(), d) == JoinStep(cfg, old(Abs()), id, required, p)
    {
      if cfg.lockout > 0 && id in evictedAt {
        var t := evictedAt[id];
        if tasksObserved > t && tasksObserved <= (t + cfg.lockout) % WORD {
          return DECLINED;
        }
      }
      d := Decide(required, p, false);
    }

    method ShouldLeave(id: nat, required: Mask, p: Posterior) returns (d: Workflow.Decision)
      modifies this
      ensures (Abs(), d) == LeaveStep(cfg, old(Abs()), id, required, p)
    {
      if cfg.evictionCap.Some? && evictions >= cfg.evictionCap.value {
        return DECLINED;
      }
      d := Decide(required, p, true);
      if d.act {
        evictions := evictions + 1;
        evictedAt := evictedAt[id := tasksObserved];
      }
    }
  }

  // ----- Runs -----

  datatype Event =
    | Outcome(outcome: Mask, perBit: seq<bool>)
    | Join(joiner: nat, demand: Mask, read: Posterior)
    | Leave(leaver: nat, demand: Mask, read: Posterior)

  function EventStep(cfg: Config, st: State, e: Event): (State, bool) {
    match e
    case Outcome(required, perBit) => (OutcomeStep(cfg, st, required, perBit), false)
    case Join(id, required, p) => var r := JoinStep(cfg, st, id, required, p); (r.0, r.1.act)
    case Leave(id, required, p) => var r := LeaveStep(cfg, st, id, required, p); (r.0, r.1.act)
  }

  /** The state after a run, and whether each call acted. */
  function Run(cfg: Config, events: seq<Event>): (r: (State, seq<bool>))
    ensures |r.1| == |events|
  {
    if events == [] then (FRESH, [])
    else
      var before := Run(cfg, events[..|events| - 1]);
      var step := EventStep(cfg, before.0, events[|events| - 1]);
      (step.0, before.1 + [step.1])
  }

  lemma {:induction false} RunPrefix(cfg: Config, events: seq<Event>, j: nat)
    requires j <= |events|
    ensures Run(cfg, events[..j]).1 == Run(cfg, events).1[..j]
    decreases |events|
  {
    if j == |events| {
      assert events[..j] == events;
    } else {
      RunPrefix(cfg, events[..|events| - 1], j);
      assert events[..|events| - 1][..j] == events[..j];
    }
  }

  // ----- What a run's calls amount to, read off the calls -----

  predicate IsTask(cfg: Config, e: Event) {
    e.Outcome? && |e.perBit| == cfg.nBits
  }

  /** The accepted observation vectors, oldest first. */
  function Observed(cfg: Config, events: seq<Event>): seq<seq<Observation>> {
    if events == [] then []
    else
      var last := events[|events| - 1];
      Observed(cfg, events[..|events| - 1]) +
      if IsTask(cfg, last) then [ObservationVector(last.outcome, last.perBit)] else []
  }

  /** The number of accepted outcomes before the last leave-act of `id`. */
  function LastEviction(cfg: Config, events: seq<Event>, acts: seq<bool>, id: nat): Option<nat>
    requires |acts| == |events|
  {
    if events == [] then None
    else
      var n := |events| - 1;
      if events[n].Leave? && events[n].leaver == id && acts[n] then Some(|Observed(cfg, events[..n])|)
      else LastEviction(cfg, events[..n], acts[..n], id)
  }

  /** The engine reads that this leave call should act. */
  predicate WantsOut(cfg: Config, e: Event) {
    e.Leave? && Demands(cfg, e.demand) && e.read.Read? && e.read.p1 >= 0.5
  }

  /** The leave calls since the last accepted outcome whose read wants out. */
  function WantedOut(cfg: Config, events: seq<Event>): nat {
    if events == [] || IsTask(cfg, events[|events| - 1]) then 0
    else WantedOut(cfg, events[..|events| - 1]) + if WantsOut(cfg, events[|events| - 1]) then 1 else 0
  }

  function LeaveActs(events: seq<Event>, acts: seq<bool>): nat
    requires |acts| == |events|
  {
    if events == [] then 0
    else
      var n := |events| - 1;
      LeaveActs(events[..n], acts[..n]) + if events[n].Leave? && acts[n] then 1 else 0
  }

  /** The leave-acts since the last accepted outcome. */
  function LeaveActsInTask(cfg: Config, events: seq<Event>, acts: seq<bool>): nat
    requires |acts| == |events|
  {
    if events == [] || IsTask(cfg, events[|events| - 1]) then 0
    else
      var n := |events| - 1;
      LeaveActsInTask(cfg, events[..n], acts[..n]) + if events[n].Leave? && acts[n] then 1 else 0
  }

  function LastTwo<T>(s: seq<T>): seq<T> {
    if |s| <= REPLAY_CAP then s else s[|s| - REPLAY_CAP..]
  }

  function AtMost(cap: Option<nat>, n: nat): nat {
    if cap.Some? && cap.value < n then cap.value else n
  }

  /** What the fields hold after a run. */
  ghost predicate Tracks(cfg: Config, events: seq<Event>, st: State, acts: seq<bool>)
    requires |acts| == |events|
  {
    st.tasksObserved == |Observed(cfg, events)| &&
    st.replay == LastTwo(Observed(cfg, events)) &&
    st.evictions == LeaveActsInTask(cfg, events, acts) == AtMost(cfg.evictionCap, WantedOut(cfg, events)) &&
    forall id: nat :: LastEviction(cfg, events, acts, id) == if id in st.evictedAt then Some(st.evictedAt[id]) else None
  }

  lemma OutcomeTracks(cfg: Config, init: seq<Event>, st: State, acts: seq<bool>, e: Event)
    requires |acts| == |init| && Tracks(cfg, init, st, acts) && e.Outcome?
    ensures Tracks(cfg, init + [e], OutcomeStep(cfg, st, e.outcome, e.perBit), acts + [false])
  {
    hide ObservationVector, Demands, Pushed, LastTwo;
    var events, all := init + [e], acts + [false];
    assert events[..|init|] == init && all[..|init|] == acts;
    PushedIsLastTwo(Observed(cfg, init), ObservationVector(e.outcome, e.perBit));
    assert !IsTask(cfg, e) ==> Observed(cfg, events) == Observed(cfg, init);
  }

  lemma PushedIsLastTwo(seen: seq<seq<Observation>>, obs: seq<Observation>)
    ensures Pushed(LastTwo(seen), obs) == LastTwo(seen + [obs])
  {
  }

  /** A call that is no accepted outcome leaves the observed tasks. */
  lemma AskTracks(cfg: Config, init: seq<Event>, st: State, acts: seq<bool>, e: Event)
    requires |acts| == |init| && Tracks(cfg, init, st, acts) && !e.Outcome?
    ensures var step := EventStep(cfg, st, e);
            Tracks(cfg, init + [e], step.0, acts + [step.1])
  {
    hide Demands, Barred, Observed, LastTwo;
    var step := EventStep(cfg, st, e);
    var events, all := init + [e], acts + [step.1];
    assert events[..|init|] == init && all[..|init|] == acts;
    assert Observed(cfg, events) == Observed(cfg, init) by { NoTaskObserved(cfg, init, e); }
    assert step.0.evictedAt == if e.Leave? && step.1 then st.evictedAt[e.leaver := st.tasksObserved] else st.evictedAt;
  }

  lemma NoTaskObserved(cfg: Config, init: seq<Event>, e: Event)
    requires !IsTask(cfg, e)
    ensures Observed(cfg, init + [e]) == Observed(cfg, init)
  {
    assert (init + [e])[..|init|] == init;
  }

  /** Every run: the replay window is the last two accepted observation vectors, the eviction
      counter is the leave-acts of the task and of the wanted ones the first ones up to the cap,
      and the eviction table holds each agent's last. */
  lemma {:induction false} EveryRunTracks(cfg: Config, events: seq<Event>)
    ensures var r := Run(cfg, events); Tracks(cfg, events, r.0, r.1)
    decreases |events|
  {
    hide EventStep, Tracks;
    if events == [] {
      NothingTracked(cfg);
    } else {
      var init, last := events[..|events| - 1], events[|events| - 1];
      EveryRunTracks(cfg, init);
      assert events == init + [last];
      var (st, acts) := Run(cfg, init);
      if last.Outcome? {
        OutcomeTracks(cfg, init, st, acts, last);
        OutcomeIsStep(cfg, st, last);
      } else {
        AskTracks(cfg, init, st, acts, last);
      }
    }
  }

  lemma OutcomeIsStep(cfg: Config, st: State, e: Event)
    requires e.Outcome?
    ensures EventStep(cfg, st, e) == (OutcomeStep(cfg, st, e.outcome, e.perBit), false)
  {
  }

  lemma NothingTracked(cfg: Config)
    ensures Tracks(cfg, [], FRESH, [])
  {
  }

  // ----- The cap -----

  lemma {:induction false} StretchIsInTask(cfg: Config, events: seq<Event>, acts: seq<bool>, i: nat, j: nat)
    requires |acts| == |events| && i <= j <= |events|
    requires forall m :: i <= m < j ==> !IsTask(cfg, events[m])
    ensures LeaveActs(events[i..j], acts[i..j]) <= LeaveActsInTask(cfg, events[..j], acts[..j])
    decreases j
  {
    if i < j {
      StretchIsInTask(cfg, events, acts, i, j - 1);
      assert events[i..j][..j - 1 - i] == events[i..j - 1] && acts[i..j][..j - 1 - i] == acts[i..j - 1];
      assert events[..j][..j - 1] == events[..j - 1] && acts[..j][..j - 1] == acts[..j - 1];
    }
  }

  /** Between accepted outcomes there are at most `cap` leave-acts, whatever the reads. */
  lemma EvictionCapHolds(cfg: Config, events: seq<Event>, i: nat, j: nat)
    requires cfg.evictionCap.Some? && i <= j <= |events|
    requires forall m :: i <= m < j ==> !IsTask(cfg, events[m])
    ensures LeaveActs(events[i..j], Run(cfg, events).1[i..j]) <= cfg.evictionCap.value
  {
    hide Run, Tracks, LeaveActs, LeaveActsInTask;
    RunPrefix(cfg, events, j);
    EveryRunTracks(cfg, events[..j]);
    StretchIsInTask(cfg, events, Run(cfg, events).1, i, j);
    CapOfTracked(cfg, events[..j], Run(cfg, events[..j]).0, Run(cfg, events[..j]).1);
  }

  lemma CapOfTracked(cfg: Config, events: seq<Event>, st: State, acts: seq<bool>)
    requires |acts| == |events| && Tracks(cfg, events, st, acts) && cfg.evictionCap.Some?
    ensures LeaveActsInTask(cfg, events, acts) <= cfg.evictionCap.value
  {
  }

  // ----- The lockout -----

  /** A join question is barred by an eviction in task `t`, asked after `now` outcomes. */
  predicate LockedOut(cfg: Config, eviction: Option<nat>, now: nat) {
    eviction.Some? && eviction.value < now <= eviction.value + cfg.lockout && eviction.value + cfg.lockout < WORD
  }

  /** A join call acts exactly when something is demanded, the read is above one half, and the
      agent's last eviction was not in one of the `lockout` tasks before, nor so late that the
      bar's end wraps past the word. */
  lemma JoinActsExactly(cfg: Config, events: seq<Event>, j: nat)
    requires j < |events| < WORD && events[j].Join?
    ensures var acts := Run(cfg, events).1;
            acts[j] <==>
              Demands(cfg, events[j].demand) && events[j].read.Read? && events[j].read.p1 > 0.5 &&
              !LockedOut(cfg, LastEviction(cfg, events[..j], acts[..j], events[j].joiner), |Observed(cfg, events[..j])|)
  {
    hide Demands, Observed, LastEviction;
    var before := Run(cfg, events[..j]);
    RunPrefix(cfg, events, j);
    RunPrefix(cfg, events, j + 1);
    EveryRunTracks(cfg, events[..j]);
    assert events[..j + 1][..j] == events[..j];
    assert Run(cfg, events).1[j] == Run(cfg, events[..j + 1]).1[j] == EventStep(cfg, before.0, events[j]).1;
    TasksAtMost(cfg, events[..j]);
    BarIsLockout(cfg, before.0, events[j].joiner);
  }

  lemma {:induction false} TasksAtMost(cfg: Config, events: seq<Event>)
    ensures |Observed(cfg, events)| <= |events|
    decreases |events|
  {
    if events != [] {
      TasksAtMost(cfg, events[..|events| - 1]);
    }
  }

  lemma BarIsLockout(cfg: Config, st: State, id: nat)
    requires st.tasksObserved < WORD
    ensures Barred(cfg, st, id) <==>
            LockedOut(cfg, if id in st.evictedAt then Some(st.evictedAt[id]) else None, st.tasksObserved)
  {
    if id in st.evictedAt && st.evictedAt[id] < st.tasksObserved {
      var sum := st.evictedAt[id] + cfg.lockout;
      assert sum % WORD == if sum < WORD then sum else sum - WORD;
    }
  }

  /** The bar of a lockout that long ends where it wraps: an agent evicted in task 1 joins in
      task 2. */
  lemma LockoutWraps(required: Mask, perBit: seq<bool>)
    requires 0 in required && |perBit| == 1
    ensures var cfg := Config(None, WORD - 1, 1);
            var tasks := [Outcome(required, perBit)];
            var events := tasks + [Leave(7, required, Read(1.0))] + tasks + [Join(7, required, Read(1.0))];
            Run(cfg, events).1 == [false, true, false, true]
  {
    var cfg := Config(None, WORD - 1, 1);
    var e0 := [Outcome(required, perBit)];
    var e1 := e0 + [Leave(7, required, Read(1.0))];
    var e2 := e1 + e0;
    var e3 := e2 + [Join(7, required, Read(1.0))];
    assert e0[..0] == [] && e1[..1] == e0 && e2[..2] == e1 && e3[..3] == e2;
    assert Demands(cfg, required);
    assert Run(cfg, e0).1 == [false] && Run(cfg, e0).0.tasksObserved == 1;
    var s1, s2 := Run(cfg, e1), Run(cfg, e2);
    assert s1.1 == [false, true] && 7 in s1.0.evictedAt && s1.0.evictedAt[7] == 1;
    assert s2.1 == [false, true, false] && s2.0.evictedAt == s1.0.evictedAt;
  }

  /** A leave call acts exactly when its read wants out and fewer than the cap have since the last
      accepted outcome. */
  lemma LeaveActsExactly(cfg: Config, events: seq<Event>, j: nat)
    requires j < |events| && events[j].Leave?
    ensures Run(cfg, events).1[j] <==>
              WantsOut(cfg, events[j]) &&
              (cfg.evictionCap.None? || WantedOut(cfg, events[..j]) < cfg.evictionCap.value)
  {
    hide Demands, Observed, LastEviction, LeaveActsInTask, WantedOut, LastTwo;
    var before := Run(cfg, events[..j]);
    RunPrefix(cfg, events, j + 1);
    EveryRunTracks(cfg, events[..j]);
    assert events[..j + 1][..j] == events[..j];
    assert Run(cfg, events).1[j] == Run(cfg, events[..j + 1]).1[j] == EventStep(cfg, before.0, events[j]).1;
  }

  // ----- The window, the scores and the queries -----

  /** The places of the accepted outcomes. */
  function Tasks(cfg: Config, events: seq<Event>): (at: seq<nat>)
    ensures forall i :: 0 <= i < |at| ==> at[i] < |events| && IsTask(cfg, events[at[i]])
  {
    if events == [] then []
    else Tasks(cfg, events[..|events| - 1]) + if IsTask(cfg, events[|events| - 1]) then [|events| - 1] else []
  }

  /** An observation vector says of each bit whether it was demanded, and then whether it came. */
  predicate Reports(e: Event, obs: seq<Observation>)
    requires e.Outcome?
  {
    |obs| == |e.perBit| &&
    forall b :: 0 <= b < |obs| ==>
      (obs[b] == NoObs <==> b !in e.outcome) && (obs[b] == Success <==> b in e.outcome && e.perBit[b]) &&
      (obs[b] == Failure <==> b in e.outcome && !e.perBit[b])
  }

  lemma {:induction false} ObservedAreReports(cfg: Config, events: seq<Event>)
    ensures var at, observed := Tasks(cfg, events), Observed(cfg, events);
            |at| == |observed| &&
            forall i :: 0 <= i < |at| ==> events[at[i]].Outcome? && Reports(events[at[i]], observed[i])
    decreases |events|
  {
    if events != [] {
      var init := events[..|events| - 1];
      ObservedAreReports(cfg, init);
      assert forall i :: 0 <= i < |Tasks(cfg, init)| ==> init[Tasks(cfg, init)[i]] == events[Tasks(cfg, init)[i]];
    }
  }

  /** The replay window holds what the last two accepted outcomes reported, the older first. */
  lemma WindowReports(cfg: Config, events: seq<Event>)
    ensures var replay, at := Run(cfg, events).0.replay, Tasks(cfg, events);
            |replay| == (if |at| < 2 then |at| else 2) &&
            forall i :: 0 <= i < |replay| ==>
              var e := events[at[|at| - |replay| + i]];
              e.Outcome? && Reports(e, replay[i])
  {
    hide Reports, Tasks, Observed, Run, LastEviction, WantedOut, LeaveActsInTask;
    EveryRunTracks(cfg, events);
    ObservedAreReports(cfg, events);
  }

  /** The decision on a join or leave call of a run. */
  function DecisionAt(cfg: Config, events: seq<Event>, j: nat): Workflow.Decision
    requires j < |events| && !events[j].Outcome?
  {
    var st := Run(cfg, events[..j]).0;
    match events[j]
    case Join(id, required, p) => JoinStep(cfg, st, id, required, p).1
    case Leave(id, required, p) => LeaveStep(cfg, st, id, required, p).1
  }

  /** A call puts a query to the engine: something is demanded, and it is neither a join of a
      locked-out agent nor a leave past the cap. */
  predicate Queries(cfg: Config, before: seq<Event>, e: Event) {
    match e
    case Outcome(_, _) => false
    case Join(id, required, _) =>
      Demands(cfg, required) &&
      !LockedOut(cfg, LastEviction(cfg, before, Run(cfg, before).1, id), |Observed(cfg, before)|)
    case Leave(_, required, _) =>
      Demands(cfg, required) && (cfg.evictionCap.None? || WantedOut(cfg, before) < cfg.evictionCap.value)
  }

  lemma StateBars(cfg: Config, before: seq<Event>, e: Event)
    requires |before| < WORD && !e.Outcome?
    ensures var st := Run(cfg, before).0;
            Queries(cfg, before, e) <==>
              Demands(cfg, e.demand) && if e.Join? then !Barred(cfg, st, e.joiner) else !Capped(cfg, st)
  {
    hide Demands, Observed, LastEviction, LeaveActsInTask, WantedOut, Run, LastTwo;
    EveryRunTracks(cfg, before);
    TasksAtMost(cfg, before);
    if e.Join? {
      BarIsLockout(cfg, Run(cfg, before).0, e.joiner);
    }
  }

  /** A call that puts a query and gets a read scores its distance from one half; any other scores
      zero and does not act. */
  lemma ScoresAreReads(cfg: Config, events: seq<Event>, j: nat)
    requires j < |events| < WORD && !events[j].Outcome?
    ensures var d, e := DecisionAt(cfg, events, j), events[j];
            if Queries(cfg, events[..j], e) && e.read.Read? then
              d.score == e.read.p1 - 0.5 && (d.act <==> d.score > 0.0 || (e.Leave? && d.score == 0.0))
            else d == Workflow.Decision(false, 0.0)
  {
    hide Demands, Barred, Capped, Queries, Run;
    StateBars(cfg, events[..j], events[j]);
  }

  function QueryCount(cfg: Config, events: seq<Event>): nat {
    if events == [] then 0
    else
      var before, last := events[..|events| - 1], events[|events| - 1];
      QueryCount(cfg, before) + if Queries(cfg, before, last) then 1 else 0
  }

  /** The query counter is the number of queries put, on 64-bit words. */
  lemma {:induction false} QueriesAreCounted(cfg: Config, events: seq<Event>)
    requires |events| <= WORD
    ensures Run(cfg, events).0.queries == QueryCount(cfg, events) % WORD
    decreases |events|
  {
    if events != [] {
      var before, last := events[..|events| - 1], events[|events| - 1];
      QueriesAreCounted(cfg, before);
      QueriesStep(cfg, before, last);
      assert before + [last] == events;
    }
  }

  lemma QueriesStep(cfg: Config, before: seq<Event>, e: Event)
    requires |before| < WORD
    ensures var st := Run(cfg, before).0;
            EventStep(cfg, st, e).0.queries ==
            if Queries(cfg, before, e) then WrappingAdd(st.queries, 1) else st.queries
  {
    hide Demands, Barred, Capped, Queries, Run, WrappingAdd;
    if e.Outcome? {
      NoQuery(cfg, before, e);
    } else {
      StateBars(cfg, before, e);
    }
  }

  lemma NoQuery(cfg: Config, before: seq<Event>, e: Event)
    requires e.Outcome?
    ensures !Queries(cfg, before, e)
  {
  }
}
