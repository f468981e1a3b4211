/** The group policy's ledger and decisions read off its calls: what every call comes to in terms of
    the demands shown, the role map and the engine, and the counters as counts of these. */
module Ledger {
  import opened Agents
  import opened GroupPolicy
  import opened Workflow
  import opened Wrappers

  // ----- Demands -----

  /** A demand opens a task when all its roles are known and it has a bit inside the universe. */
  ghost predicate Opens(cfg: Config, steps: seq<Step>) {
    (forall s :: s in steps ==> s.role < cfg.nRoles) && exists s :: s in steps && s.bit < cfg.nBits
  }

  /** The roles a demand calls for. */
  ghost function DemandedRoles(cfg: Config, steps: seq<Step>): (r: set<nat>)
    ensures forall role :: role in r <==> exists s :: s in steps && s.role == role && s.bit < cfg.nBits
  {
    set s | s in steps && s.bit < cfg.nBits :: s.role
  }

  /** The demand shown last. */
  function Demand(events: seq<Event>): Option<seq<Step>> {
    if events == [] then None
    else
      match events[|events| - 1]
      case Begin(steps) => Some(steps)
      case _ => Demand(events[..|events| - 1])
  }

  ghost predicate InTask(cfg: Config, events: seq<Event>) {
    Demand(events).Some? && Opens(cfg, Demand(events).value)
  }

  ghost function Called(cfg: Config, events: seq<Event>): set<nat> {
    if InTask(cfg, events) then DemandedRoles(cfg, Demand(events).value) else {}
  }

  // ----- What a call comes to -----

  datatype Verdict = NoDemand | MissingRole | Upstream | ReadOut(p: real)

  /** A question after the calls `before`: declined without a task in force, with a participant
      outside the role map, or when the engine fails one of the called roles' queries or the read. */
  ghost function VerdictOf(cfg: Config, roles: map<nat, nat>, before: seq<Event>, e: Event): Verdict
    requires e.Ask?
  {
    if !InTask(cfg, before) then NoDemand
    else if e.agent.id !in roles || exists i :: 0 <= i < |e.coalition| && e.coalition[i].id !in roles then MissingRole
    else if e.engine.Reads? then ReadOut(e.engine.pAct)
    else Upstream
  }

  /** An outcome after the calls `before` reaches the models. */
  ghost predicate Reaches(cfg: Config, before: seq<Event>, e: Event) {
    e.Observe? && e.width == cfg.nBits && InTask(cfg, before)
  }

  /** A model learns from the task in force: the one of a called role, or the shared one. */
  ghost predicate Learns(cfg: Config, before: seq<Event>, m: nat) {
    if cfg.models == SharedModel then m == 0 else m in Called(cfg, before)
  }

  ghost predicate Applies(cfg: Config, before: seq<Event>, e: Event)
    requires e.Observe?
  {
    Reaches(cfg, before, e) && exists m :: Learns(cfg, before, m) && e.accepts(m)
  }

  datatype Kind = Asked | WithoutDemand | WithoutRole | Failed | Read | Reached | Unapplied | Refused

  ghost predicate IsKind(cfg: Config, roles: map<nat, nat>, kind: Kind, before: seq<Event>, e: Event) {
    match kind
    case Asked => e.Ask?
    case WithoutDemand => e.Ask? && VerdictOf(cfg, roles, before, e) == NoDemand
    case WithoutRole => e.Ask? && VerdictOf(cfg, roles, before, e) == MissingRole
    case Failed => e.Ask? && VerdictOf(cfg, roles, before, e) == Upstream
    case Read => e.Ask? && VerdictOf(cfg, roles, before, e).ReadOut?
    case Reached => Reaches(cfg, before, e)
    case Unapplied => e.Observe? && !Applies(cfg, before, e)
    case Refused => e.Begin? && !Opens(cfg, e.steps)
  }

  /** How many calls of a run are of a kind. */
  ghost function CountOf(cfg: Config, roles: map<nat, nat>, kind: Kind, events: seq<Event>): nat {
    if events == [] then 0
    else
      var before, last := events[..|events| - 1], events[|events| - 1];
      CountOf(cfg, roles, kind, before) + if IsKind(cfg, roles, kind, before, last) then 1 else 0
  }

  /** The outcomes a model was shown, or those of them whose update was accepted. */
  ghost function LessonsOf(cfg: Config, m: nat, events: seq<Event>): nat {
    if events == [] then 0
    else
      var before, last := events[..|events| - 1], events[|events| - 1];
      LessonsOf(cfg, m, before) +
      if Reaches(cfg, before, last) && Learns(cfg, before, m) && last.accepts(m) then 1 else 0
  }

  /** The sizes of the opened tasks' rosters. */
  ghost function RostersOf(cfg: Config, events: seq<Event>): seq<nat> {
    if events == [] then []
    else
      var before, last := events[..|events| - 1], events[|events| - 1];
      RostersOf(cfg, before) +
      if last.Begin? && Opens(cfg, last.steps) then [|DemandedRoles(cfg, last.steps)|] else []
  }

  /** The queries built for a question: one per called role, or up to the one that fails. */
  ghost function QueriesOf(cfg: Config, roles: map<nat, nat>, before: seq<Event>, e: Event): nat
    requires e.Ask?
  {
    var v, n := VerdictOf(cfg, roles, before, e), |Called(cfg, before)|;
    if v.NoDemand? || v.MissingRole? then 0 else if e.engine.QueryFails? && e.engine.at < n then e.engine.at + 1 else n
  }

  ghost function LeaveQueriesOf(cfg: Config, roles: map<nat, nat>, events: seq<Event>): nat {
    if events == [] then 0
    else
      var before, last := events[..|events| - 1], events[|events| - 1];
      LeaveQueriesOf(cfg, roles, before) +
      if last.Ask? && last.leave then QueriesOf(cfg, roles, before, last) else 0
  }

  /** The sample of a read: the roster's size, the place of the candidate's role among the called
      ones, the kind of the question, and the act. */
  ghost predicate IsSample(cfg: Config, roles: map<nat, nat>, before: seq<Event>, e: Event, s: Sample)
    requires e.Ask? && VerdictOf(cfg, roles, before, e).ReadOut?
  {
    var called, role := Called(cfg, before), roles[e.agent.id];
    s.roster == |called| && s.leave == e.leave && (s.groupAct <==> VerdictOf(cfg, roles, before, e).p > 0.5) &&
    s.centre == (if role in called then Some(|BelowOf(called, role)|) else None) &&
    s.candidateSensitive == if cfg.masks == RoleBlind then |called| else if role in called then 1 else 0
  }

  ghost function BelowOf(s: set<nat>, x: nat): (r: set<nat>)
    ensures forall y :: y in r <==> y in s && y < x
  {
    set y | y in s && y < x
  }

  /** The samples are those of the reads that leave one, in order. */
  ghost predicate AreSamples(cfg: Config, roles: map<nat, nat>, events: seq<Event>, samples: seq<Sample>) {
    if events == [] then samples == []
    else
      var before, last := events[..|events| - 1], events[|events| - 1];
      if IsKind(cfg, roles, Read, before, last) && !(cfg.routing.Off? && cfg.read == SeededSampling) then
        samples != [] && IsSample(cfg, roles, before, last, samples[|samples| - 1]) &&
        AreSamples(cfg, roles, before, samples[..|samples| - 1])
      else AreSamples(cfg, roles, before, samples)
  }

  // ----- Rosters are demands -----

  function Elements(s: seq<nat>): (r: set<nat>)
    ensures forall x :: x in r <==> x in s
  {
    set x | x in s
  }

  lemma {:induction false} AscendingSize(s: seq<nat>)
    requires forall i, j :: 0 <= i < j < |s| ==> s[i] < s[j]
    ensures |Elements(s)| == |s|
    decreases |s|
  {
    if s == [] {
      assert Elements(s) == {};
    } else {
      var init, last := s[..|s| - 1], s[|s| - 1];
      AscendingSize(init);
      assert s == init + [last];
      assert Elements(s) == Elements(init) + {last};
    }
  }

  /** The roster holds the called roles, each at the place of those below it. */
  ghost predicate IsRoster(roster: seq<nat>, called: set<nat>) {
    Elements(roster) == called && |roster| == |called| &&
    forall i, j :: 0 <= i < j < |roster| ==> roster[i] < roster[j]
  }

  lemma PlaceInRoster(roster: seq<nat>, called: set<nat>, role: nat)
    requires IsRoster(roster, called)
    ensures IndexOf(roster, role) == if role in called then Some(|BelowOf(called, role)|) else None
  {
    var c := IndexOf(roster, role);
    assert role in roster <==> role in called;
    if c.Some? {
      var below := roster[..c.value];
      AscendingSize(below);
      forall y ensures y in Elements(below) <==> y in called && y < role {
        if y in called && y < role {
          var i :| 0 <= i < |roster| && roster[i] == y;
          assert i < c.value && below[i] == y;
        }
      }
      assert Elements(below) == BelowOf(called, role);
    }
  }

  lemma DemandOpens(cfg: Config, steps: seq<Step>)
    requires InForce(cfg)
    ensures BeginOutcomeOf(cfg, steps).Opened? <==> Opens(cfg, steps)
    ensures Opens(cfg, steps) ==> IsRoster(BeginOutcomeOf(cfg, steps).task.roster, DemandedRoles(cfg, steps))
  {
    hide InForce, RosterBelow, RequiredByRole, IsRoster, DemandedRoles, FirstOutOfRange;
    if forall s :: s in steps ==> s.role < cfg.nRoles {
      RosterIsDemanded(cfg, steps);
      InRange(steps, cfg.nRoles);
    } else {
      var s :| s in steps && s.role >= cfg.nRoles;
      OutOfRange(steps, cfg.nRoles, s);
    }
  }

  lemma RosterIsDemanded(cfg: Config, steps: seq<Step>)
    requires InForce(cfg) && forall s :: s in steps ==> s.role < cfg.nRoles
    ensures var roster := RosterBelow(RequiredByRole(steps, cfg.nRoles, cfg.nBits), cfg.nRoles);
            IsRoster(roster, DemandedRoles(cfg, steps)) &&
            (roster != [] <==> exists s :: s in steps && s.bit < cfg.nBits)
  {
    hide InForce, RequiredByRole, RosterBelow;
    NarrowUniverse(cfg);
    var roster := RosterBelow(RequiredByRole(steps, cfg.nRoles, cfg.nBits), cfg.nRoles);
    forall role: nat ensures role in roster <==> role in DemandedRoles(cfg, steps) {
      CalledExactly(cfg, steps, role);
    }
    assert Elements(roster) == DemandedRoles(cfg, steps);
    AscendingSize(roster);
    if s :| s in steps && s.bit < cfg.nBits {
      CalledExactly(cfg, steps, s.role);
    }
    if roster != [] {
      CalledExactly(cfg, steps, roster[0]);
    }
  }

  lemma CalledExactly(cfg: Config, steps: seq<Step>, role: nat)
    requires InForce(cfg) && forall s :: s in steps ==> s.role < cfg.nRoles
    ensures role in RosterBelow(RequiredByRole(steps, cfg.nRoles, cfg.nBits), cfg.nRoles) <==>
            role in DemandedRoles(cfg, steps)
  {
    hide InForce, RequiredByRole;
    if role < cfg.nRoles {
      DemandedExactly(cfg, steps, role);
    }
  }

  lemma DemandedExactly(cfg: Config, steps: seq<Step>, role: nat)
    requires InForce(cfg) && role < cfg.nRoles
    ensures role in DemandedRoles(cfg, steps) <==> RequiredByRole(steps, cfg.nRoles, cfg.nBits)[role] != {}
  {
    hide InForce;
    NarrowUniverse(cfg);
    var required := RequiredByRole(steps, cfg.nRoles, cfg.nBits);
    assert required[role] == RequiredOf(steps, cfg.nBits, role);
    if role in DemandedRoles(cfg, steps) {
      var s :| s in steps && s.role == role && s.bit < cfg.nBits;
      assert s == Step(s.bit, role) && s.bit in required[role];
    }
    if required[role] != {} {
      var b :| b in required[role];
      assert Step(b, role) in steps;
    }
  }

  lemma NarrowUniverse(cfg: Config)
    requires InForce(cfg)
    ensures cfg.nBits <= 16
  {
  }

  lemma InRange(steps: seq<Step>, nRoles: nat)
    requires forall s :: s in steps ==> s.role < nRoles
    ensures FirstOutOfRange(steps, nRoles) == |steps|
  {
    forall i | 0 <= i < |steps| ensures steps[i].role < nRoles {
      assert steps[i] in steps;
    }
  }

  lemma OutOfRange(steps: seq<Step>, nRoles: nat, s: Step)
    requires s in steps && s.role >= nRoles
    ensures FirstOutOfRange(steps, nRoles) < |steps|
  {
    var i :| 0 <= i < |steps| && steps[i] == s;
  }

  /** A refusal names the first step whose role is unknown; without one the demand is empty. */
  lemma RefusalNamesTheStep(cfg: Config, steps: seq<Step>)
    requires InForce(cfg) && !Opens(cfg, steps)
    ensures (forall s :: s in steps ==> s.role < cfg.nRoles) ==>
              BeginOutcomeOf(cfg, steps) == RefusedDemand(EmptyDemand)
    ensures forall k :: 0 <= k < |steps| && steps[k].role >= cfg.nRoles &&
                        (forall i :: 0 <= i < k ==> steps[i].role < cfg.nRoles) ==>
              BeginOutcomeOf(cfg, steps) == RefusedDemand(RoleOutOfRange(steps[k].role))
  {
    DemandOpens(cfg, steps);
    if forall s :: s in steps ==> s.role < cfg.nRoles {
      InRange(steps, cfg.nRoles);
    }
  }

  /** The task in force is the one the last demand opens. */
  ghost predicate Follows(cfg: Config, st: State, events: seq<Event>) {
    (st.task.Some? <==> InTask(cfg, events)) &&
    (st.task.Some? ==> IsRoster(st.task.value.roster, Called(cfg, events)))
  }

  lemma LastCall(before: seq<Event>, e: Event)
    ensures (before + [e])[..|before|] == before && (before + [e])[|before|] == e
    ensures Demand(before + [e]) == if e.Begin? then Some(e.steps) else Demand(before)
  {
    assert (before + [e])[..|before|] == before;
  }

  lemma StepFollows(cfg: Config, roles: map<nat, nat>, st: State, before: seq<Event>, e: Event)
    requires InForce(cfg) && Follows(cfg, st, before)
    ensures Follows(cfg, EventStep(cfg, roles, st, e), before + [e])
  {
    hide BeginOutcomeOf, Opens, DemandedRoles, InForce, IsRoster, Resolve, ReadStep, Advance, Applied;
    LastCall(before, e);
    if e.Begin? {
      DemandOpens(cfg, e.steps);
    }
  }

  lemma {:induction false} RunFollows(cfg: Config, roles: map<nat, nat>, events: seq<Event>)
    requires InForce(cfg)
    ensures Follows(cfg, RunOf(cfg, roles, events), events)
    decreases |events|
  {
    hide EventStep, InForce, Follows;
    if events == [] {
      NothingFollows(cfg);
    } else {
      var before, last := events[..|events| - 1], events[|events| - 1];
      RunFollows(cfg, roles, before);
      StepFollows(cfg, roles, RunOf(cfg, roles, before), before, last);
      assert before + [last] == events;
    }
  }

  lemma NothingFollows(cfg: Config)
    ensures Follows(cfg, Initial(cfg), [])
  {
  }

  // ----- Decisions -----

  lemma {:induction false} ResolvedAreKnown(roles: map<nat, nat>, coalition: seq<CapabilityAgent>)
    ensures Resolve(roles, coalition).Some? <==>
            !exists i :: 0 <= i < |coalition| && coalition[i].id !in roles
    decreases |coalition|
  {
    if coalition != [] {
      var init := coalition[..|coalition| - 1];
      ResolvedAreKnown(roles, init);
      assert forall i :: 0 <= i < |init| ==> init[i] == coalition[i];
    }
  }

  /** The decision on a question after a run of calls. */
  ghost function DecisionOn(cfg: Config, roles: map<nat, nat>, before: seq<Event>, e: Event): Decision
    requires InForce(cfg) && e.Ask?
  {
    DecideStep(cfg, roles, RunOf(cfg, roles, before), e.agent, e.coalition, e.leave, e.engine).1
  }

  /** What every decision of every run is: it acts exactly when the last demand opened a task, every
      participant has a role, and the engine builds every query and reads above one half; its score
      is positive exactly then, zero when it declines, and the read's distance from one half, or its
      side of it where the read is sampled. */
  lemma DecisionsAreReads(cfg: Config, roles: map<nat, nat>, before: seq<Event>, e: Event)
    requires InForce(cfg) && e.Ask?
    ensures var d, v := DecisionOn(cfg, roles, before, e), VerdictOf(cfg, roles, before, e);
            (d.act <==> v.ReadOut? && v.p > 0.5) && (d.act <==> d.score > 0.0) && (!v.ReadOut? ==> d.score == 0.0) &&
            (v.ReadOut? ==>
               d.score == if cfg.routing.Off? && cfg.read == SeededSampling then if v.p > 0.5 then 0.5 else -0.5
                          else v.p - 0.5)
  {
    hide InForce, Resolve, Identical, Sensitive, Routed, IndexOf, InTask, RunOf;
    RunFollows(cfg, roles, before);
    ResolvedAreKnown(roles, e.coalition);
  }

  // ----- The counters -----

  /** The counters of a run as counts of its calls. */
  ghost predicate Books(cfg: Config, roles: map<nat, nat>, st: State, events: seq<Event>) {
    var c := st.counters;
    c.decisions == CountOf(cfg, roles, Asked, events) &&
    c.declinesNoDemand == CountOf(cfg, roles, WithoutDemand, events) &&
    c.declinesMissingRole == CountOf(cfg, roles, WithoutRole, events) &&
    c.declinesUpstream == CountOf(cfg, roles, Failed, events) &&
    c.readCount == CountOf(cfg, roles, Read, events) &&
    c.tasksObserved == CountOf(cfg, roles, Reached, events) &&
    c.outcomesUnapplied == CountOf(cfg, roles, Unapplied, events) &&
    c.beginRejections == CountOf(cfg, roles, Refused, events) &&
    c.rosterSizes == RostersOf(cfg, events) &&
    c.leaveQueries == LeaveQueriesOf(cfg, roles, events) &&
    AreSamples(cfg, roles, events, c.agreement)
  }

  ghost predicate Learned(cfg: Config, st: State, events: seq<Event>) {
    |st.updates| == ModelCount(cfg) &&
    forall m :: 0 <= m < |st.updates| ==> st.updates[m] == LessonsOf(cfg, m, events)
  }

  lemma {:induction false} AppliedIsSome(cfg: Config, roster: seq<nat>, accepts: nat -> bool)
    ensures Applied(cfg, roster, accepts) > 0 <==>
            if cfg.models == SharedModel then accepts(0) else exists i :: 0 <= i < |roster| && accepts(roster[i])
    decreases |roster|
  {
    if cfg.models == RoleSpecialised && roster != [] {
      var init := roster[..|roster| - 1];
      AppliedIsSome(cfg, init, accepts);
      assert forall i :: 0 <= i < |init| ==> init[i] == roster[i];
    }
  }

  lemma OneMoreCall(cfg: Config, roles: map<nat, nat>, kind: Kind, before: seq<Event>, e: Event)
    ensures CountOf(cfg, roles, kind, before + [e]) ==
            CountOf(cfg, roles, kind, before) + if IsKind(cfg, roles, kind, before, e) then 1 else 0
  {
    hide IsKind;
    LastCall(before, e);
  }

  lemma OneMoreEntry(cfg: Config, roles: map<nat, nat>, before: seq<Event>, e: Event)
    ensures RostersOf(cfg, before + [e]) ==
            RostersOf(cfg, before) + if e.Begin? && Opens(cfg, e.steps) then [|DemandedRoles(cfg, e.steps)|] else []
    ensures LeaveQueriesOf(cfg, roles, before + [e]) ==
            LeaveQueriesOf(cfg, roles, before) + if e.Ask? && e.leave then QueriesOf(cfg, roles, before, e) else 0
    ensures forall m :: LessonsOf(cfg, m, before + [e]) ==
                        LessonsOf(cfg, m, before) +
                        if Reaches(cfg, before, e) && Learns(cfg, before, m) && e.accepts(m) then 1 else 0
  {
    hide Opens, DemandedRoles, QueriesOf, Reaches, Learns;
    LastCall(before, e);
  }

  ghost predicate Sampled(cfg: Config, roles: map<nat, nat>, before: seq<Event>, e: Event) {
    IsKind(cfg, roles, Read, before, e) && !(cfg.routing.Off? && cfg.read == SeededSampling)
  }

  lemma OneMoreSample(cfg: Config, roles: map<nat, nat>, before: seq<Event>, e: Event, samples: seq<Sample>,
                      more: seq<Sample>)
    requires AreSamples(cfg, roles, before, samples)
    requires if Sampled(cfg, roles, before, e) then
               |more| == |samples| + 1 && more[..|samples|] == samples &&
               IsSample(cfg, roles, before, e, more[|samples|])
             else more == samples
    ensures AreSamples(cfg, roles, before + [e], more)
  {
    hide IsKind, IsSample;
    LastCall(before, e);
  }

  /** The counters after a call that is none of the others' business. */
  lemma CountsStep(cfg: Config, roles: map<nat, nat>, before: seq<Event>, e: Event)
    ensures forall kind :: CountOf(cfg, roles, kind, before + [e]) ==
                           CountOf(cfg, roles, kind, before) + if IsKind(cfg, roles, kind, before, e) then 1 else 0
  {
    hide IsKind, CountOf;
    forall kind ensures CountOf(cfg, roles, kind, before + [e]) ==
                        CountOf(cfg, roles, kind, before) + if IsKind(cfg, roles, kind, before, e) then 1 else 0
    {
      OneMoreCall(cfg, roles, kind, before, e);
    }
  }

  lemma BeginBooks(cfg: Config, roles: map<nat, nat>, st: State, before: seq<Event>, e: Event)
    requires InForce(cfg) && Books(cfg, roles, st, before) && e.Begin?
    ensures Books(cfg, roles, BeginStep(cfg, st, e.steps), before + [e])
  {
    hide BeginOutcomeOf, Opens, DemandedRoles, InForce, CountOf, RostersOf, LeaveQueriesOf, AreSamples, Advance;
    DemandOpens(cfg, e.steps);
    CountsStep(cfg, roles, before, e);
    OneMoreEntry(cfg, roles, before, e);
    OneMoreSample(cfg, roles, before, e, st.counters.agreement, st.counters.agreement);
  }

  lemma ObserveBooks(cfg: Config, roles: map<nat, nat>, st: State, before: seq<Event>, e: Event)
    requires InForce(cfg) && Books(cfg, roles, st, before) && Follows(cfg, st, before) && e.Observe?
    ensures Books(cfg, roles, ObserveStep(cfg, st, e.width, e.accepts), before + [e])
  {
    hide InTask, InForce, CountOf, RostersOf, LeaveQueriesOf, AreSamples, Advance, Applied, Called, DemandedRoles;
    CountsStep(cfg, roles, before, e);
    OneMoreEntry(cfg, roles, before, e);
    OneMoreSample(cfg, roles, before, e, st.counters.agreement, st.counters.agreement);
    if Effective(cfg, st, e.width) {
      EffectIsApplied(cfg, st.task.value.roster, before, e);
    }
  }

  lemma EffectIsApplied(cfg: Config, roster: seq<nat>, before: seq<Event>, e: Event)
    requires e.Observe? && Reaches(cfg, before, e) && IsRoster(roster, Called(cfg, before))
    ensures Applied(cfg, roster, e.accepts) > 0 <==> Applies(cfg, before, e)
  {
    hide Applied, Called, InTask;
    AppliedIsSome(cfg, roster, e.accepts);
    if cfg.models == SharedModel {
      assert Learns(cfg, before, 0);
    } else {
      forall m ensures Learns(cfg, before, m) <==> m in roster {
        assert m in roster <==> m in Elements(roster);
      }
    }
  }

  /** What a read leaves in the counters. */
  lemma ReadLeaves(cfg: Config, c: Counters, roster: seq<nat>, candidate: Participant, members: seq<Participant>,
                   leave: bool, engine: Engine)
    ensures var r := ReadStep(cfg, c, roster, candidate, members, leave, engine).0;
            var built := if engine.QueryFails? && engine.at < |roster| then engine.at + 1 else |roster|;
            r.decisions == c.decisions && r.declinesNoDemand == c.declinesNoDemand &&
            r.declinesMissingRole == c.declinesMissingRole && r.tasksObserved == c.tasksObserved &&
            r.outcomesUnapplied == c.outcomesUnapplied && r.beginRejections == c.beginRejections &&
            r.rosterSizes == c.rosterSizes &&
            r.declinesUpstream == c.declinesUpstream + (if engine.Reads? then 0 else 1) &&
            r.readCount == c.readCount + (if engine.Reads? then 1 else 0) &&
            r.leaveQueries == c.leaveQueries + (if leave then built else 0)
    ensures var r := ReadStep(cfg, c, roster, candidate, members, leave, engine).0;
            if engine.Reads? && !(cfg.routing.Off? && cfg.read == SeededSampling) then
              r.agreement == c.agreement +
                [Sample(|roster|, Sensitive(cfg, roster, |roster|, candidate, members, leave),
                        IndexOf(roster, candidate.role), leave, engine.pAct > 0.5)]
            else r.agreement == c.agreement
  {
    hide Identical, Sensitive, Routed, IndexOf;
  }

  lemma {:induction false} BlindIsSensitive(cfg: Config, roster: seq<nat>, k: nat, candidate: Participant,
                                            members: seq<Participant>, leave: bool)
    requires cfg.masks == RoleBlind && k <= |roster|
    ensures Sensitive(cfg, roster, k, candidate, members, leave) == k
  {
    hide MemberUnion;
    if k > 0 {
      BlindIsSensitive(cfg, roster, k - 1, candidate, members, leave);
    }
  }

  lemma ReadIsSampled(cfg: Config, roles: map<nat, nat>, before: seq<Event>, e: Event, roster: seq<nat>,
                      candidate: Participant, members: seq<Participant>)
    requires e.Ask? && VerdictOf(cfg, roles, before, e).ReadOut? && candidate.role == roles[e.agent.id]
    requires IsRoster(roster, Called(cfg, before))
    ensures IsSample(cfg, roles, before, e,
                     Sample(|roster|, Sensitive(cfg, roster, |roster|, candidate, members, e.leave),
                            IndexOf(roster, candidate.role), e.leave, e.engine.pAct > 0.5))
  {
    hide Sensitive, IndexOf, Called, InTask;
    var called := Called(cfg, before);
    PlaceInRoster(roster, called, candidate.role);
    assert candidate.role in roster <==> candidate.role in Elements(roster);
    if cfg.masks == RoleBlind {
      BlindIsSensitive(cfg, roster, |roster|, candidate, members, e.leave);
    } else {
      SensitiveIsCentre(cfg, roster, |roster|, candidate, members, e.leave);
      assert roster[..|roster|] == roster;
    }
  }

  lemma AskBooks(cfg: Config, roles: map<nat, nat>, st: State, before: seq<Event>, e: Event)
    requires InForce(cfg) && Books(cfg, roles, st, before) && Follows(cfg, st, before) && e.Ask?
    ensures Books(cfg, roles, DecideStep(cfg, roles, st, e.agent, e.coalition, e.leave, e.engine).0, before + [e])
  {
    hide InTask, InForce, CountOf, RostersOf, LeaveQueriesOf, AreSamples, Resolve, ReadStep, Called, IsSample, IsRoster;
    CountsStep(cfg, roles, before, e);
    OneMoreEntry(cfg, roles, before, e);
    ResolvedAreKnown(roles, e.coalition);
    var members := Resolve(roles, e.coalition);
    var after := DecideStep(cfg, roles, st, e.agent, e.coalition, e.leave, e.engine).0;
    if st.task.Some? && e.agent.id in roles && members.Some? {
      var roster, candidate := st.task.value.roster, Participant(roles[e.agent.id], e.agent.id, e.agent.capabilities);
      var c := st.counters.(decisions := st.counters.decisions + 1);
      ReadLeaves(cfg, c, roster, candidate, members.value, e.leave, e.engine);
      RosterSize(roster, Called(cfg, before));
      if e.engine.Reads? {
        ReadIsSampled(cfg, roles, before, e, roster, candidate, members.value);
      }
    }
    OneMoreSample(cfg, roles, before, e, st.counters.agreement, after.counters.agreement);
  }

  lemma RosterSize(roster: seq<nat>, called: set<nat>)
    requires IsRoster(roster, called)
    ensures |roster| == |called|
  {
  }

  lemma StepLearned(cfg: Config, roles: map<nat, nat>, st: State, before: seq<Event>, e: Event)
    requires InForce(cfg) && Follows(cfg, st, before) && Learned(cfg, st, before)
    ensures Learned(cfg, EventStep(cfg, roles, st, e), before + [e])
  {
    hide InTask, InForce, LessonsOf, Resolve, ReadStep, Called, BeginOutcomeOf, Applied;
    OneMoreEntry(cfg, roles, before, e);
    if e.Observe? && Effective(cfg, st, e.width) {
      var roster := st.task.value.roster;
      forall m: nat ensures m in roster <==> m in Called(cfg, before) {
        assert m in roster <==> m in Elements(roster);
      }
    }
  }

  /** Every run: each counter is the number of calls of its kind, the rosters, queries and samples
      are those of the demands and reads, and each model was taught the accepted outcomes that
      concern it. */
  lemma {:induction false} EveryRunIsBooked(cfg: Config, roles: map<nat, nat>, events: seq<Event>)
    requires InForce(cfg)
    ensures Books(cfg, roles, RunOf(cfg, roles, events), events) && Learned(cfg, RunOf(cfg, roles, events), events)
    decreases |events|
  {
    hide EventStep, InForce, Books, Learned, Follows;
    if events == [] {
      NothingBooked(cfg, roles);
    } else {
      var before, last := events[..|events| - 1], events[|events| - 1];
      assert before + [last] == events;
      EveryRunIsBooked(cfg, roles, before);
      RunFollows(cfg, roles, before);
      var st := RunOf(cfg, roles, before);
      StepLearned(cfg, roles, st, before, last);
      StepIs(cfg, roles, st, last);
      if last.Begin? {
        BeginBooks(cfg, roles, st, before, last);
      } else if last.Observe? {
        ObserveBooks(cfg, roles, st, before, last);
      } else {
        AskBooks(cfg, roles, st, before, last);
      }
    }
  }

  lemma StepIs(cfg: Config, roles: map<nat, nat>, st: State, e: Event)
    requires InForce(cfg)
    ensures EventStep(cfg, roles, st, e) ==
            match e
            case Begin(steps) => BeginStep(cfg, st, steps)
            case Observe(width, accepts) => ObserveStep(cfg, st, width, accepts)
            case Ask(agent, coalition, leave, engine) => DecideStep(cfg, roles, st, agent, coalition, leave, engine).0
  {
    hide BeginStep, ObserveStep, DecideStep;
  }

  lemma NothingBooked(cfg: Config, roles: map<nat, nat>)
    ensures Books(cfg, roles, Initial(cfg), []) && Learned(cfg, Initial(cfg), [])
  {
  }

  // ----- Configurations -----

  /** What the constructor accepts, which error it gives otherwise, and what it stores. */
  lemma BuildsExactly(cfg: Config)
    ensures var sampled, routed := cfg.read == SeededSampling, cfg.routing.CandidateStar?;
            var certain := cfg.vote == CertaintyWeighted;
            match Build(cfg)
            case Accepted(kept) =>
              (sampled ==> certain) && (routed ==> 0.0 <= cfg.routing.lambda <= 1.0 && !sampled && certain) &&
              kept == cfg.(nRoles := kept.nRoles) && 1 <= kept.nRoles <= 255 &&
              (1 <= cfg.nRoles <= 255 ==> kept == cfg) && Build(kept) == Accepted(kept)
            case Rejected(error) =>
              match error
              case UnsupportedReadVote => sampled && !certain
              case InvalidRoutingWeight(lambda) =>
                (sampled ==> certain) && routed && lambda == cfg.routing.lambda && !(0.0 <= lambda <= 1.0)
              case UnsupportedRouting =>
                (sampled ==> certain) && routed && 0.0 <= cfg.routing.lambda <= 1.0 && (sampled || !certain)
  {
  }
}
