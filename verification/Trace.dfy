/** The trace decoder, and the round trip through it: what a driver records determines the
    final membership and the removals of every task. */
module Trace {
  import opened Agents
  import opened Sorting
  import opened Sums
  import opened Workflow

  datatype DecodeError =
    | TraceEnds(task: nat)
    | WrongKind(task: nat, expectedLeave: bool)
    | EntriesLeft(count: nat)

  /** A task being decoded: its members, its removals, and the next entry to read. */
  datatype Decoding = Decoding(members: seq<nat>, churn: nat, pos: nat) | Broken(error: DecodeError)

  datatype Read = Act(act: bool) | Bad(error: DecodeError)

  /** The act of entry `pos`, which must be there and be of the kind expected. */
  function Next(trace: seq<TraceEntry>, pos: nat, task: nat, leave: bool): Read {
    if pos >= |trace| then Bad(TraceEnds(task))
    else if trace[pos].leave != leave then Bad(WrongKind(task, leave))
    else Act(trace[pos].act)
  }

  /** Decoding of the join pass over the first `k` arrivals. */
  function JoinsDecoded(trace: seq<TraceEntry>, arrival: seq<nat>, pos: nat, task: nat, k: nat): Decoding
    requires k <= |arrival|
  {
    if k == 0 then Decoding([], 0, pos)
    else if k == 1 then Decoding([arrival[0]], 0, pos)
    else
      match JoinsDecoded(trace, arrival, pos, task, k - 1)
      case Broken(e) => Broken(e)
      case Decoding(members, churn, at) =>
        match Next(trace, at, task, false)
        case Bad(e) => Broken(e)
        case Act(act) =>
          Decoding(if act then members + [arrival[k - 1]] else members, churn, at + 1)
  }

  /** Decoding of the sweep over the first `k` arrivals, from the decoding `d`. */
  function LeavesDecoded(trace: seq<TraceEntry>, arrival: seq<nat>, d: Decoding, task: nat, k: nat): Decoding
    requires k <= |arrival|
  {
    if k == 0 then d
    else
      match LeavesDecoded(trace, arrival, d, task, k - 1)
      case Broken(e) => Broken(e)
      case Decoding(members, churn, at) =>
        var i := arrival[k - 1];
        if i !in members then Decoding(members, churn, at)
        else
          match Next(trace, at, task, true)
          case Bad(e) => Broken(e)
          case Act(act) =>
            if act then Decoding(RemoveAt(members, Position(members, i)), churn + 1, at + 1)
            else Decoding(members, churn, at + 1)
  }

  function TaskDecoded(trace: seq<TraceEntry>, arrival: seq<nat>, pos: nat, task: nat): Decoding {
    LeavesDecoded(trace, arrival, JoinsDecoded(trace, arrival, pos, task, |arrival|), task, |arrival|)
  }

  /** The ends of the first `k` tasks and the next entry to read. */
  datatype Ends = Ends(ends: seq<End>, pos: nat) | NoEnds(error: DecodeError)

  function EndsDecoded(trace: seq<TraceEntry>, inst: Instance, k: nat): (r: Ends)
    requires k <= |inst.tasks|
    ensures r.Ends? ==> |r.ends| == k
  {
    if k == 0 then Ends([], 0)
    else
      match EndsDecoded(trace, inst, k - 1)
      case NoEnds(e) => NoEnds(e)
      case Ends(ends, pos) =>
        match TaskDecoded(trace, inst.tasks[k - 1].arrival, pos, k - 1)
        case Broken(e) => NoEnds(e)
        case Decoding(members, churn, at) => Ends(ends + [End(members, churn)], at)
  }

  /** What the decoder reports of a task: its members ascending, and its score. */
  datatype TaskEnd = TaskEnd(steps: nat, covered: nat, members: seq<nat>, covEff: real)

  datatype Recon = Recon(tasks: seq<TaskEnd>, primary: real, churn: nat)

  datatype Outcome = Decoded(recon: Recon) | Refused(error: DecodeError)

  predicate AtMost(x: nat, y: nat) {
    x <= y
  }

  function TaskEndOf(inst: Instance, task: Task, end: End): TaskEnd {
    TaskEnd(|task.steps|, CoveredCount(inst, end.members, task.steps), Sorted(AtMost, end.members),
            CovEff(WorkflowDriver, inst, end.members, task))
  }

  /** The reported members are the final ones, ascending. */
  lemma ReportedMembersAscend(inst: Instance, task: Task, end: End)
    ensures var members := TaskEndOf(inst, task, end).members;
            multiset(members) == multiset(end.members) &&
            forall i, j :: 0 <= i < j < |members| ==> members[i] <= members[j]
  {
    hide CoveredCount, CovEff;
    SortedAscends(AtMost, end.members);
  }

  function TaskEndsOf(inst: Instance, ends: seq<End>): seq<TaskEnd>
    requires |ends| <= |inst.tasks|
  {
    seq(|ends|, t requires 0 <= t < |ends| => TaskEndOf(inst, inst.tasks[t], ends[t]))
  }

  function ReconOf(inst: Instance, ends: seq<End>): Recon
    requires |ends| <= |inst.tasks|
  {
    var tally := TallyOf(WorkflowDriver, inst, ends);
    Recon(TaskEndsOf(inst, ends), Primary(tally, |inst.tasks|), tally.churn)
  }

  /** The decoder: every task decoded in turn, and no entry left over. */
  function Reconstructed(inst: Instance, trace: seq<TraceEntry>): Outcome {
    match EndsDecoded(trace, inst, |inst.tasks|)
    case NoEnds(e) => Refused(e)
    case Ends(ends, pos) =>
      if pos < |trace| then Refused(EntriesLeft(|trace| - pos)) else Decoded(ReconOf(inst, ends))
  }

  method Reconstruct(inst: Instance, trace: seq<TraceEntry>) returns (outcome: Outcome)
    ensures outcome == Reconstructed(inst, trace)
  {
    hide TaskEndOf, TallyOf, Success, CovEff, CoveredCount, Primary, RemoveAt, Position;
    var pos: nat := 0;
    var tasks: seq<TaskEnd> := [];
    var successes: nat, covEffSum: real, churn: nat := 0, 0.0, 0;
    ghost var ends: seq<End> := [];
    NoTasks(WorkflowDriver, inst);
    for t := 0 to |inst.tasks|
      invariant EndsDecoded(trace, inst, t) == Ends(ends, pos)
      invariant tasks == TaskEndsOf(inst, ends)
      invariant Tally(successes, covEffSum, churn) == TallyOf(WorkflowDriver, inst, ends)
    {
      var task := inst.tasks[t];
      var d := DecodeTask(trace, task.arrival, pos, t);
      if d.Broken? {
        RefusalStays(trace, inst, t + 1, |inst.tasks|);
        return Refused(d.error);
      }
      var members := d.members;
      pos := d.pos;
      if Success(WorkflowDriver, inst, members, task) {
        successes := successes + 1;
      }
      covEffSum := covEffSum + CovEff(WorkflowDriver, inst, members, task);
      churn := churn + d.churn;
      TallyStep(WorkflowDriver, inst, ends, End(members, d.churn));
      tasks := tasks + [TaskEndOf(inst, task, End(members, d.churn))];
      ends := ends + [End(members, d.churn)];
    }
    if pos < |trace| {
      return Refused(EntriesLeft(|trace| - pos));
    }
    outcome := Decoded(Recon(tasks, Primary(Tally(successes, covEffSum, churn), |inst.tasks|), churn));
  }

  lemma {:induction false} RefusalStays(trace: seq<TraceEntry>, inst: Instance, j: nat, k: nat)
    requires j <= k <= |inst.tasks| && EndsDecoded(trace, inst, j).NoEnds?
    ensures EndsDecoded(trace, inst, k) == EndsDecoded(trace, inst, j)
  {
    if j < k {
      RefusalStays(trace, inst, j, k - 1);
    }
  }

  method DecodeTask(trace: seq<TraceEntry>, arrival: seq<nat>, pos: nat, task: nat) returns (d: Decoding)
    ensures d == TaskDecoded(trace, arrival, pos, task)
  {
    hide RemoveAt, Position, Next;
    var members: seq<nat>, churn: nat, at: nat := [], 0, pos;
    if arrival != [] {
      members := [arrival[0]];
    }
    for k := if arrival == [] then 0 else 1 to |arrival|
      invariant JoinsDecoded(trace, arrival, pos, task, k) == Decoding(members, 0, at)
    {
      var r := Next(trace, at, task, false);
      if r.Bad? {
        JoinsStayBroken(trace, arrival, pos, task, k + 1, |arrival|);
        LeavesStayBroken(trace, arrival, Broken(r.error), task, 0, |arrival|);
        return Broken(r.error);
      }
      at := at + 1;
      if r.act {
        members := members + [arrival[k]];
      }
    }
    ghost var d0 := Decoding(members, 0, at);
    for k := 0 to |arrival|
      invariant LeavesDecoded(trace, arrival, d0, task, k) == Decoding(members, churn, at)
    {
      var p := Position(members, arrival[k]);
      if p < |members| {
        var r := Next(trace, at, task, true);
        if r.Bad? {
          LeavesStayBroken(trace, arrival, d0, task, k + 1, |arrival|);
          return Broken(r.error);
        }
        at := at + 1;
        if r.act {
          members := RemoveAt(members, p);
          churn := churn + 1;
        }
      }
    }
    d := Decoding(members, churn, at);
  }

  lemma {:induction false} JoinsStayBroken(trace: seq<TraceEntry>, arrival: seq<nat>, pos: nat, task: nat, j: nat,
                                           k: nat)
    requires j <= k <= |arrival| && JoinsDecoded(trace, arrival, pos, task, j).Broken?
    ensures JoinsDecoded(trace, arrival, pos, task, k) == JoinsDecoded(trace, arrival, pos, task, j)
  {
    if j < k {
      JoinsStayBroken(trace, arrival, pos, task, j, k - 1);
    }
  }

  lemma {:induction false} LeavesStayBroken(trace: seq<TraceEntry>, arrival: seq<nat>, d: Decoding, task: nat, j: nat,
                                            k: nat)
    requires j <= k <= |arrival| && LeavesDecoded(trace, arrival, d, task, j).Broken?
    ensures LeavesDecoded(trace, arrival, d, task, k) == LeavesDecoded(trace, arrival, d, task, j)
  {
    if j < k {
      LeavesStayBroken(trace, arrival, d, task, j, k - 1);
    }
  }

  // ----- The round trip of the workflow driver -----

  lemma JoinRecords<S>(rules: Policy<S>, p: Pass<S>, agents: seq<CapabilityAgent>, required: Mask, i: nat)
    requires InPool(agents, p.members) && i < |agents|
    ensures var r := JoinOne(rules, p, agents, required, i);
            |r.entries| == |p.entries| + 1 && p.entries <= r.entries && r.churn == p.churn &&
            var e := r.entries[|p.entries|];
            !e.leave && r.members == if e.act then p.members + [i] else p.members
  {
  }

  lemma LeaveRecords<S>(rules: Policy<S>, p: Pass<S>, agents: seq<CapabilityAgent>, required: Mask, i: nat)
    requires InPool(agents, p.members) && i < |agents|
    ensures var r := LeaveOne(rules, p, agents, required, i);
            if i !in p.members then r == p
            else
              |r.entries| == |p.entries| + 1 && p.entries <= r.entries &&
              var e := r.entries[|p.entries|];
              e.leave &&
              r.members == (if e.act then RemoveAt(p.members, Position(p.members, i)) else p.members) &&
              r.churn == if e.act then p.churn + 1 else p.churn
  {
  }

  lemma {:induction false} JoinsRoundTrip<S>(rules: Policy<S>, s: S, agents: seq<CapabilityAgent>, task: Task,
                                             trace: seq<TraceEntry>, pos: nat, t: nat, k: nat)
    requires InPool(agents, task.arrival) && k <= |task.arrival|
    requires var p := Joins(rules, s, agents, task, k); Holds(trace, pos, p.entries)
    ensures var p := Joins(rules, s, agents, task, k);
            JoinsDecoded(trace, task.arrival, pos, t, k) == Decoding(p.members, 0, pos + |p.entries|)
  {
    hide Joins, JoinOne;
    if k == 0 {
      NobodyJoined(rules, s, agents, task);
    } else {
      JoinsStep(rules, s, agents, task, k - 1);
      if k > 1 {
        var p, r := Joins(rules, s, agents, task, k - 1), Joins(rules, s, agents, task, k);
        JoinRecords(rules, p, agents, task.required, task.arrival[k - 1]);
        HoldsInit(trace, pos, p.entries, r.entries);
        JoinsRoundTrip(rules, s, agents, task, trace, pos, t, k - 1);
      }
    }
  }

  /** `trace` carries `entries` from position `pos` on. */
  ghost predicate Holds(trace: seq<TraceEntry>, pos: nat, entries: seq<TraceEntry>) {
    pos + |entries| <= |trace| && forall i :: 0 <= i < |entries| ==> trace[pos + i] == entries[i]
  }

  lemma HoldsInit(trace: seq<TraceEntry>, pos: nat, init: seq<TraceEntry>, entries: seq<TraceEntry>)
    requires Holds(trace, pos, entries) && init <= entries
    ensures Holds(trace, pos, init)
    ensures |init| < |entries| ==> pos + |init| < |trace| && trace[pos + |init|] == entries[|init|]
  {
  }

  lemma {:induction false} LeavesRoundTrip<S>(rules: Policy<S>, p0: Pass<S>, agents: seq<CapabilityAgent>, task: Task,
                                              trace: seq<TraceEntry>, pos: nat, t: nat, k: nat)
    requires InPool(agents, task.arrival) && InPool(agents, p0.members) && k <= |task.arrival|
    requires Holds(trace, pos, Leaves(rules, p0, agents, task, k).entries)
    ensures var p := Leaves(rules, p0, agents, task, k);
            LeavesDecoded(trace, task.arrival, Decoding(p0.members, p0.churn, pos + |p0.entries|), t, k) ==
            Decoding(p.members, p.churn, pos + |p.entries|)
    ensures p0.entries <= Leaves(rules, p0, agents, task, k).entries
  {
    hide Leaves, LeaveOne, Position, RemoveAt;
    if k == 0 {
      NothingSwept(rules, p0, agents, task);
    } else {
      LeavesStep(rules, p0, agents, task, k - 1);
      var p, r := Leaves(rules, p0, agents, task, k - 1), Leaves(rules, p0, agents, task, k);
      LeaveRecords(rules, p, agents, task.required, task.arrival[k - 1]);
      HoldsInit(trace, pos, p.entries, r.entries);
      LeavesRoundTrip(rules, p0, agents, task, trace, pos, t, k - 1);
    }
  }

  lemma {:induction false} LeavesExtend<S>(rules: Policy<S>, p0: Pass<S>, agents: seq<CapabilityAgent>, task: Task,
                                           k: nat)
    requires InPool(agents, task.arrival) && InPool(agents, p0.members) && k <= |task.arrival|
    ensures p0.entries <= Leaves(rules, p0, agents, task, k).entries
  {
    hide LeaveOne;
    if k > 0 {
      LeavesExtend(rules, p0, agents, task, k - 1);
      LeaveRecords(rules, Leaves(rules, p0, agents, task, k - 1), agents, task.required, task.arrival[k - 1]);
    }
  }

  lemma TaskRoundTrip<S>(rules: Policy<S>, s: S, agents: seq<CapabilityAgent>, task: Task,
                         trace: seq<TraceEntry>, pos: nat, t: nat)
    requires InPool(agents, task.arrival)
    requires Holds(trace, pos, TaskPass(WorkflowDriver, rules, s, agents, task).entries)
    ensures var p := TaskPass(WorkflowDriver, rules, s, agents, task);
            TaskDecoded(trace, task.arrival, pos, t) == Decoding(p.members, p.churn, pos + |p.entries|)
  {
    hide Joins, Leaves, JoinsDecoded, LeavesDecoded;
    var begun := rules.begin(s, task.required, task.steps);
    var n := |task.arrival|;
    var joined := Joins(rules, begun, agents, task, n);
    LeavesExtend(rules, joined, agents, task, n);
    JoinsRoundTrip(rules, begun, agents, task, trace, pos, t, n);
    LeavesRoundTrip(rules, joined, agents, task, trace, pos, t, n);
  }

  lemma NoEndsDecoded(trace: seq<TraceEntry>, inst: Instance)
    ensures EndsDecoded(trace, inst, 0) == Ends([], 0)
  {
  }

  lemma OneMoreEnd(trace: seq<TraceEntry>, inst: Instance, t: nat)
    requires t < |inst.tasks| && EndsDecoded(trace, inst, t).Ends?
    ensures var e := EndsDecoded(trace, inst, t);
            EndsDecoded(trace, inst, t + 1) ==
            match TaskDecoded(trace, inst.tasks[t].arrival, e.pos, t)
            case Broken(error) => NoEnds(error)
            case Decoding(members, churn, at) => Ends(e.ends + [End(members, churn)], at)
  {
    hide TaskDecoded;
  }

  lemma ArrivalsDistinct(inst: Instance, t: nat)
    requires DistinctArrivals(inst) && t < |inst.tasks|
    ensures Distinct(inst.tasks[t].arrival)
  {
  }

  lemma {:induction false} RunRoundTrip<S>(driver: Driver, rules: Policy<S>, s: S, inst: ValidInstance, sig: Signals,
                                           trace: seq<TraceEntry>, k: nat)
    requires driver == BatteryDriver ==> DistinctArrivals(inst)
    requires k <= |inst.tasks| && RunTasks(driver, rules, s, inst, sig, k).entries <= trace
    ensures var run := RunTasks(driver, rules, s, inst, sig, k);
            EndsDecoded(trace, inst, k) == Ends(run.ends, |run.entries|)
  {
    hide RunTasks, EndsDecoded, TaskPass, TaskDecoded, MemberOutcomes;
    if k == 0 {
      NoTasksRun(driver, rules, s, inst, sig);
      NoEndsDecoded(trace, inst);
    } else {
      var before := RunTasks(driver, rules, s, inst, sig, k - 1);
      RunStep(driver, rules, s, inst, sig, k - 1);
      RunRoundTrip(driver, rules, s, inst, sig, trace, k - 1);
      OneMoreEnd(trace, inst, k - 1);
      if driver == BatteryDriver {
        ArrivalsDistinct(inst, k - 1);
        BatteryTaskRoundTrip(rules, before.state, inst.agents, inst.tasks[k - 1], trace, |before.entries|, k - 1);
      } else {
        TaskRoundTrip(rules, before.state, inst.agents, inst.tasks[k - 1], trace, |before.entries|, k - 1);
      }
    }
  }

  /** Run, record, decode: for every policy and every instance, the decoder consumes what the
      workflow driver recorded exactly, finds the driver's own members and removals of every
      task, and reports them and the primary. */
  lemma RoundTrip<S>(rules: Policy<S>, s: S, inst: ValidInstance, sig: Signals)
    ensures var run := RunTasks(WorkflowDriver, rules, s, inst, sig, |inst.tasks|);
            EndsDecoded(run.entries, inst, |inst.tasks|) == Ends(run.ends, |run.entries|) &&
            Reconstructed(inst, run.entries) == Decoded(ReconOf(inst, run.ends))
  {
    hide RunTasks, EndsDecoded, ReconOf;
    var run := RunTasks(WorkflowDriver, rules, s, inst, sig, |inst.tasks|);
    RunRoundTrip(WorkflowDriver, rules, s, inst, sig, run.entries, |inst.tasks|);
  }

  // ----- The round trip of the battery -----

  ghost predicate DistinctArrivals(inst: Instance) {
    forall k :: 0 <= k < |inst.tasks| ==> Distinct(inst.tasks[k].arrival)
  }

  /** The `k`-th arrival either joins last or leaves the membership as it is. */
  lemma JoinsOrNot<S>(rules: Policy<S>, s: S, agents: seq<CapabilityAgent>, task: Task, k: nat)
    requires InPool(agents, task.arrival) && k < |task.arrival|
    ensures Joins(rules, s, agents, task, 0).members == []
    ensures var before, now := Joins(rules, s, agents, task, k).members, Joins(rules, s, agents, task, k + 1).members;
            now == before || now == before + [task.arrival[k]]
  {
  }

  lemma {:induction false} JoinedAreArrivals<S>(rules: Policy<S>, s: S, agents: seq<CapabilityAgent>, task: Task,
                                                k: nat)
    requires InPool(agents, task.arrival) && Distinct(task.arrival) && k <= |task.arrival|
    ensures var m := Joins(rules, s, agents, task, k).members;
            Distinct(m) && forall x :: x in m ==> x in task.arrival[..k]
  {
    hide Joins;
    if k == 0 {
      NobodyJoined(rules, s, agents, task);
    } else {
      JoinsOrNot(rules, s, agents, task, k - 1);
      JoinedAreArrivals(rules, s, agents, task, k - 1);
      assert task.arrival[..k] == task.arrival[..k - 1] + [task.arrival[k - 1]];
      assert task.arrival[k - 1] !in task.arrival[..k - 1];
    }
  }

  lemma {:induction false} JoinedExtend<S>(rules: Policy<S>, s: S, agents: seq<CapabilityAgent>, task: Task, j: nat,
                                           k: nat)
    requires InPool(agents, task.arrival) && j <= k <= |task.arrival|
    ensures Joins(rules, s, agents, task, j).members <= Joins(rules, s, agents, task, k).members
  {
    hide Joins;
    if j < k {
      JoinsOrNot(rules, s, agents, task, k - 1);
      JoinedExtend(rules, s, agents, task, j, k - 1);
    }
  }

  /** Of a duplicate-free membership, dropping every occurrence is dropping the first. */
  lemma HeadAndRest(m: seq<nat>, x: nat)
    requires Distinct(m) && m != []
    ensures Distinct(m[1..]) && m[0] !in m[1..]
    ensures Without(m, x) == (if m[0] == x then [] else [m[0]]) + Without(m[1..], x)
    ensures Position(m, x) == if m[0] == x then 0 else 1 + Position(m[1..], x)
  {
  }

  lemma {:induction false} WithoutIsRemoval(m: seq<nat>, x: nat)
    requires Distinct(m) && x in m
    ensures Without(m, x) == RemoveAt(m, Position(m, x))
  {
    hide Distinct, Without, Position;
    var rest := m[1..];
    HeadAndRest(m, x);
    if m[0] == x {
      WithoutAbsent(rest, x);
      assert RemoveAt(m, 0) == rest;
    } else {
      WithoutIsRemoval(rest, x);
      var j := Position(rest, x);
      assert RemoveAt(m, j + 1) == [m[0]] + RemoveAt(rest, j);
    }
  }

  lemma {:induction false} WithoutMembers(m: seq<nat>, x: nat, y: nat)
    ensures y in Without(m, x) <==> y in m && y != x
  {
    if m != [] {
      WithoutMembers(m[1..], x, y);
      assert m == [m[0]] + m[1..];
    }
  }

  lemma {:induction false} WithoutAbsent(m: seq<nat>, x: nat)
    requires x !in m
    ensures Without(m, x) == m
  {
    if m != [] {
      WithoutAbsent(m[1..], x);
    }
  }

  lemma {:induction false} WithoutDistinct(m: seq<nat>, x: nat)
    requires Distinct(m)
    ensures Distinct(Without(m, x))
  {
    if m != [] {
      WithoutDistinct(m[1..], x);
      WithoutMembers(m[1..], x, m[0]);
    }
  }

  lemma DropsOrKeeps<S>(rules: Policy<S>, p: Pass<S>, agents: seq<CapabilityAgent>, required: Mask, i: nat)
    requires InPool(agents, p.members) && i < |agents|
    ensures var m := SnapshotOne(rules, p, agents, required, i).members;
            m == p.members || m == Without(p.members, i)
  {
  }

  /** The sweep has asked the first `k` members of the snapshot: the rest are still in. */
  lemma {:induction false} UnaskedStay<S>(rules: Policy<S>, p0: Pass<S>, agents: seq<CapabilityAgent>, task: Task,
                                          k: nat)
    requires InPool(agents, p0.members) && Distinct(p0.members) && k <= |p0.members|
    ensures var m := SnapshotLeaves(rules, p0, agents, task, k).members;
            Distinct(m) &&
            (forall x :: x in m ==> x in p0.members) &&
            (forall i :: k <= i < |p0.members| ==> p0.members[i] in m)
  {
    hide Without, SnapshotOne;
    if k > 0 {
      UnaskedStay(rules, p0, agents, task, k - 1);
      var p, x := SnapshotLeaves(rules, p0, agents, task, k - 1), p0.members[k - 1];
      WithoutDistinct(p.members, x);
      forall y ensures y in Without(p.members, x) <==> y in p.members && y != x {
        WithoutMembers(p.members, x, y);
      }
      DropsOrKeeps(rules, p, agents, task.required, x);
    }
  }

  /** Asking the next of the snapshot is asking it as an arrival. */
  lemma SameQuestion<S>(rules: Policy<S>, p0: Pass<S>, agents: seq<CapabilityAgent>, task: Task, k: nat, b: nat)
    requires InPool(agents, task.arrival) && InPool(agents, p0.members)
    requires k < |task.arrival| && b < |p0.members| && p0.members[b] == task.arrival[k]
    requires Leaves(rules, p0, agents, task, k) == SnapshotLeaves(rules, p0, agents, task, b)
    requires var m := SnapshotLeaves(rules, p0, agents, task, b).members; Distinct(m) && p0.members[b] in m
    ensures Leaves(rules, p0, agents, task, k + 1) == SnapshotLeaves(rules, p0, agents, task, b + 1)
  {
    hide Leaves, Position, RemoveAt, Without, Distinct;
    LeavesStep(rules, p0, agents, task, k);
    WithoutIsRemoval(SnapshotLeaves(rules, p0, agents, task, b).members, task.arrival[k]);
  }

  /** On distinct arrivals the snapshot sweep asks the same agents in the same order as the
      sweep of the arrivals: after `k` arrivals it has asked those of them that joined. */
  lemma {:induction false} SweepsAgree<S>(rules: Policy<S>, s: S, agents: seq<CapabilityAgent>, task: Task, k: nat)
    requires InPool(agents, task.arrival) && Distinct(task.arrival) && k <= |task.arrival|
    ensures var p0 := Joins(rules, s, agents, task, |task.arrival|);
            var asked := |Joins(rules, s, agents, task, k).members|;
            asked <= |p0.members| &&
            Leaves(rules, p0, agents, task, k) == SnapshotLeaves(rules, p0, agents, task, asked)
  {
    hide Joins, Leaves, SnapshotLeaves, Distinct;
    var n := |task.arrival|;
    var p0 := Joins(rules, s, agents, task, n);
    if k == 0 {
      NobodyJoined(rules, s, agents, task);
      NothingSwept(rules, p0, agents, task);
      NothingAsked(rules, p0, agents, task);
    } else {
      SweepsAgree(rules, s, agents, task, k - 1);
      JoinsOrNot(rules, s, agents, task, k - 1);
      JoinedExtend(rules, s, agents, task, k, n);
      JoinedAreArrivals(rules, s, agents, task, n);
      var before, now := Joins(rules, s, agents, task, k - 1).members, Joins(rules, s, agents, task, k).members;
      UnaskedStay(rules, p0, agents, task, |before|);
      if |now| > |before| {
        assert p0.members[|before|] == now[|before|] == task.arrival[k - 1];
        SameQuestion(rules, p0, agents, task, k - 1, |before|);
      } else {
        NotAsked(rules, p0, agents, task, k - 1);
        NotJoinedStaysOut(rules, s, agents, task, k);
      }
    }
  }

  lemma NotAsked<S>(rules: Policy<S>, p0: Pass<S>, agents: seq<CapabilityAgent>, task: Task, k: nat)
    requires InPool(agents, task.arrival) && InPool(agents, p0.members) && k < |task.arrival|
    ensures task.arrival[k] !in Leaves(rules, p0, agents, task, k).members ==>
              Leaves(rules, p0, agents, task, k + 1) == Leaves(rules, p0, agents, task, k)
  {
    LeavesStep(rules, p0, agents, task, k);
  }

  lemma NothingAsked<S>(rules: Policy<S>, p0: Pass<S>, agents: seq<CapabilityAgent>, task: Task)
    requires InPool(agents, p0.members)
    ensures SnapshotLeaves(rules, p0, agents, task, 0) == p0
  {
  }

  lemma {:induction false} LaterAreLater<S>(rules: Policy<S>, s: S, agents: seq<CapabilityAgent>, task: Task, k: nat,
                                            n: nat)
    requires InPool(agents, task.arrival) && k <= n <= |task.arrival|
    ensures var a, b := Joins(rules, s, agents, task, k).members, Joins(rules, s, agents, task, n).members;
            forall x :: x in b ==> x in a || x in task.arrival[k..n]
  {
    hide Joins;
    if k < n {
      JoinsOrNot(rules, s, agents, task, n - 1);
      LaterAreLater(rules, s, agents, task, k, n - 1);
      assert task.arrival[k..n] == task.arrival[k..n - 1] + [task.arrival[n - 1]];
    }
  }

  /** An arrival that did not join when it was asked is not a member at the end. */
  lemma NotJoinedStaysOut<S>(rules: Policy<S>, s: S, agents: seq<CapabilityAgent>, task: Task, k: nat)
    requires InPool(agents, task.arrival) && Distinct(task.arrival) && 0 < k <= |task.arrival|
    requires |Joins(rules, s, agents, task, k).members| == |Joins(rules, s, agents, task, k - 1).members|
    ensures task.arrival[k - 1] !in Joins(rules, s, agents, task, |task.arrival|).members
  {
    var n, i := |task.arrival|, task.arrival[k - 1];
    JoinedAreArrivals(rules, s, agents, task, k - 1);
    LaterAreLater(rules, s, agents, task, k, n);
    JoinedExtend(rules, s, agents, task, k - 1, k);
    assert i !in task.arrival[..k - 1];
    assert i !in task.arrival[k..n];
  }

  lemma BatteryTaskIsWorkflowTask<S>(rules: Policy<S>, s: S, agents: seq<CapabilityAgent>, task: Task)
    requires InPool(agents, task.arrival) && Distinct(task.arrival)
    ensures TaskPass(BatteryDriver, rules, s, agents, task) ==
            TaskPass(WorkflowDriver, rules, s, agents, task.(steps := []))
  {
    hide Joins, Leaves, SnapshotLeaves;
    var begun := rules.begin(s, task.required, []);
    SweepsAgree(rules, begun, agents, task, |task.arrival|);
    SameSweep(rules, begun, agents, task, |task.arrival|);
  }

  /** The passes read the task's arrivals and mask only. */
  lemma {:induction false} SameJoins<S>(rules: Policy<S>, s: S, agents: seq<CapabilityAgent>, task: Task, k: nat)
    requires InPool(agents, task.arrival) && k <= |task.arrival|
    ensures Joins(rules, s, agents, task.(steps := []), k) == Joins(rules, s, agents, task, k)
  {
    if k > 1 {
      SameJoins(rules, s, agents, task, k - 1);
    }
  }

  lemma {:induction false} SameLeaves<S>(rules: Policy<S>, p0: Pass<S>, agents: seq<CapabilityAgent>, task: Task,
                                         k: nat)
    requires InPool(agents, task.arrival) && InPool(agents, p0.members) && k <= |task.arrival|
    ensures Leaves(rules, p0, agents, task.(steps := []), k) == Leaves(rules, p0, agents, task, k)
  {
    if k > 0 {
      SameLeaves(rules, p0, agents, task, k - 1);
    }
  }

  lemma SameSweep<S>(rules: Policy<S>, s: S, agents: seq<CapabilityAgent>, task: Task, n: nat)
    requires InPool(agents, task.arrival) && n == |task.arrival|
    ensures var p0 := Joins(rules, s, agents, task, n);
            Joins(rules, s, agents, task.(steps := []), n) == p0 &&
            Leaves(rules, p0, agents, task.(steps := []), n) == Leaves(rules, p0, agents, task, n)
  {
    SameJoins(rules, s, agents, task, n);
    SameLeaves(rules, Joins(rules, s, agents, task, n), agents, task, n);
  }

  lemma BatteryTaskRoundTrip<S>(rules: Policy<S>, s: S, agents: seq<CapabilityAgent>, task: Task,
                                trace: seq<TraceEntry>, pos: nat, t: nat)
    requires InPool(agents, task.arrival) && Distinct(task.arrival)
    requires Holds(trace, pos, TaskPass(BatteryDriver, rules, s, agents, task).entries)
    ensures var p := TaskPass(BatteryDriver, rules, s, agents, task);
            TaskDecoded(trace, task.arrival, pos, t) == Decoding(p.members, p.churn, pos + |p.entries|)
  {
    hide TaskPass, TaskDecoded;
    BatteryTaskIsWorkflowTask(rules, s, agents, task);
    TaskRoundTrip(rules, s, agents, task.(steps := []), trace, pos, t);
  }

  /** The battery's round trip, for every policy and every instance whose arrivals name each
      agent at most once, although it sweeps a snapshot and the decoder the arrivals. */
  lemma BatteryRoundTrip<S>(rules: Policy<S>, s: S, inst: ValidInstance, sig: Signals)
    requires DistinctArrivals(inst)
    ensures var run := RunTasks(BatteryDriver, rules, s, inst, sig, |inst.tasks|);
            EndsDecoded(run.entries, inst, |inst.tasks|) == Ends(run.ends, |run.entries|) &&
            Reconstructed(inst, run.entries) == Decoded(ReconOf(inst, run.ends))
  {
    hide RunTasks, EndsDecoded, ReconOf;
    var run := RunTasks(BatteryDriver, rules, s, inst, sig, |inst.tasks|);
    RunRoundTrip(BatteryDriver, rules, s, inst, sig, run.entries, |inst.tasks|);
  }

  // ----- Exactly the distinct arrivals -----

  /** Everyone joins; of the leave questions of a task only number `i` is answered by acting. */
  function LeaveNth(i: nat): Policy<nat> {
    Policy((s, required, steps) => 0,
           (s, agent, coalition, required) => (s, Decision(true, 0.0)),
           (s, agent, coalition, required) => (s + 1, Decision(s == i, 0.0)),
           (s, required, perBit, members) => s)
  }

  function LeaveEntries(i: nat, k: nat): seq<TraceEntry> {
    seq(k, j => TraceEntry(true, j == i, 0.0))
  }

  lemma {:induction false} AllJoin(i: nat, agents: seq<CapabilityAgent>, task: Task, k: nat)
    requires InPool(agents, task.arrival) && k <= |task.arrival|
    ensures var p := Joins(LeaveNth(i), 0, agents, task, k);
            p.members == task.arrival[..k] && p.state == 0
  {
    if k > 1 {
      AllJoin(i, agents, task, k - 1);
      assert task.arrival[..k] == task.arrival[..k - 1] + [task.arrival[k - 1]];
    }
  }

  /** The snapshot sweep asks everyone and drops every copy of number `i`. */
  lemma {:induction false} SnapshotDropsAll(i: nat, p0: Pass<nat>, agents: seq<CapabilityAgent>, task: Task, k: nat)
    requires InPool(agents, task.arrival) && k <= |task.arrival| && i < |task.arrival|
    requires p0.members == task.arrival && p0.state == 0
    ensures var p := SnapshotLeaves(LeaveNth(i), p0, agents, task, k);
            p.state == k && p.entries == p0.entries + LeaveEntries(i, k) &&
            p.members == if k <= i then task.arrival else Without(task.arrival, task.arrival[i])
  {
    hide Without, SnapshotOne;
    if k > 0 {
      SnapshotDropsAll(i, p0, agents, task, k - 1);
      NthDropped(i, SnapshotLeaves(LeaveNth(i), p0, agents, task, k - 1), agents, task.required, task.arrival[k - 1]);
      assert LeaveEntries(i, k) == LeaveEntries(i, k - 1) + [TraceEntry(true, k - 1 == i, 0.0)];
    }
  }

  lemma NthDropped(i: nat, p: Pass<nat>, agents: seq<CapabilityAgent>, required: Mask, x: nat)
    requires InPool(agents, p.members) && x < |agents|
    ensures var r := SnapshotOne(LeaveNth(i), p, agents, required, x);
            r.state == p.state + 1 && r.entries == p.entries + [TraceEntry(true, p.state == i, 0.0)] &&
            r.members == if p.state == i then Without(p.members, x) else p.members
  {
    hide Without;
  }

  /** The arrival sweep asks everyone too, and drops one copy. */
  lemma {:induction false} ArrivalsDropOne(i: nat, p0: Pass<nat>, agents: seq<CapabilityAgent>, task: Task, k: nat)
    requires InPool(agents, task.arrival) && k <= |task.arrival| && i < |task.arrival|
    requires Position(task.arrival, task.arrival[i]) == i
    requires p0.members == task.arrival && p0.state == 0
    ensures var p := Leaves(LeaveNth(i), p0, agents, task, k);
            p.state == k && p.entries == p0.entries + LeaveEntries(i, k) &&
            p.members == if k <= i then task.arrival else RemoveAt(task.arrival, i)
  {
    hide Leaves, LeaveOne, Position, RemoveAt;
    if k == 0 {
      NothingSwept(LeaveNth(i), p0, agents, task);
    } else {
      ArrivalsDropOne(i, p0, agents, task, k - 1);
      LeavesStep(LeaveNth(i), p0, agents, task, k - 1);
      assert LeaveEntries(i, k) == LeaveEntries(i, k - 1) + [TraceEntry(true, k - 1 == i, 0.0)];
      if k - 1 > i {
        StillThere(task.arrival, i, k - 1);
      }
      NthAsked(i, Leaves(LeaveNth(i), p0, agents, task, k - 1), agents, task.required, task.arrival[k - 1]);
    }
  }

  lemma NthAsked(i: nat, p: Pass<nat>, agents: seq<CapabilityAgent>, required: Mask, x: nat)
    requires InPool(agents, p.members) && x < |agents| && x in p.members
    ensures var r := LeaveOne(LeaveNth(i), p, agents, required, x);
            r.state == p.state + 1 && r.entries == p.entries + [TraceEntry(true, p.state == i, 0.0)] &&
            r.members == if p.state == i then RemoveAt(p.members, Position(p.members, x)) else p.members
  {
  }

  /** On this task the decoder recovers the battery's members and removals for every policy. */
  ghost predicate BatteryRecovers(agents: seq<CapabilityAgent>, task: Task)
    requires InPool(agents, task.arrival)
  {
    forall rules: Policy<nat>, s: nat ::
      var p := TaskPass(BatteryDriver, rules, s, agents, task);
      TaskDecoded(p.entries, task.arrival, 0, 0) == Decoding(p.members, p.churn, |p.entries|)
  }

  lemma RepeatedArrivalLost(agents: seq<CapabilityAgent>, task: Task, i: nat, j: nat)
    requires InPool(agents, task.arrival) && i < j < |task.arrival| && task.arrival[i] == task.arrival[j]
    ensures !BatteryRecovers(agents, task)
  {
    hide Joins, Leaves, SnapshotLeaves, TaskDecoded, Without, RemoveAt;
    var x, n := task.arrival[i], |task.arrival|;
    var first := Position(task.arrival, x);
    PositionAtMost(task.arrival, i);
    var rules := LeaveNth(first);
    var p0 := Joins(rules, 0, agents, task, n);
    AllJoin(first, agents, task, n);
    assert task.arrival[..n] == task.arrival;
    SnapshotDropsAll(first, p0, agents, task, n);
    ArrivalsDropOne(first, p0, agents, task, n);
    var battery := TaskPass(BatteryDriver, rules, 0, agents, task);
    var workflow := TaskPass(WorkflowDriver, rules, 0, agents, task);
    assert workflow.entries == battery.entries;
    TaskRoundTrip(rules, 0, agents, task, battery.entries, 0, 0);
    StillThere(task.arrival, first, j);
    WithoutMembers(task.arrival, x, x);
    assert x in workflow.members && x !in battery.members;
  }

  lemma {:induction false} PositionAtMost(s: seq<nat>, i: nat)
    requires i < |s|
    ensures Position(s, s[i]) <= i
  {
    if i > 0 && s[0] != s[i] {
      PositionAtMost(s[1..], i - 1);
    }
  }

  lemma StillThere(s: seq<nat>, i: nat, j: nat)
    requires i < j < |s|
    ensures s[j] in RemoveAt(s, i)
  {
    assert RemoveAt(s, i)[j - 1] == s[j];
  }

  /** The battery's round trip holds for every policy exactly on tasks whose arrivals name
      each agent at most once. */
  lemma BatteryRecoversExactlyDistinct(agents: seq<CapabilityAgent>, task: Task)
    requires InPool(agents, task.arrival)
    ensures BatteryRecovers(agents, task) <==> Distinct(task.arrival)
  {
    if Distinct(task.arrival) {
      forall rules: Policy<nat>, s: nat
        ensures var p := TaskPass(BatteryDriver, rules, s, agents, task);
                TaskDecoded(p.entries, task.arrival, 0, 0) == Decoding(p.members, p.churn, |p.entries|)
      {
        var p := TaskPass(BatteryDriver, rules, s, agents, task);
        BatteryTaskRoundTrip(rules, s, agents, task, p.entries, 0, 0);
      }
    } else {
      var i, j :| 0 <= i < j < |task.arrival| && task.arrival[i] == task.arrival[j];
      RepeatedArrivalLost(agents, task, i, j);
    }
  }

  // ----- Exactly the recordable traces -----

  /** Answers each question with the next entry of `trace`. */
  function Replaying(trace: seq<TraceEntry>): Policy<nat> {
    Policy((s, required, steps) => s,
           (s, agent, coalition, required) => (s + 1, Answer(trace, s)),
           (s, agent, coalition, required) => (s + 1, Answer(trace, s)),
           (s, required, perBit, members) => s)
  }

  function Answer(trace: seq<TraceEntry>, pos: nat): Decision {
    if pos < |trace| then Decision(trace[pos].act, trace[pos].score) else Decision(false, 0.0)
  }

  lemma {:induction false} JoinsReplayed(trace: seq<TraceEntry>, agents: seq<CapabilityAgent>, task: Task, pos: nat,
                                         t: nat, k: nat)
    requires InPool(agents, task.arrival) && k <= |task.arrival| && pos <= |trace|
    requires JoinsDecoded(trace, task.arrival, pos, t, k).Decoding?
    ensures var d := JoinsDecoded(trace, task.arrival, pos, t, k);
            pos <= d.pos <= |trace| &&
            Joins(Replaying(trace), pos, agents, task, k) == Pass(d.pos, d.members, trace[pos..d.pos], d.churn)
  {
    hide Joins, JoinOne;
    if k > 0 {
      JoinsStep(Replaying(trace), pos, agents, task, k - 1);
    }
    if k > 1 {
      JoinsReplayed(trace, agents, task, pos, t, k - 1);
      var p := Joins(Replaying(trace), pos, agents, task, k - 1);
      JoinReplayed(trace, p, agents, task.required, task.arrival[k - 1]);
      assert trace[pos..p.state + 1] == trace[pos..p.state] + [trace[p.state]];
    } else {
      NobodyJoined(Replaying(trace), pos, agents, task);
      assert trace[pos..pos] == [];
    }
  }

  /** A join question answered from the trace. */
  lemma JoinReplayed(trace: seq<TraceEntry>, p: Pass<nat>, agents: seq<CapabilityAgent>, required: Mask, i: nat)
    requires InPool(agents, p.members) && i < |agents| && p.state < |trace| && !trace[p.state].leave
    ensures var e := trace[p.state];
            JoinOne(Replaying(trace), p, agents, required, i) ==
            Pass(p.state + 1, if e.act then p.members + [i] else p.members, p.entries + [e], p.churn)
  {
  }

  lemma {:induction false} LeavesReplayed(trace: seq<TraceEntry>, p0: Pass<nat>, agents: seq<CapabilityAgent>,
                                          task: Task, pos: nat, t: nat, k: nat)
    requires InPool(agents, task.arrival) && InPool(agents, p0.members) && k <= |task.arrival|
    requires pos <= p0.state <= |trace| && p0.entries == trace[pos..p0.state]
    requires LeavesDecoded(trace, task.arrival, Decoding(p0.members, p0.churn, p0.state), t, k).Decoding?
    ensures var d := LeavesDecoded(trace, task.arrival, Decoding(p0.members, p0.churn, p0.state), t, k);
            pos <= d.pos <= |trace| &&
            Leaves(Replaying(trace), p0, agents, task, k) == Pass(d.pos, d.members, trace[pos..d.pos], d.churn)
  {
    hide Leaves, LeaveOne, Position, RemoveAt;
    if k == 0 {
      NothingSwept(Replaying(trace), p0, agents, task);
    } else {
      LeavesReplayed(trace, p0, agents, task, pos, t, k - 1);
      LeavesStep(Replaying(trace), p0, agents, task, k - 1);
      var p := Leaves(Replaying(trace), p0, agents, task, k - 1);
      LeaveReplayed(trace, p, agents, task.required, task.arrival[k - 1]);
      if task.arrival[k - 1] in p.members {
        assert trace[pos..p.state + 1] == trace[pos..p.state] + [trace[p.state]];
      }
    }
  }

  /** A sweep question answered from the trace. */
  lemma LeaveReplayed(trace: seq<TraceEntry>, p: Pass<nat>, agents: seq<CapabilityAgent>, required: Mask, i: nat)
    requires InPool(agents, p.members) && i < |agents|
    ensures var r := LeaveOne(Replaying(trace), p, agents, required, i);
            if i !in p.members then r == p
            else if p.state < |trace| && trace[p.state].leave then
              var e := trace[p.state];
              r == Pass(p.state + 1,
                        if e.act then RemoveAt(p.members, Position(p.members, i)) else p.members,
                        p.entries + [e],
                        if e.act then p.churn + 1 else p.churn)
            else true
  {
    hide Position, RemoveAt, Views;
  }

  lemma TaskReplayed(trace: seq<TraceEntry>, agents: seq<CapabilityAgent>, task: Task, pos: nat, t: nat)
    requires InPool(agents, task.arrival) && pos <= |trace|
    requires TaskDecoded(trace, task.arrival, pos, t).Decoding?
    ensures var d := TaskDecoded(trace, task.arrival, pos, t);
            pos <= d.pos <= |trace| &&
            TaskPass(WorkflowDriver, Replaying(trace), pos, agents, task) ==
            Pass(d.pos, d.members, trace[pos..d.pos], d.churn)
  {
    hide Joins, Leaves, JoinsDecoded, LeavesDecoded;
    var n := |task.arrival|;
    var d := JoinsDecoded(trace, task.arrival, pos, t, n);
    if d.Broken? {
      NothingDecoded(trace, task.arrival, d, t);
      LeavesStayBroken(trace, task.arrival, d, t, 0, n);
    } else {
      JoinsReplayed(trace, agents, task, pos, t, n);
      LeavesReplayed(trace, Joins(Replaying(trace), pos, agents, task, n), agents, task, pos, t, n);
    }
  }

  lemma NothingDecoded(trace: seq<TraceEntry>, arrival: seq<nat>, d: Decoding, t: nat)
    ensures LeavesDecoded(trace, arrival, d, t, 0) == d
  {
  }

  lemma {:induction false} RunReplayed(trace: seq<TraceEntry>, inst: ValidInstance, sig: Signals, k: nat)
    requires k <= |inst.tasks| && EndsDecoded(trace, inst, k).Ends?
    ensures var e := EndsDecoded(trace, inst, k);
            e.pos <= |trace| &&
            RunTasks(WorkflowDriver, Replaying(trace), 0, inst, sig, k) == Run(e.pos, trace[..e.pos], e.ends)
  {
    hide TaskPass, TaskDecoded;
    if k > 0 {
      RunReplayed(trace, inst, sig, k - 1);
      RunStep(WorkflowDriver, Replaying(trace), 0, inst, sig, k - 1);
      var pos := EndsDecoded(trace, inst, k - 1).pos;
      TaskReplayed(trace, inst.agents, inst.tasks[k - 1], pos, k - 1);
      var at := TaskDecoded(trace, inst.tasks[k - 1].arrival, pos, k - 1).pos;
      assert trace[..pos] + trace[pos..at] == trace[..at];
    }
  }

  /** The decoder accepts exactly what the workflow driver can record: a trace is accepted if
      and only if some policy, the one answering from the trace itself, records it. */
  lemma AcceptedExactlyIfRecorded(trace: seq<TraceEntry>, inst: ValidInstance, sig: Signals)
    ensures Reconstructed(inst, trace).Decoded? <==>
            RunTasks(WorkflowDriver, Replaying(trace), 0, inst, sig, |inst.tasks|).entries == trace
    ensures Reconstructed(inst, trace).Decoded? <==>
            exists rules: Policy<nat>, s: nat ::
              RunTasks(WorkflowDriver, rules, s, inst, sig, |inst.tasks|).entries == trace
  {
    hide RunTasks, EndsDecoded, ReconOf;
    if Reconstructed(inst, trace).Decoded? {
      RunReplayed(trace, inst, sig, |inst.tasks|);
      assert trace[..|trace|] == trace;
    }
    forall rules: Policy<nat>, s: nat |
      RunTasks(WorkflowDriver, rules, s, inst, sig, |inst.tasks|).entries == trace
      ensures Reconstructed(inst, trace).Decoded?
    {
      RoundTrip(rules, s, inst, sig);
    }
  }


  // ----- What a refusal names -----

  /** `entries`, asked from position `pos` of the trace on, first part from it at `at`, and `e` is
      what the decoder says of that: the trace is over, or its entry there is of the other kind. */
  ghost predicate PartsAt(trace: seq<TraceEntry>, pos: nat, entries: seq<TraceEntry>, t: nat, e: DecodeError,
                          at: nat) {
    pos <= at <= |trace| && at - pos < |entries| && trace[pos..at] == entries[..at - pos] &&
    if at == |trace| then e == TraceEnds(t)
    else trace[at].leave != entries[at - pos].leave && e == WrongKind(t, entries[at - pos].leave)
  }

  lemma PartsStay(trace: seq<TraceEntry>, pos: nat, entries: seq<TraceEntry>, t: nat, e: DecodeError, at: nat,
                  longer: seq<TraceEntry>)
    requires PartsAt(trace, pos, entries, t, e, at) && entries <= longer
    ensures PartsAt(trace, pos, longer, t, e, at)
  {
    assert entries[..at - pos] == longer[..at - pos];
  }

  lemma {:induction false} JoinsPart(trace: seq<TraceEntry>, agents: seq<CapabilityAgent>, task: Task, pos: nat, t: nat,
                                     k: nat) returns (at: nat)
    requires InPool(agents, task.arrival) && k <= |task.arrival| && pos <= |trace|
    requires JoinsDecoded(trace, task.arrival, pos, t, k).Broken?
    ensures PartsAt(trace, pos, Joins(Replaying(trace), pos, agents, task, k).entries, t,
                    JoinsDecoded(trace, task.arrival, pos, t, k).error, at)
  {
    hide Joins, JoinOne, PartsAt;
    JoinsStep(Replaying(trace), pos, agents, task, k - 1);
    var p, r := Joins(Replaying(trace), pos, agents, task, k - 1), Joins(Replaying(trace), pos, agents, task, k);
    JoinRecords(Replaying(trace), p, agents, task.required, task.arrival[k - 1]);
    var before := JoinsDecoded(trace, task.arrival, pos, t, k - 1);
    if before.Broken? {
      at := JoinsPart(trace, agents, task, pos, t, k - 1);
      PartsStay(trace, pos, p.entries, t, before.error, at, r.entries);
    } else {
      JoinsReplayed(trace, agents, task, pos, t, k - 1);
      at := before.pos;
      NextParts(trace, pos, r.entries, t, at);
    }
  }

  /** The question at which the decoder stops is where the entries part from the trace. */
  lemma NextParts(trace: seq<TraceEntry>, pos: nat, entries: seq<TraceEntry>, t: nat, at: nat)
    requires pos <= at <= |trace| && at - pos < |entries| && trace[pos..at] <= entries
    requires Next(trace, at, t, entries[at - pos].leave).Bad?
    ensures PartsAt(trace, pos, entries, t, Next(trace, at, t, entries[at - pos].leave).error, at)
  {
  }

  lemma {:induction false} LeavesPart(trace: seq<TraceEntry>, p0: Pass<nat>, agents: seq<CapabilityAgent>, task: Task,
                                      pos: nat, t: nat, k: nat) returns (at: nat)
    requires InPool(agents, task.arrival) && InPool(agents, p0.members) && k <= |task.arrival|
    requires pos <= p0.state <= |trace| && p0.entries == trace[pos..p0.state]
    requires LeavesDecoded(trace, task.arrival, Decoding(p0.members, p0.churn, p0.state), t, k).Broken?
    ensures PartsAt(trace, pos, Leaves(Replaying(trace), p0, agents, task, k).entries, t,
                    LeavesDecoded(trace, task.arrival, Decoding(p0.members, p0.churn, p0.state), t, k).error, at)
  {
    hide Leaves, LeaveOne, PartsAt, Position, RemoveAt;
    LeavesStep(Replaying(trace), p0, agents, task, k - 1);
    var p, r := Leaves(Replaying(trace), p0, agents, task, k - 1), Leaves(Replaying(trace), p0, agents, task, k);
    LeaveRecords(Replaying(trace), p, agents, task.required, task.arrival[k - 1]);
    var before := LeavesDecoded(trace, task.arrival, Decoding(p0.members, p0.churn, p0.state), t, k - 1);
    if before.Broken? {
      at := LeavesPart(trace, p0, agents, task, pos, t, k - 1);
      PartsStay(trace, pos, p.entries, t, before.error, at, r.entries);
    } else {
      LeavesReplayed(trace, p0, agents, task, pos, t, k - 1);
      at := before.pos;
      NextParts(trace, pos, r.entries, t, at);
    }
  }

  lemma TaskParts(trace: seq<TraceEntry>, agents: seq<CapabilityAgent>, task: Task, pos: nat, t: nat)
    returns (at: nat)
    requires InPool(agents, task.arrival) && pos <= |trace|
    requires TaskDecoded(trace, task.arrival, pos, t).Broken?
    ensures PartsAt(trace, pos, TaskPass(WorkflowDriver, Replaying(trace), pos, agents, task).entries, t,
                    TaskDecoded(trace, task.arrival, pos, t).error, at)
  {
    hide Joins, Leaves, JoinsDecoded, LeavesDecoded, PartsAt;
    var n := |task.arrival|;
    var d, p0 := JoinsDecoded(trace, task.arrival, pos, t, n), Joins(Replaying(trace), pos, agents, task, n);
    if d.Broken? {
      NothingDecoded(trace, task.arrival, d, t);
      LeavesStayBroken(trace, task.arrival, d, t, 0, n);
      at := JoinsPart(trace, agents, task, pos, t, n);
      LeavesExtend(Replaying(trace), p0, agents, task, n);
      PartsStay(trace, pos, p0.entries, t, d.error, at, Leaves(Replaying(trace), p0, agents, task, n).entries);
    } else {
      JoinsReplayed(trace, agents, task, pos, t, n);
      at := LeavesPart(trace, p0, agents, task, pos, t, n);
    }
  }

  /** Entry `at` of the run is one of task `t`. */
  ghost predicate AskedIn(trace: seq<TraceEntry>, inst: ValidInstance, sig: Signals, at: nat, t: nat) {
    t < |inst.tasks| &&
    |RunTasks(WorkflowDriver, Replaying(trace), 0, inst, sig, t).entries| <= at <
    |RunTasks(WorkflowDriver, Replaying(trace), 0, inst, sig, t + 1).entries|
  }

  lemma {:induction false} RunExtends<S>(rules: Policy<S>, s: S, inst: ValidInstance, sig: Signals, j: nat, k: nat)
    requires j <= k <= |inst.tasks|
    ensures RunTasks(WorkflowDriver, rules, s, inst, sig, j).entries <=
            RunTasks(WorkflowDriver, rules, s, inst, sig, k).entries
  {
    hide TaskPass, RunTasks;
    if j < k {
      RunExtends(rules, s, inst, sig, j, k - 1);
      RunStep(WorkflowDriver, rules, s, inst, sig, k - 1);
    }
  }

  lemma {:induction false} RunParts(trace: seq<TraceEntry>, inst: ValidInstance, sig: Signals, k: nat)
    returns (at: nat, t: nat)
    requires k <= |inst.tasks| && EndsDecoded(trace, inst, k).NoEnds?
    ensures AskedIn(trace, inst, sig, at, t)
    ensures PartsAt(trace, 0, RunTasks(WorkflowDriver, Replaying(trace), 0, inst, sig, k).entries, t,
                    EndsDecoded(trace, inst, k).error, at)
  {
    hide TaskPass, TaskDecoded, RunTasks, PartsAt;
    RunStep(WorkflowDriver, Replaying(trace), 0, inst, sig, k - 1);
    var before := EndsDecoded(trace, inst, k - 1);
    var prior, run := RunTasks(WorkflowDriver, Replaying(trace), 0, inst, sig, k - 1),
                      RunTasks(WorkflowDriver, Replaying(trace), 0, inst, sig, k);
    if before.NoEnds? {
      at, t := RunParts(trace, inst, sig, k - 1);
      PartsStay(trace, 0, prior.entries, t, before.error, at, run.entries);
    } else {
      RunReplayed(trace, inst, sig, k - 1);
      t := k - 1;
      at := TaskParts(trace, inst.agents, inst.tasks[t], before.pos, t);
      var p := TaskPass(WorkflowDriver, Replaying(trace), before.pos, inst.agents, inst.tasks[t]);
      PartsAfter(trace, before.pos, p.entries, t, EndsDecoded(trace, inst, k).error, at);
    }
  }

  lemma PartsAfter(trace: seq<TraceEntry>, pos: nat, entries: seq<TraceEntry>, t: nat, e: DecodeError, at: nat)
    requires PartsAt(trace, pos, entries, t, e, at)
    ensures PartsAt(trace, 0, trace[..pos] + entries, t, e, at)
    ensures pos <= at < pos + |entries|
  {
    assert trace[0..at] == trace[..pos] + trace[pos..at];
    assert (trace[..pos] + entries)[..at] == trace[..pos] + entries[..at - pos];
  }

  /** What the decoder makes of any trace, told by the questions of the run that answers from it
      and their kinds alone: it accepts when kinds and lengths agree, with the ends of that run. If
      a question finds the trace over, or an entry of the other kind, the first that does decides:
      the error names its task, and the kind asked for. If all questions are answered and entries
      remain, the error counts them. */
  lemma RefusalNamesTheQuestion(trace: seq<TraceEntry>, inst: ValidInstance, sig: Signals) returns (at: nat, t: nat)
    ensures var run := RunTasks(WorkflowDriver, Replaying(trace), 0, inst, sig, |inst.tasks|);
            at <= |trace| && at <= |run.entries| && run.entries[..at] == trace[..at] &&
            (at < |run.entries| ==> AskedIn(trace, inst, sig, at, t)) &&
            (at < |run.entries| && at < |trace| ==> trace[at].leave != run.entries[at].leave) &&
            Reconstructed(inst, trace) ==
            if at < |run.entries| then
              Refused(if at == |trace| then TraceEnds(t) else WrongKind(t, run.entries[at].leave))
            else if at < |trace| then Refused(EntriesLeft(|trace| - at))
            else Decoded(ReconOf(inst, run.ends))
  {
    hide RunTasks, EndsDecoded, ReconOf;
    var n := |inst.tasks|;
    t := 0;
    if EndsDecoded(trace, inst, n).NoEnds? {
      at, t := RunParts(trace, inst, sig, n);
    } else {
      RunReplayed(trace, inst, sig, n);
      at := EndsDecoded(trace, inst, n).pos;
    }
  }
}
