/** Membership policies, the decision trace, and the two drivers that put a policy through
    an instance's tasks: the workflow driver and the flat battery. */
module Workflow {
  import opened Agents

  /** A demanded step: some member of `role` must hold capability bit `bit`. */
  datatype Step = Step(bit: nat, role: nat)

  datatype Decision = Decision(act: bool, score: real)

  datatype MemberOutcome = MemberOutcome(agentId: nat, performed: bool)

  /** A stateful policy, as one function of its state per hook. */
  datatype Policy<!S> = Policy(
    begin: (S, Mask, seq<Step>) -> S,
    join: (S, CapabilityAgent, seq<CapabilityAgent>, Mask) -> (S, Decision),
    leave: (S, CapabilityAgent, seq<CapabilityAgent>, Mask) -> (S, Decision),
    observe: (S, Mask, seq<bool>, seq<MemberOutcome>) -> S)

  datatype TraceEntry = TraceEntry(leave: bool, act: bool, score: real)

  /** Forwards every hook to the wrapped policy and records each decision. */
  class TracedPolicy<S> {
    const rules: Policy<S>
    var state: S
    var entries: seq<TraceEntry>

    constructor (rules: Policy<S>, state: S)
      ensures this.rules == rules && this.state == state && entries == []
    {
      this.rules, this.state, entries := rules, state, [];
    }

    method Record(leave: bool, decision: Decision) returns (d: Decision)
      modifies this`entries
      ensures d == decision
      ensures entries == old(entries) + [TraceEntry(leave, decision.act, decision.score)]
    {
      entries := entries + [TraceEntry(leave, decision.act, decision.score)];
      d := decision;
    }

    method ShouldJoin(agent: CapabilityAgent, coalition: seq<CapabilityAgent>, required: Mask)
      returns (d: Decision)
      modifies this
      ensures (state, d) == rules.join(old(state), agent, coalition, required)
      ensures entries == old(entries) + [TraceEntry(false, d.act, d.score)]
    {
      var (after, inner) := rules.join(state, agent, coalition, required);
      state := after;
      d := Record(false, inner);
    }

    method ShouldLeave(agent: CapabilityAgent, coalition: seq<CapabilityAgent>, required: Mask)
      returns (d: Decision)
      modifies this
      ensures (state, d) == rules.leave(old(state), agent, coalition, required)
      ensures entries == old(entries) + [TraceEntry(true, d.act, d.score)]
    {
      var (after, inner) := rules.leave(state, agent, coalition, required);
      state := after;
      d := Record(true, inner);
    }

    method BeginTask(required: Mask, steps: seq<Step>)
      modifies this`state
      ensures state == rules.begin(old(state), required, steps)
    {
      state := rules.begin(state, required, steps);
    }

    method ObserveOutcome(required: Mask, perBit: seq<bool>, members: seq<MemberOutcome>)
      modifies this`state
      ensures state == rules.observe(old(state), required, perBit, members)
    {
      state := rules.observe(state, required, perBit, members);
    }
  }

  // ----- Instances -----

  /** One task: the distinct demanded steps, the context mask, and the arrival order. */
  datatype Task = Task(required: Mask, steps: seq<Step>, arrival: seq<nat>)

  datatype Instance = Instance(agents: seq<CapabilityAgent>, roles: seq<nat>, tasks: seq<Task>)

  /** Indices into the pool. */
  predicate InPool(agents: seq<CapabilityAgent>, members: seq<nat>) {
    forall k :: 0 <= k < |members| ==> members[k] < |agents|
  }

  predicate ValidTasks(inst: Instance) {
    forall k :: 0 <= k < |inst.tasks| ==> InPool(inst.agents, inst.tasks[k].arrival)
  }

  type ValidInstance = inst: Instance | ValidTasks(inst)
    witness Instance([], [], [])

  /** What the outcome hook is told: the per-bit signal of task `t` for its final members,
      and whether an agent performed on it. */
  datatype Signals = Signals(perBit: (nat, seq<nat>) -> seq<bool>, performed: (nat, nat) -> bool)

  function Views(agents: seq<CapabilityAgent>, members: seq<nat>): (v: seq<CapabilityAgent>)
    requires InPool(agents, members)
    ensures |v| == |members| && forall i :: 0 <= i < |v| ==> v[i] == agents[members[i]]
  {
    seq(|members|, i requires 0 <= i < |members| => agents[members[i]])
  }

  function MemberOutcomes(agents: seq<CapabilityAgent>, members: seq<nat>, sig: Signals, t: nat): seq<MemberOutcome>
    requires InPool(agents, members)
  {
    seq(|members|, i requires 0 <= i < |members| =>
      MemberOutcome(agents[members[i]].id, sig.performed(t, members[i])))
  }

  // ----- One task, as a function -----

  /** A pass in progress: the policy's state, the membership, the decisions so far and the
      removals so far. */
  datatype Pass<S> = Pass(state: S, members: seq<nat>, entries: seq<TraceEntry>, churn: nat)

  /** A decision recorded, with what it did to the membership. */
  function Recorded<S>(p: Pass<S>, leave: bool, answer: (S, Decision), members: seq<nat>, removed: nat): Pass<S> {
    Pass(answer.0, members, p.entries + [TraceEntry(leave, answer.1.act, answer.1.score)], p.churn + removed)
  }

  /** A candidate is asked, shown the coalition without it, and joins if the policy acts. */
  function JoinOne<S>(rules: Policy<S>, p: Pass<S>, agents: seq<CapabilityAgent>, required: Mask, i: nat): (r: Pass<S>)
    requires InPool(agents, p.members) && i < |agents|
    ensures InPool(agents, r.members) && r.churn == p.churn
  {
    var answer := rules.join(p.state, agents[i], Views(agents, p.members), required);
    Recorded(p, false, answer, if answer.1.act then p.members + [i] else p.members, 0)
  }

  /** The first arrival joins; each later one of the first `k` joins if the policy acts. */
  function Joins<S>(rules: Policy<S>, s: S, agents: seq<CapabilityAgent>, task: Task, k: nat): (p: Pass<S>)
    requires InPool(agents, task.arrival) && k <= |task.arrival|
    ensures InPool(agents, p.members) && p.churn == 0
  {
    if k == 0 then Pass(s, [], [], 0)
    else if k == 1 then Pass(s, [task.arrival[0]], [], 0)
    else JoinOne(rules, Joins(rules, s, agents, task, k - 1), agents, task.required, task.arrival[k - 1])
  }

  /** The first index of `x` in `s`, or its length. */
  function Position(s: seq<nat>, x: nat): (j: nat)
    ensures j <= |s|
    ensures j < |s| <==> x in s
    ensures j < |s| ==> s[j] == x
    ensures x !in s[..j]
  {
    if s == [] || s[0] == x then 0
    else
      var j := 1 + Position(s[1..], x);
      assert s[..j] == [s[0]] + s[1..][..j - 1];
      j
  }

  function RemoveAt(s: seq<nat>, j: nat): seq<nat>
    requires j < |s|
  {
    s[..j] + s[j + 1..]
  }

  /** A member is asked, shown the coalition with it, and its first occurrence is removed if
      the policy acts; an agent that is no member is passed over. */
  function LeaveOne<S>(rules: Policy<S>, p: Pass<S>, agents: seq<CapabilityAgent>, required: Mask, i: nat): (r: Pass<S>)
    requires InPool(agents, p.members) && i < |agents|
    ensures InPool(agents, r.members)
  {
    if i !in p.members then p
    else
      var answer := rules.leave(p.state, agents[i], Views(agents, p.members), required);
      if answer.1.act then Recorded(p, true, answer, RemoveAt(p.members, Position(p.members, i)), 1)
      else Recorded(p, true, answer, p.members, 0)
  }

  /** The workflow driver's sweep over the first `k` arrivals. */
  function Leaves<S>(rules: Policy<S>, p0: Pass<S>, agents: seq<CapabilityAgent>, task: Task, k: nat): (p: Pass<S>)
    requires InPool(agents, task.arrival) && k <= |task.arrival|
    requires InPool(agents, p0.members)
    ensures InPool(agents, p.members)
  {
    if k == 0 then p0
    else LeaveOne(rules, Leaves(rules, p0, agents, task, k - 1), agents, task.required, task.arrival[k - 1])
  }

  function Without(s: seq<nat>, x: nat): (r: seq<nat>)
    ensures forall k :: 0 <= k < |r| ==> r[k] in s
  {
    if s == [] then []
    else (if s[0] == x then [] else [s[0]]) + Without(s[1..], x)
  }

  /** An agent of a snapshot is asked, member or not, and every occurrence of it removed if
      the policy acts. */
  function SnapshotOne<S>(rules: Policy<S>, p: Pass<S>, agents: seq<CapabilityAgent>, required: Mask,
                          i: nat): (r: Pass<S>)
    requires InPool(agents, p.members) && i < |agents|
    ensures InPool(agents, r.members)
  {
    var answer := rules.leave(p.state, agents[i], Views(agents, p.members), required);
    if answer.1.act then Recorded(p, true, answer, Without(p.members, i), 1)
    else Recorded(p, true, answer, p.members, 0)
  }

  /** The battery's sweep over the first `k` members of a snapshot. */
  function SnapshotLeaves<S>(rules: Policy<S>, p0: Pass<S>, agents: seq<CapabilityAgent>, task: Task,
                             k: nat): (p: Pass<S>)
    requires InPool(agents, p0.members) && k <= |p0.members|
    ensures InPool(agents, p.members)
  {
    if k == 0 then p0
    else SnapshotOne(rules, SnapshotLeaves(rules, p0, agents, task, k - 1), agents, task.required, p0.members[k - 1])
  }

  /** Which driver: the workflow one shows the policy the demanded steps and sweeps the
      arrival order; the battery shows no steps and sweeps a snapshot of the members. */
  datatype Driver = WorkflowDriver | BatteryDriver

  function ShownSteps(driver: Driver, task: Task): seq<Step> {
    if driver == WorkflowDriver then task.steps else []
  }

  /** The pass of one task, up to its final membership. */
  function TaskPass<S>(driver: Driver, rules: Policy<S>, s: S, agents: seq<CapabilityAgent>, task: Task): (p: Pass<S>)
    requires InPool(agents, task.arrival)
    ensures InPool(agents, p.members)
  {
    var begun := rules.begin(s, task.required, ShownSteps(driver, task));
    var joined := Joins(rules, begun, agents, task, |task.arrival|);
    match driver
    case WorkflowDriver => Leaves(rules, joined, agents, task, |task.arrival|)
    case BatteryDriver => SnapshotLeaves(rules, joined, agents, task, |joined.members|)
  }

  /** A task's end: its final members, in membership order, and its removals. */
  datatype End = End(members: seq<nat>, churn: nat)

  /** A run over the first `k` tasks. */
  datatype Run<S> = Run(state: S, entries: seq<TraceEntry>, ends: seq<End>)

  function RunTasks<S>(driver: Driver, rules: Policy<S>, s: S, inst: ValidInstance, sig: Signals, k: nat): (r: Run<S>)
    requires k <= |inst.tasks|
    ensures |r.ends| == k
  {
    if k == 0 then Run(s, [], [])
    else
      var before := RunTasks(driver, rules, s, inst, sig, k - 1);
      var task := inst.tasks[k - 1];
      var p := TaskPass(driver, rules, before.state, inst.agents, task);
      Run(rules.observe(p.state, task.required, sig.perBit(k - 1, p.members),
                        MemberOutcomes(inst.agents, p.members, sig, k - 1)),
          before.entries + p.entries,
          before.ends + [End(p.members, p.churn)])
  }

  // ----- Scores -----

  /** Some member of the step's role holds its bit; a bit past the mask is held by nobody. */
  predicate StepCovered(inst: Instance, members: seq<nat>, step: Step) {
    step.bit < 32 &&
    exists m :: m in members && m < |inst.roles| && inst.roles[m] == step.role &&
                m < |inst.agents| && step.bit in inst.agents[m].capabilities
  }

  function CoveredCount(inst: Instance, members: seq<nat>, steps: seq<Step>): (n: nat)
    ensures n <= |steps|
  {
    if steps == [] then 0
    else (if StepCovered(inst, members, steps[0]) then 1 else 0) + CoveredCount(inst, members, steps[1..])
  }

  function Union(inst: Instance, members: seq<nat>): Mask {
    if members == [] then {}
    else (if members[0] < |inst.agents| then inst.agents[members[0]].capabilities else {}) +
         Union(inst, members[1..])
  }

  /** The workflow driver counts a non-empty demand with every step covered by role; the
      battery counts a required mask inside the members' union. */
  predicate Success(driver: Driver, inst: Instance, members: seq<nat>, task: Task) {
    match driver
    case WorkflowDriver =>
      task.steps != [] && CoveredCount(inst, members, task.steps) == |task.steps|
    case BatteryDriver =>
      task.required <= Union(inst, members)
  }

  /** The covered fraction of the demand per member; zero for nobody. */
  function CovEff(driver: Driver, inst: Instance, members: seq<nat>, task: Task): real {
    if members == [] then 0.0
    else
      match driver
      case WorkflowDriver =>
        if task.steps == [] then 0.0
        else CoveredCount(inst, members, task.steps) as real / |task.steps| as real / |members| as real
      case BatteryDriver =>
        (if task.required == {} then 1.0
         else |Union(inst, members) * task.required| as real / |task.required| as real) / |members| as real
  }

  datatype Tally = Tally(successes: nat, covEffSum: real, churn: nat)

  function TallyOf(driver: Driver, inst: Instance, ends: seq<End>): Tally
    requires |ends| <= |inst.tasks|
  {
    if ends == [] then Tally(0, 0.0, 0)
    else
      var before, k := TallyOf(driver, inst, ends[..|ends| - 1]), |ends| - 1;
      Tally(before.successes + (if Success(driver, inst, ends[k].members, inst.tasks[k]) then 1 else 0),
            before.covEffSum + CovEff(driver, inst, ends[k].members, inst.tasks[k]),
            before.churn + ends[k].churn)
  }

  /** Success rate times mean coverage efficiency; zero without tasks. */
  function Primary(t: Tally, nTasks: nat): real {
    if nTasks == 0 then 0.0
    else (t.successes as real / nTasks as real) * (t.covEffSum / nTasks as real)
  }

  // ----- The drivers -----

  lemma JoinsStep<S>(rules: Policy<S>, s: S, agents: seq<CapabilityAgent>, task: Task, k: nat)
    requires InPool(agents, task.arrival) && k < |task.arrival|
    ensures Joins(rules, s, agents, task, 0) == Pass(s, [], [], 0)
    ensures Joins(rules, s, agents, task, k + 1) ==
            if k == 0 then Pass(s, [task.arrival[0]], [], 0)
            else JoinOne(rules, Joins(rules, s, agents, task, k), agents, task.required, task.arrival[k])
  {
    hide JoinOne;
  }

  method JoinPass<S>(policy: TracedPolicy<S>, agents: seq<CapabilityAgent>, task: Task)
    returns (members: seq<nat>)
    requires InPool(agents, task.arrival)
    modifies policy
    ensures var p := Joins(policy.rules, old(policy.state), agents, task, |task.arrival|);
            policy.state == p.state && members == p.members &&
            policy.entries == old(policy.entries) + p.entries
  {
    hide Joins;
    members := [];
    if task.arrival != [] {
      members := [task.arrival[0]];
      JoinsStep(policy.rules, policy.state, agents, task, 0);
    } else {
      NobodyJoined(policy.rules, policy.state, agents, task);
    }
    for k := if task.arrival == [] then 0 else 1 to |task.arrival|
      invariant var p := Joins(policy.rules, old(policy.state), agents, task, k);
                policy.state == p.state && members == p.members &&
                policy.entries == old(policy.entries) + p.entries
    {
      var candidate := task.arrival[k];
      JoinsStep(policy.rules, old(policy.state), agents, task, k);
      var d := policy.ShouldJoin(agents[candidate], Views(agents, members), task.required);
      if d.act {
        members := members + [candidate];
      }
    }
  }

  lemma NobodyJoined<S>(rules: Policy<S>, s: S, agents: seq<CapabilityAgent>, task: Task)
    requires InPool(agents, task.arrival)
    ensures Joins(rules, s, agents, task, 0) == Pass(s, [], [], 0)
  {
  }

  /** The workflow driver's sweep, continuing the pass `p0`. */
  method ArrivalSweep<S>(policy: TracedPolicy<S>, agents: seq<CapabilityAgent>, task: Task,
                         joined: seq<nat>, ghost p0: Pass<S>, ghost base: seq<TraceEntry>)
    returns (members: seq<nat>, churn: nat)
    requires InPool(agents, task.arrival) && InPool(agents, joined)
    requires p0.state == policy.state && p0.members == joined && p0.churn == 0
    requires policy.entries == base + p0.entries
    modifies policy
    ensures var p := Leaves(policy.rules, p0, agents, task, |task.arrival|);
            policy.state == p.state && members == p.members && churn == p.churn &&
            policy.entries == base + p.entries
  {
    hide Leaves, Position, RemoveAt;
    NothingSwept(policy.rules, p0, agents, task);
    members, churn := joined, 0;
    for k := 0 to |task.arrival|
      invariant var p := Leaves(policy.rules, p0, agents, task, k);
                policy.state == p.state && members == p.members && churn == p.churn &&
                policy.entries == base + p.entries
    {
      var idx := task.arrival[k];
      LeavesStep(policy.rules, p0, agents, task, k);
      var pos := Position(members, idx);
      if pos < |members| {
        var d := policy.ShouldLeave(agents[idx], Views(agents, members), task.required);
        if d.act {
          members := RemoveAt(members, pos);
          churn := churn + 1;
        }
      }
    }
  }

  lemma NothingSwept<S>(rules: Policy<S>, p0: Pass<S>, agents: seq<CapabilityAgent>, task: Task)
    requires InPool(agents, task.arrival) && InPool(agents, p0.members)
    ensures Leaves(rules, p0, agents, task, 0) == p0
  {
  }

  lemma LeavesStep<S>(rules: Policy<S>, p0: Pass<S>, agents: seq<CapabilityAgent>, task: Task, k: nat)
    requires InPool(agents, task.arrival) && InPool(agents, p0.members) && k < |task.arrival|
    ensures Leaves(rules, p0, agents, task, k + 1) ==
            LeaveOne(rules, Leaves(rules, p0, agents, task, k), agents, task.required, task.arrival[k])
  {
    hide LeaveOne;
  }

  /** The battery's sweep over a copy of the membership, continuing the pass `p0`. */
  method SnapshotSweep<S>(policy: TracedPolicy<S>, agents: seq<CapabilityAgent>, task: Task,
                          joined: seq<nat>, ghost p0: Pass<S>, ghost base: seq<TraceEntry>)
    returns (members: seq<nat>, churn: nat)
    requires InPool(agents, joined)
    requires p0.state == policy.state && p0.members == joined && p0.churn == 0
    requires policy.entries == base + p0.entries
    modifies policy
    ensures var p := SnapshotLeaves(policy.rules, p0, agents, task, |joined|);
            policy.state == p.state && members == p.members && churn == p.churn &&
            policy.entries == base + p.entries
  {
    hide Without;
    members, churn := joined, 0;
    for k := 0 to |joined|
      invariant var p := SnapshotLeaves(policy.rules, p0, agents, task, k);
                policy.state == p.state && members == p.members && churn == p.churn &&
                policy.entries == base + p.entries
    {
      var agent := joined[k];
      var d := policy.ShouldLeave(agents[agent], Views(agents, members), task.required);
      if d.act {
        members := Without(members, agent);
        churn := churn + 1;
      }
    }
  }

  /** One task up to its final membership. */
  method RunTask<S>(driver: Driver, policy: TracedPolicy<S>, agents: seq<CapabilityAgent>, task: Task)
    returns (members: seq<nat>, churn: nat)
    requires InPool(agents, task.arrival)
    modifies policy
    ensures var p := TaskPass(driver, policy.rules, old(policy.state), agents, task);
            policy.state == p.state && members == p.members && churn == p.churn &&
            policy.entries == old(policy.entries) + p.entries
  {
    hide Joins, Leaves, SnapshotLeaves;
    ghost var base := policy.entries;
    policy.BeginTask(task.required, ShownSteps(driver, task));
    ghost var joined := Joins(policy.rules, policy.state, agents, task, |task.arrival|);
    members := JoinPass(policy, agents, task);
    match driver {
      case WorkflowDriver =>
        members, churn := ArrivalSweep(policy, agents, task, members, joined, base);
      case BatteryDriver =>
        members, churn := SnapshotSweep(policy, agents, task, members, joined, base);
    }
  }

  lemma TallyStep(driver: Driver, inst: Instance, ends: seq<End>, end: End)
    requires |ends| < |inst.tasks|
    ensures var t := TallyOf(driver, inst, ends);
            TallyOf(driver, inst, ends + [end]) ==
            Tally(t.successes + (if Success(driver, inst, end.members, inst.tasks[|ends|]) then 1 else 0),
                  t.covEffSum + CovEff(driver, inst, end.members, inst.tasks[|ends|]),
                  t.churn + end.churn)
  {
    assert (ends + [end])[..|ends|] == ends;
  }

  lemma NoTasksRun<S>(driver: Driver, rules: Policy<S>, s: S, inst: ValidInstance, sig: Signals)
    ensures RunTasks(driver, rules, s, inst, sig, 0) == Run(s, [], [])
  {
  }

  lemma RunStep<S>(driver: Driver, rules: Policy<S>, s: S, inst: ValidInstance, sig: Signals, t: nat)
    requires t < |inst.tasks|
    ensures var before := RunTasks(driver, rules, s, inst, sig, t);
            var task := inst.tasks[t];
            var p := TaskPass(driver, rules, before.state, inst.agents, task);
            RunTasks(driver, rules, s, inst, sig, t + 1) ==
            Run(rules.observe(p.state, task.required, sig.perBit(t, p.members),
                              MemberOutcomes(inst.agents, p.members, sig, t)),
                before.entries + p.entries, before.ends + [End(p.members, p.churn)])
  {
    hide TaskPass, MemberOutcomes;
  }

  lemma NoTasks(driver: Driver, inst: Instance)
    ensures TallyOf(driver, inst, []) == Tally(0, 0.0, 0)
  {
  }

  /** A task's end is its pass from the state the earlier tasks left. */
  lemma {:induction false} EndOfTask<S>(driver: Driver, rules: Policy<S>, s: S, inst: ValidInstance, sig: Signals,
                                        k: nat, t: nat)
    requires t < k <= |inst.tasks|
    ensures var p := TaskPass(driver, rules, RunTasks(driver, rules, s, inst, sig, t).state, inst.agents,
                              inst.tasks[t]);
            RunTasks(driver, rules, s, inst, sig, k).ends[t] == End(p.members, p.churn)
  {
    hide RunTasks, TaskPass, MemberOutcomes;
    RunStep(driver, rules, s, inst, sig, k - 1);
    if t < k - 1 {
      EndOfTask(driver, rules, s, inst, sig, k - 1, t);
    }
  }
}
