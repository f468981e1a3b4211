/** What a run reports and what it tells the policy: the three outcome signals, the performance
    draw and its scoring, and the two runners that put a policy through an instance. */
module Outcomes {
  import opened Agents
  import opened Workflow
  import opened Wrappers

  // ----- Signals and draws -----

  datatype OutcomeSignal = RoleCoverage | Performance | Both

  predicate NeedsPerformance(signal: OutcomeSignal) {
    signal != RoleCoverage
  }

  /** An instance with the signal's width on each task and, when there is a draw, one row per task
      saying which agents perform on it. */
  datatype Drawn = Drawn(inst: ValidInstance, widths: seq<nat>, performance: Option<seq<seq<bool>>>)

  predicate ValidWidths(d: Drawn) {
    |d.widths| == |d.inst.tasks| && forall t :: 0 <= t < |d.widths| ==> d.widths[t] <= 32
  }

  type DrawnInstance = d: Drawn | ValidWidths(d)
    witness Drawn(Instance([], [], []), [], None)

  datatype WorkflowError = SignalNeedsPerformance(signal: OutcomeSignal) | PerformanceShape

  /** One row per task of one entry per agent. */
  predicate Shaped(inst: Instance, rows: seq<seq<bool>>) {
    |rows| == |inst.tasks| && forall t :: 0 <= t < |rows| ==> |rows[t]| == |inst.agents|
  }

  function ErrorOf(d: Drawn, signal: OutcomeSignal): Option<WorkflowError> {
    match d.performance
    case None => if NeedsPerformance(signal) then Some(SignalNeedsPerformance(signal)) else None
    case Some(rows) => if Shaped(d.inst, rows) then None else Some(PerformanceShape)
  }

  /** Row `t` of the draw; empty without one. */
  function Row(performance: Option<seq<seq<bool>>>, t: nat): seq<bool> {
    if performance.Some? && t < |performance.value| then performance.value[t] else []
  }

  predicate MemberPerformed(row: seq<bool>, i: nat) {
    i < |row| && row[i]
  }

  /** Some member of the step's role holds its bit and performed. */
  predicate StepPerformed(inst: Instance, members: seq<nat>, step: Step, row: seq<bool>) {
    step.bit < 32 &&
    exists m :: m in members && m < |inst.roles| && inst.roles[m] == step.role &&
                m < |inst.agents| && step.bit in inst.agents[m].capabilities && MemberPerformed(row, m)
  }

  /** Bit `b` of a task's signal for its final members. */
  predicate BitSet(signal: OutcomeSignal, inst: Instance, members: seq<nat>, steps: seq<Step>, row: seq<bool>, b: nat) {
    match signal
    case RoleCoverage => exists s :: s in steps && s.bit == b && StepCovered(inst, members, s)
    case Performance =>
      exists m :: m in members && m < |inst.agents| && b in inst.agents[m].capabilities && MemberPerformed(row, m)
    case Both => exists s :: s in steps && s.bit == b && StepPerformed(inst, members, s, row)
  }

  function PerBit(signal: OutcomeSignal, inst: Instance, members: seq<nat>, steps: seq<Step>, row: seq<bool>,
                  width: nat): (bits: seq<bool>)
    ensures |bits| == width
    ensures forall b :: 0 <= b < width ==> bits[b] == BitSet(signal, inst, members, steps, row, b)
  {
    seq(width, (b: nat) => BitSet(signal, inst, members, steps, row, b))
  }

  /** What the workflow runner tells the policy of every task; without a draw everyone performs. */
  function SignalsOf(d: Drawn, signal: OutcomeSignal): Signals {
    Signals(
      (t: nat, members: seq<nat>) =>
        if t < |d.inst.tasks| && t < |d.widths| then
          PerBit(signal, d.inst, members, d.inst.tasks[t].steps, Row(d.performance, t), d.widths[t])
        else [],
      (t: nat, i: nat) => d.performance.None? || MemberPerformed(Row(d.performance, t), i))
  }

  const FLAT_SIGNAL_WIDTH: nat := 32

  /** What the battery tells the policy: the union of the members, and that everyone performed. */
  function FlatSignals(inst: Instance): Signals {
    Signals(
      (t: nat, members: seq<nat>) =>
        var union := Union(inst, members);
        seq(FLAT_SIGNAL_WIDTH, (b: nat) => b in union),
      (t: nat, i: nat) => true)
  }

  // ----- Scoring under a draw -----

  function PerformedCount(inst: Instance, members: seq<nat>, steps: seq<Step>, row: seq<bool>): (n: nat)
    ensures n <= |steps|
  {
    if steps == [] then 0
    else (if StepPerformed(inst, members, steps[0], row) then 1 else 0) + PerformedCount(inst, members, steps[1..], row)
  }

  /** Success and efficiency of one task with `performed` of its `steps` steps counting. */
  function PerformedScore(steps: nat, performed: nat, members: nat): (bool, real) {
    (steps > 0 && performed == steps,
     if members == 0 || steps == 0 then 0.0 else performed as real / steps as real / members as real)
  }

  datatype Performed = Performed(successes: nat, covEffSum: real)

  function PerformedTally(inst: Instance, rows: seq<seq<bool>>, ends: seq<End>): Performed
    requires |ends| <= |inst.tasks|
  {
    if ends == [] then Performed(0, 0.0)
    else
      var before, k := PerformedTally(inst, rows, ends[..|ends| - 1]), |ends| - 1;
      var score := TaskScore(inst, rows, ends[k].members, k);
      Performed(before.successes + (if score.0 then 1 else 0), before.covEffSum + score.1)
  }

  function TaskScore(inst: Instance, rows: seq<seq<bool>>, members: seq<nat>, t: nat): (bool, real)
    requires t < |inst.tasks|
  {
    var steps := inst.tasks[t].steps;
    PerformedScore(|steps|, PerformedCount(inst, members, steps, Row(Some(rows), t)), |members|)
  }

  function PerformedPrimary(p: Performed, nTasks: nat): real {
    Primary(Tally(p.successes, p.covEffSum, 0), nTasks)
  }

  lemma PerformedStep(inst: Instance, rows: seq<seq<bool>>, ends: seq<End>, end: End)
    requires |ends| < |inst.tasks|
    ensures var p, score := PerformedTally(inst, rows, ends), TaskScore(inst, rows, end.members, |ends|);
            PerformedTally(inst, rows, ends + [end]) ==
            Performed(p.successes + (if score.0 then 1 else 0), p.covEffSum + score.1)
  {
    hide TaskScore;
    assert (ends + [end])[..|ends|] == ends;
  }

  // ----- The runners -----

  /** One task's signal, bit by bit. */
  method SignalBits(signal: OutcomeSignal, inst: Instance, members: seq<nat>, steps: seq<Step>, row: seq<bool>,
                    width: nat)
    returns (perBit: seq<bool>)
    ensures perBit == PerBit(signal, inst, members, steps, row, width)
  {
    hide StepCovered, StepPerformed;
    perBit := seq(width, _ => false);
    match signal {
      case RoleCoverage =>
        for k := 0 to |steps|
          invariant |perBit| == width
          invariant forall b :: 0 <= b < width ==>
                      perBit[b] == exists s :: s in steps[..k] && s.bit == b && StepCovered(inst, members, s)
        {
          assert steps[..k + 1] == steps[..k] + [steps[k]];
          if steps[k].bit < width && StepCovered(inst, members, steps[k]) {
            perBit := perBit[steps[k].bit := true];
          }
        }
      case Performance =>
        for b := 0 to width
          invariant |perBit| == width
          invariant forall c :: 0 <= c < b ==> perBit[c] == BitSet(signal, inst, members, steps, row, c)
        {
          perBit := perBit[b := exists m :: m in members && m < |inst.agents| &&
                                            b in inst.agents[m].capabilities && MemberPerformed(row, m)];
        }
      case Both =>
        for k := 0 to |steps|
          invariant |perBit| == width
          invariant forall b :: 0 <= b < width ==>
                      perBit[b] == exists s :: s in steps[..k] && s.bit == b && StepPerformed(inst, members, s, row)
        {
          assert steps[..k + 1] == steps[..k] + [steps[k]];
          if steps[k].bit < width && StepPerformed(inst, members, steps[k], row) {
            perBit := perBit[steps[k].bit := true];
          }
        }
    }
    assert steps[..|steps|] == steps;
  }

  datatype Result = Result(primary: real, tally: Tally)

  datatype WorkflowResult = WorkflowResult(scored: Result, performed: Option<(real, Performed)>)

  datatype Outcome = Rejected(error: WorkflowError) | Finished(result: WorkflowResult)

  function ScoredOf(driver: Driver, inst: Instance, ends: seq<End>): Result
    requires |ends| == |inst.tasks|
  {
    Result(Primary(TallyOf(driver, inst, ends), |inst.tasks|), TallyOf(driver, inst, ends))
  }

  function PerformedOf(d: Drawn, ends: seq<End>): Option<(real, Performed)>
    requires |ends| == |d.inst.tasks|
  {
    match d.performance
    case None => None
    case Some(rows) =>
      var p := PerformedTally(d.inst, rows, ends);
      Some((PerformedPrimary(p, |d.inst.tasks|), p))
  }

  /** The workflow runner: a draw that is missing or misshapen is refused before any task; else
      the tasks in order, each begun, joined, swept, scored twice over and observed. */
  method RunWorkflowInstance<S>(policy: TracedPolicy<S>, d: DrawnInstance, signal: OutcomeSignal)
    returns (outcome: Outcome)
    modifies policy
    ensures match ErrorOf(d, signal)
            case Some(e) => outcome == Rejected(e) && policy.state == old(policy.state) &&
                            policy.entries == old(policy.entries)
            case None =>
              var run := RunTasks(WorkflowDriver, policy.rules, old(policy.state), d.inst, SignalsOf(d, signal),
                                  |d.inst.tasks|);
              policy.state == run.state && policy.entries == old(policy.entries) + run.entries &&
              outcome == Finished(WorkflowResult(ScoredOf(WorkflowDriver, d.inst, run.ends), PerformedOf(d, run.ends)))
  {
    hide RunTasks, TaskPass, TallyOf, CovEff, Success, Primary, Views, MemberOutcomes, PerformedTally, PerformedCount,
         PerformedScore;
    if d.performance.None? && NeedsPerformance(signal) {
      return Rejected(SignalNeedsPerformance(signal));
    }
    if d.performance.Some? && !Shaped(d.inst, d.performance.value) {
      return Rejected(PerformanceShape);
    }
    var inst, sig := d.inst, SignalsOf(d, signal);
    ghost var start := policy.state;
    NoTasksRun(WorkflowDriver, policy.rules, policy.state, inst, sig);
    var successes: nat, covEffSum: real, churn: nat := 0, 0.0, 0;
    var performed: nat, performedSum: real := 0, 0.0;
    ghost var ends: seq<End> := [];
    NothingScored(d);
    for t := 0 to |inst.tasks|
      invariant var run := RunTasks(WorkflowDriver, policy.rules, start, inst, sig, t);
                policy.state == run.state && ends == run.ends && policy.entries == old(policy.entries) + run.entries
      invariant Tally(successes, covEffSum, churn) == TallyOf(WorkflowDriver, inst, ends)
      invariant d.performance.Some? ==>
                Performed(performed, performedSum) == PerformedTally(inst, d.performance.value, ends)
    {
      var task := inst.tasks[t];
      RunStep(WorkflowDriver, policy.rules, start, inst, sig, t);
      var members, removed := RunTask(WorkflowDriver, policy, inst.agents, task);
      if Success(WorkflowDriver, inst, members, task) {
        successes := successes + 1;
      }
      covEffSum := covEffSum + CovEff(WorkflowDriver, inst, members, task);
      churn := churn + removed;
      if d.performance.Some? {
        var count := PerformedCount(inst, members, task.steps, Row(d.performance, t));
        var (success, efficiency) := PerformedScore(|task.steps|, count, |members|);
        performed := performed + if success then 1 else 0;
        performedSum := performedSum + efficiency;
        PerformedStep(inst, d.performance.value, ends, End(members, removed));
      }
      var perBit := SignalBits(signal, inst, members, task.steps, Row(d.performance, t), d.widths[t]);
      policy.ObserveOutcome(task.required, perBit, MemberOutcomes(inst.agents, members, sig, t));
      TallyStep(WorkflowDriver, inst, ends, End(members, removed));
      ends := ends + [End(members, removed)];
    }
    var primary := Primary(Tally(successes, covEffSum, churn), |inst.tasks|);
    var second := if d.performance.None? then None
                  else
                    var p := Performed(performed, performedSum);
                    Some((PerformedPrimary(p, |inst.tasks|), p));
    outcome := Finished(WorkflowResult(Result(primary, Tally(successes, covEffSum, churn)), second));
  }

  lemma NothingScored(d: Drawn)
    ensures TallyOf(WorkflowDriver, d.inst, []) == TallyOf(BatteryDriver, d.inst, []) == Tally(0, 0.0, 0)
    ensures d.performance.Some? ==> PerformedTally(d.inst, d.performance.value, []) == Performed(0, 0.0)
  {
  }

  /** The battery: no steps shown, a snapshot swept, the union signalled, everyone performing. */
  method RunInstance<S>(policy: TracedPolicy<S>, inst: ValidInstance) returns (result: Result)
    modifies policy
    ensures var run := RunTasks(BatteryDriver, policy.rules, old(policy.state), inst, FlatSignals(inst), |inst.tasks|);
            policy.state == run.state && policy.entries == old(policy.entries) + run.entries &&
            result == ScoredOf(BatteryDriver, inst, run.ends)
  {
    hide RunTasks, TaskPass, TallyOf, CovEff, Success, Primary, Views, MemberOutcomes, Union;
    var sig := FlatSignals(inst);
    ghost var start := policy.state;
    NoTasksRun(BatteryDriver, policy.rules, policy.state, inst, sig);
    var completed: nat, covEffSum: real, churn: nat := 0, 0.0, 0;
    ghost var ends: seq<End> := [];
    NothingScored(Drawn(inst, [], None));
    for t := 0 to |inst.tasks|
      invariant var run := RunTasks(BatteryDriver, policy.rules, start, inst, sig, t);
                policy.state == run.state && ends == run.ends && policy.entries == old(policy.entries) + run.entries
      invariant Tally(completed, covEffSum, churn) == TallyOf(BatteryDriver, inst, ends)
    {
      var task := inst.tasks[t];
      RunStep(BatteryDriver, policy.rules, start, inst, sig, t);
      var members, removed := RunTask(BatteryDriver, policy, inst.agents, task);
      if Success(BatteryDriver, inst, members, task) {
        completed := completed + 1;
      }
      covEffSum := covEffSum + CovEff(BatteryDriver, inst, members, task);
      churn := churn + removed;
      policy.ObserveOutcome(task.required, sig.perBit(t, members), MemberOutcomes(inst.agents, members, sig, t));
      TallyStep(BatteryDriver, inst, ends, End(members, removed));
      ends := ends + [End(members, removed)];
    }
    result := Result(Primary(Tally(completed, covEffSum, churn), |inst.tasks|), Tally(completed, covEffSum, churn));
  }

  // ----- What performing costs -----

  /** The steps some member covers but none performs. */
  ghost predicate AllCoveredPerformed(inst: Instance, members: seq<nat>, steps: seq<Step>, row: seq<bool>) {
    forall s :: s in steps && StepCovered(inst, members, s) ==> StepPerformed(inst, members, s, row)
  }

  lemma {:induction false} PerformedAtMostCovered(inst: Instance, members: seq<nat>, steps: seq<Step>, row: seq<bool>)
    ensures PerformedCount(inst, members, steps, row) <= CoveredCount(inst, members, steps)
    ensures PerformedCount(inst, members, steps, row) == CoveredCount(inst, members, steps) <==>
            AllCoveredPerformed(inst, members, steps, row)
  {
    if steps != [] {
      PerformedAtMostCovered(inst, members, steps[1..], row);
      assert StepPerformed(inst, members, steps[0], row) ==> StepCovered(inst, members, steps[0]);
      assert forall s :: s in steps <==> s == steps[0] || s in steps[1..];
    }
  }

  lemma {:induction false} NobodyCovers(inst: Instance, steps: seq<Step>)
    ensures CoveredCount(inst, [], steps) == 0
  {
    if steps != [] {
      NobodyCovers(inst, steps[1..]);
    }
  }

  /** A share of a share grows with the count. */
  lemma SharesCompare(a: nat, b: nat, steps: nat, members: nat)
    requires a <= b && steps > 0 && members > 0
    ensures a as real / steps as real / members as real <= b as real / steps as real / members as real
    ensures a < b ==> a as real / steps as real / members as real < b as real / steps as real / members as real
  {
    var x, y, s, m := a as real, b as real, steps as real, members as real;
    QuotientsCompare(x, y, s);
    QuotientsCompare(x / s, y / s, m);
  }

  lemma QuotientsCompare(x: real, y: real, n: real)
    requires n > 0.0
    ensures x <= y <==> x / n <= y / n
    ensures 0.0 <= x <==> 0.0 <= x / n
  {
    assert x / n * n == x && y / n * n == y;
    if x / n <= y / n {
      assert x / n * n <= y / n * n;
    } else {
      assert y / n * n < x / n * n;
    }
  }

  /** One task: performing can only cost, and costs nothing exactly when every covered step of a
      non-empty membership is performed. */
  lemma TaskCost(inst: Instance, rows: seq<seq<bool>>, members: seq<nat>, t: nat)
    requires t < |inst.tasks|
    ensures var score, task := TaskScore(inst, rows, members, t), inst.tasks[t];
            (score.0 ==> Success(WorkflowDriver, inst, members, task)) &&
            0.0 <= score.1 <= CovEff(WorkflowDriver, inst, members, task) &&
            (AllCoveredPerformed(inst, members, task.steps, Row(Some(rows), t)) ==>
               score.0 == Success(WorkflowDriver, inst, members, task)) &&
            (score.1 == CovEff(WorkflowDriver, inst, members, task) <==>
               AllCoveredPerformed(inst, members, task.steps, Row(Some(rows), t)))
  {
    hide AllCoveredPerformed;
    var task, row := inst.tasks[t], Row(Some(rows), t);
    PerformedAtMostCovered(inst, members, task.steps, row);
    var n, m := PerformedCount(inst, members, task.steps, row), CoveredCount(inst, members, task.steps);
    if members == [] {
      NobodyCovers(inst, task.steps);
    } else if task.steps != [] {
      SharesCompare(n, m, |task.steps|, |members|);
      SharesCompare(0, n, |task.steps|, |members|);
    }
  }

  /** Every task's covered steps are performed. */
  ghost predicate NothingMissed(inst: Instance, rows: seq<seq<bool>>, ends: seq<End>)
    requires |ends| <= |inst.tasks|
  {
    forall t :: 0 <= t < |ends| ==>
      AllCoveredPerformed(inst, ends[t].members, inst.tasks[t].steps, Row(Some(rows), t))
  }

  lemma {:induction false} TalliesCompare(inst: Instance, rows: seq<seq<bool>>, ends: seq<End>)
    requires |ends| <= |inst.tasks|
    ensures var p, t := PerformedTally(inst, rows, ends), TallyOf(WorkflowDriver, inst, ends);
            p.successes <= t.successes && 0.0 <= p.covEffSum <= t.covEffSum &&
            (p.covEffSum == t.covEffSum <==> NothingMissed(inst, rows, ends)) &&
            (NothingMissed(inst, rows, ends) ==> p.successes == t.successes)
    decreases |ends|
  {
    hide TaskScore, CovEff, Success, AllCoveredPerformed;
    if ends != [] {
      var init, k := ends[..|ends| - 1], |ends| - 1;
      TalliesCompare(inst, rows, init);
      TaskCost(inst, rows, ends[k].members, k);
      assert NothingMissed(inst, rows, ends) <==>
        NothingMissed(inst, rows, init) &&
        AllCoveredPerformed(inst, ends[k].members, inst.tasks[k].steps, Row(Some(rows), k));
    }
  }

  /** On every run the performance-scored metrics never exceed the covered ones, and every task's
      are equal exactly when each covered step of its final members is also performed. */
  lemma PerformingCosts(inst: Instance, rows: seq<seq<bool>>, ends: seq<End>)
    requires |ends| == |inst.tasks|
    ensures var p, t := PerformedTally(inst, rows, ends), TallyOf(WorkflowDriver, inst, ends);
            p.successes <= t.successes && p.covEffSum <= t.covEffSum &&
            PerformedPrimary(p, |ends|) <= Primary(t, |ends|) &&
            (p == Performed(t.successes, t.covEffSum) <==> NothingMissed(inst, rows, ends))
  {
    hide PerformedTally, TallyOf, NothingMissed;
    TalliesCompare(inst, rows, ends);
    var p, t := PerformedTally(inst, rows, ends), TallyOf(WorkflowDriver, inst, ends);
    if |ends| > 0 {
      RatesCompare(p.successes as real, t.successes as real, p.covEffSum, t.covEffSum, |ends| as real);
    }
  }

  lemma RatesCompare(a: real, b: real, c: real, d: real, n: real)
    requires 0.0 <= a <= b && 0.0 <= c <= d && n > 0.0
    ensures (a / n) * (c / n) <= (b / n) * (d / n)
  {
    QuotientsCompare(a, b, n);
    QuotientsCompare(c, d, n);
    assert (a / n) * (c / n) <= (b / n) * (c / n) <= (b / n) * (d / n);
  }

  // ----- What the signals say -----

  /** A bit both covered by role and performed in one member is set in either signal. */
  lemma BothImpliesEither(inst: Instance, members: seq<nat>, steps: seq<Step>, row: seq<bool>, b: nat)
    requires BitSet(Both, inst, members, steps, row, b)
    ensures BitSet(RoleCoverage, inst, members, steps, row, b)
    ensures BitSet(Performance, inst, members, steps, row, b)
  {
    var s :| s in steps && s.bit == b && StepPerformed(inst, members, s, row);
    assert StepCovered(inst, members, s);
  }

  /** The converse fails: one member covers the step without performing, and one of another role
      holds the bit and performs. */
  lemma EitherIsNotBoth(r: nat, q: nat, b: nat)
    requires r != q && b < 32
    ensures var inst := Instance([CapabilityAgent(0, {b}, 0), CapabilityAgent(1, {b}, 0)], [r, q], []);
            BitSet(RoleCoverage, inst, [0, 1], [Step(b, r)], [false, true], b) &&
            BitSet(Performance, inst, [0, 1], [Step(b, r)], [false, true], b) &&
            !BitSet(Both, inst, [0, 1], [Step(b, r)], [false, true], b)
  {
    var inst := Instance([CapabilityAgent(0, {b}, 0), CapabilityAgent(1, {b}, 0)], [r, q], []);
    var steps, row := [Step(b, r)], [false, true];
    assert Step(b, r) in steps && 0 in [0, 1] && StepCovered(inst, [0, 1], Step(b, r));
    assert 1 in [0, 1] && MemberPerformed(row, 1);
  }

  /** The bit of every demanded step is set. */
  ghost predicate AllSet(inst: Instance, members: seq<nat>, steps: seq<Step>) {
    forall s :: s in steps ==> BitSet(RoleCoverage, inst, members, steps, [], s.bit)
  }

  ghost predicate OneRolePerBit(steps: seq<Step>) {
    forall s, u :: s in steps && u in steps && s.bit == u.bit ==> s == u
  }

  lemma {:induction false} AllCoveredCount(inst: Instance, members: seq<nat>, steps: seq<Step>)
    ensures CoveredCount(inst, members, steps) == |steps| <==> forall s :: s in steps ==> StepCovered(inst, members, s)
  {
    hide StepCovered;
    if steps != [] {
      AllCoveredCount(inst, members, steps[1..]);
      assert forall s :: s in steps <==> s == steps[0] || s in steps[1..];
    }
  }

  /** The agents that hold exactly one step's bit each, in its role: one per step but `s`. */
  function AllBut(steps: seq<Step>, s: Step): (inst: Instance)
    requires forall u :: u in steps ==> u.bit < 32
    ensures |inst.agents| == |inst.roles| == |steps|
    ensures forall i :: 0 <= i < |steps| ==>
              inst.roles[i] == steps[i].role &&
              inst.agents[i].capabilities == if steps[i] == s then {} else {steps[i].bit}
  {
    Instance(seq(|steps|, i requires 0 <= i < |steps| =>
                   assert steps[i] in steps;
                   CapabilityAgent(i, if steps[i] == s then {} else {steps[i].bit}, 0)),
             seq(|steps|, i requires 0 <= i < |steps| => steps[i].role), [])
  }

  /** Two roles on one bit: with everyone but `s` staffed, its bit is set by the other. */
  lemma OtherRoleSets(steps: seq<Step>, s: Step, u: Step)
    requires s in steps && u in steps && s.bit == u.bit && s != u && forall v :: v in steps ==> v.bit < 32
    ensures var inst, members := AllBut(steps, s), seq(|steps|, (i: nat) => i);
            AllSet(inst, members, steps) && !StepCovered(inst, members, s)
  {
    var inst, members := AllBut(steps, s), seq(|steps|, (i: nat) => i);
    forall v | v in steps ensures BitSet(RoleCoverage, inst, members, steps, [], v.bit) {
      var w := if v == s then u else v;
      var i :| 0 <= i < |steps| && steps[i] == w;
      assert members[i] == i && i in members;
      assert StepCovered(inst, members, w);
    }
    forall m | m in members && m < |inst.roles| && inst.roles[m] == s.role
      ensures s.bit !in inst.agents[m].capabilities
    {
      assert steps[m].bit == s.bit ==> steps[m] == s;
    }
  }

  /** The role-coverage signal tells success, for every pool and membership, exactly when no bit
      is demanded of two roles. */
  lemma SignalTellsSuccessExactly(steps: seq<Step>)
    requires forall s :: s in steps ==> s.bit < 32
    ensures (forall inst: Instance, members: seq<nat> ::
               AllSet(inst, members, steps) <==> CoveredCount(inst, members, steps) == |steps|)
            <==> OneRolePerBit(steps)
  {
    hide StepCovered, CoveredCount, AllSet;
    if OneRolePerBit(steps) {
      forall inst: Instance, members: seq<nat>
        ensures AllSet(inst, members, steps) <==> CoveredCount(inst, members, steps) == |steps|
      {
        SetIsCovered(inst, members, steps);
        AllCoveredCount(inst, members, steps);
      }
    } else {
      var s, u :| s in steps && u in steps && s.bit == u.bit && s != u;
      var inst, members := AllBut(steps, s), seq(|steps|, (i: nat) => i);
      OtherRoleSets(steps, s, u);
      AllCoveredCount(inst, members, steps);
      assert AllSet(inst, members, steps) && CoveredCount(inst, members, steps) != |steps|;
    }
  }

  lemma SetIsCovered(inst: Instance, members: seq<nat>, steps: seq<Step>)
    requires OneRolePerBit(steps)
    ensures AllSet(inst, members, steps) <==> forall s :: s in steps ==> StepCovered(inst, members, s)
  {
    hide StepCovered;
    if AllSet(inst, members, steps) {
      forall s | s in steps ensures StepCovered(inst, members, s) {
        assert BitSet(RoleCoverage, inst, members, steps, [], s.bit);
      }
    }
  }
}
