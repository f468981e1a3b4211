/** What the reported metrics count: tasks completed, bits and steps held by the final members, and
    the removals, for either runner and for the decoder. */
module Scores {
  import opened Agents
  import opened Outcomes
  import opened Sums
  import opened Workflow
  import opened Wrappers
  import Draws
  import Trace

  /** Some member holds the bit. */
  ghost predicate Held(inst: Instance, members: seq<nat>, b: nat) {
    exists m :: m in members && m < |inst.agents| && b in inst.agents[m].capabilities
  }

  /** Some member of the step's role holds its bit. */
  ghost predicate HeldInRole(inst: Instance, members: seq<nat>, s: Step) {
    exists m :: m in members && m < |inst.agents| && m < |inst.roles| && inst.roles[m] == s.role &&
                s.bit in inst.agents[m].capabilities
  }

  /** The workflow's demand is met when there is one and every step is held in its role; the
      battery's when every required bit is held. */
  ghost predicate Completed(driver: Driver, inst: Instance, members: seq<nat>, task: Task) {
    match driver
    case WorkflowDriver => task.steps != [] && forall s :: s in task.steps ==> HeldInRole(inst, members, s)
    case BatteryDriver => forall b :: b in task.required ==> Held(inst, members, b)
  }

  ghost function HeldBits(inst: Instance, members: seq<nat>, required: Mask): (held: set<nat>)
    ensures forall b :: b in held <==> b in required && Held(inst, members, b)
  {
    set b | b in required && Held(inst, members, b)
  }

  ghost function HeldSteps(inst: Instance, members: seq<nat>, steps: seq<Step>): (held: set<nat>)
    ensures forall i :: i in held <==> 0 <= i < |steps| && HeldInRole(inst, members, steps[i])
  {
    set i: nat | i < |steps| && HeldInRole(inst, members, steps[i])
  }

  /** Times the members and the demand, an efficiency is the part of the demand that is held;
      nobody is efficient at anything, the workflow's empty demand earns nothing, the battery's
      everything. */
  ghost predicate IsEfficiency(driver: Driver, inst: Instance, members: seq<nat>, task: Task, e: real) {
    if members == [] then e == 0.0
    else
      match driver
      case WorkflowDriver =>
        if task.steps == [] then e == 0.0
        else e * |members| as real * |task.steps| as real == |HeldSteps(inst, members, task.steps)| as real
      case BatteryDriver =>
        if task.required == {} then e * |members| as real == 1.0
        else e * |members| as real * |task.required| as real == |HeldBits(inst, members, task.required)| as real
  }

  lemma {:induction false} InUnion(inst: Instance, members: seq<nat>, b: nat)
    ensures b in Union(inst, members) <==> Held(inst, members, b)
  {
    if members != [] {
      InUnion(inst, members[1..], b);
      assert forall m :: m in members <==> m == members[0] || m in members[1..];
    }
  }

  lemma StepIsHeld(inst: Instance, members: seq<nat>, s: Step)
    ensures StepCovered(inst, members, s) <==> HeldInRole(inst, members, s)
  {
    if HeldInRole(inst, members, s) {
      var m :| m in members && m < |inst.agents| && m < |inst.roles| && inst.roles[m] == s.role &&
               s.bit in inst.agents[m].capabilities;
      assert s.bit < 32;
    }
  }

  lemma {:induction false} CountIsHeld(inst: Instance, members: seq<nat>, steps: seq<Step>)
    ensures CoveredCount(inst, members, steps) == |HeldSteps(inst, members, steps)|
  {
    hide HeldInRole, StepCovered;
    if steps != [] {
      var tail, all := HeldSteps(inst, members, steps[1..]), HeldSteps(inst, members, steps);
      CountIsHeld(inst, members, steps[1..]);
      StepIsHeld(inst, members, steps[0]);
      var shifted := Shifted(tail);
      ShiftedSize(tail);
      assert all == shifted + if HeldInRole(inst, members, steps[0]) then {0} else {} by {
        forall i: nat ensures i in all <==> i in shifted || (i == 0 && HeldInRole(inst, members, steps[0])) {
          if 0 < i < |steps| {
            assert steps[i] == steps[1..][i - 1];
            assert i - 1 in tail <==> i in shifted;
          }
        }
      }
    }
  }

  ghost function Shifted(s: set<nat>): (r: set<nat>)
    ensures forall j: nat :: j in r <==> j > 0 && j - 1 in s
  {
    set i | i in s :: i + 1
  }

  lemma {:induction false} ShiftedSize(s: set<nat>)
    ensures |Shifted(s)| == |s|
    decreases |s|
  {
    hide Shifted;
    if s == {} {
      assert Shifted(s) == {};
    } else {
      var x :| x in s;
      ShiftedSize(s - {x});
      assert Shifted(s) == Shifted(s - {x}) + {x + 1};
    }
  }

  /** An efficiency of one over the members is a met demand. */
  lemma FullEfficiencyIsCompletion(driver: Driver, inst: Instance, members: seq<nat>, task: Task, e: real)
    requires members != [] && IsEfficiency(driver, inst, members, task, e)
    ensures e * |members| as real == 1.0 <==> Completed(driver, inst, members, task)
  {
    hide Held, HeldInRole, HeldSteps, HeldBits;
    var x := e * |members| as real;
    if driver == WorkflowDriver {
      if task.steps != [] {
        AllStepsHeld(inst, members, task.steps, x);
      }
    } else if task.required != {} {
      AllBitsHeld(inst, members, task.required, x);
    }
  }

  lemma AllStepsHeld(inst: Instance, members: seq<nat>, steps: seq<Step>, x: real)
    requires steps != [] && x * |steps| as real == |HeldSteps(inst, members, steps)| as real
    ensures x == 1.0 <==> forall s :: s in steps ==> HeldInRole(inst, members, s)
  {
    hide HeldInRole;
    WholeShare(x, |HeldSteps(inst, members, steps)|, |steps|);
    AllOf(HeldSteps(inst, members, steps), |steps|);
    StepsAreAll(inst, members, steps);
  }

  lemma AllBitsHeld(inst: Instance, members: seq<nat>, required: Mask, x: real)
    requires required != {} && x * |required| as real == |HeldBits(inst, members, required)| as real
    ensures x == 1.0 <==> forall b :: b in required ==> Held(inst, members, b)
  {
    hide Held;
    WholeShare(x, |HeldBits(inst, members, required)|, |required|);
    PartOf(HeldBits(inst, members, required), required);
  }

  lemma StepsAreAll(inst: Instance, members: seq<nat>, steps: seq<Step>)
    ensures (forall i: nat :: i < |steps| ==> i in HeldSteps(inst, members, steps)) <==>
            forall s :: s in steps ==> HeldInRole(inst, members, s)
  {
    hide HeldInRole;
    if forall i: nat :: i < |steps| ==> i in HeldSteps(inst, members, steps) {
      forall s | s in steps ensures HeldInRole(inst, members, s) {
        var i :| 0 <= i < |steps| && steps[i] == s;
        assert i in HeldSteps(inst, members, steps);
      }
    }
  }

  lemma WholeShare(x: real, held: nat, whole: nat)
    requires whole > 0 && x * whole as real == held as real
    ensures x == 1.0 <==> held == whole
  {
    var n := whole as real;
    if held == whole {
      Cancelled(x, 1.0, n);
    }
  }

  lemma Cancelled(x: real, y: real, n: real)
    requires n > 0.0 && x * n == y * n
    ensures x == y
  {
    assert (x - y) * n == 0.0;
  }

  lemma PartOf(part: set<nat>, whole: set<nat>)
    requires part <= whole
    ensures |part| <= |whole| && (|part| == |whole| <==> part == whole)
  {
    assert |whole| == |part| + |whole - part| by { assert whole == part + (whole - part); }
    if |part| == |whole| {
      assert whole - part == {};
    }
  }

  lemma AllOf(part: set<nat>, n: nat)
    requires forall i :: i in part ==> i < n
    ensures |part| == n <==> forall i: nat :: i < n ==> i in part
  {
    PartOf(part, Draws.Range(n));
  }

  // ----- One task -----

  lemma SuccessIsCompletion(driver: Driver, inst: Instance, members: seq<nat>, task: Task)
    ensures Success(driver, inst, members, task) <==> Completed(driver, inst, members, task)
  {
    hide Held, HeldInRole, StepCovered, Union, CoveredCount;
    if driver == WorkflowDriver {
      AllCoveredCount(inst, members, task.steps);
      forall s ensures StepCovered(inst, members, s) <==> HeldInRole(inst, members, s) {
        StepIsHeld(inst, members, s);
      }
    } else {
      forall b ensures b in Union(inst, members) <==> Held(inst, members, b) {
        InUnion(inst, members, b);
      }
    }
  }

  lemma CovEffIsEfficiency(driver: Driver, inst: Instance, members: seq<nat>, task: Task)
    ensures IsEfficiency(driver, inst, members, task, CovEff(driver, inst, members, task))
  {
    hide Held, HeldInRole, HeldSteps, HeldBits, Union, CoveredCount;
    if members != [] {
      if driver == WorkflowDriver {
        CountIsHeld(inst, members, task.steps);
        if task.steps != [] {
          SharedOut(|HeldSteps(inst, members, task.steps)| as real, |task.steps| as real, |members| as real);
        }
      } else {
        UnionIsHeld(inst, members, task.required);
        if task.required != {} {
          SharedOut(|HeldBits(inst, members, task.required)| as real, |task.required| as real, |members| as real);
        } else {
          SharedOut(1.0, 1.0, |members| as real);
        }
      }
    }
  }

  lemma UnionIsHeld(inst: Instance, members: seq<nat>, required: Mask)
    ensures Union(inst, members) * required == HeldBits(inst, members, required)
  {
    hide Held, Union;
    forall b ensures b in Union(inst, members) <==> Held(inst, members, b) {
      InUnion(inst, members, b);
    }
  }

  lemma SharedOut(held: real, demand: real, members: real)
    requires demand > 0.0 && members > 0.0
    ensures held / demand / members * members * demand == held
  {
    assert held / demand / members * members == held / demand;
  }

  // ----- Whole runs -----

  const Itself: real -> real := (x: real) => x
  const ChurnOf: End -> real := (e: End) => e.churn as real

  ghost function CompletedTasks(driver: Driver, inst: Instance, ends: seq<End>): (done: set<nat>)
    requires |ends| <= |inst.tasks|
    ensures forall t :: t in done <==> 0 <= t < |ends| && Completed(driver, inst, ends[t].members, inst.tasks[t])
  {
    set t: nat | t < |ends| && Completed(driver, inst, ends[t].members, inst.tasks[t])
  }

  lemma {:induction false} TallyCounts(driver: Driver, inst: Instance, ends: seq<End>) returns (effs: seq<real>)
    requires |ends| <= |inst.tasks|
    ensures var tally := TallyOf(driver, inst, ends);
            tally.successes == |CompletedTasks(driver, inst, ends)| &&
            |effs| == |ends| && tally.covEffSum == Sum(Itself, effs) &&
            (forall t :: 0 <= t < |ends| ==> IsEfficiency(driver, inst, ends[t].members, inst.tasks[t], effs[t])) &&
            tally.churn as real == Sum(ChurnOf, ends)
    decreases |ends|
  {
    hide Completed, IsEfficiency, CovEff, Success, CompletedTasks, TallyOf;
    NoTasks(driver, inst);
    if ends == [] {
      effs := [];
    } else {
      var init, last, k := ends[..|ends| - 1], ends[|ends| - 1], |ends| - 1;
      var before := TallyCounts(driver, inst, init);
      SuccessIsCompletion(driver, inst, last.members, inst.tasks[k]);
      CovEffIsEfficiency(driver, inst, last.members, inst.tasks[k]);
      effs := before + [CovEff(driver, inst, last.members, inst.tasks[k])];
      SumLast(Itself, before, CovEff(driver, inst, last.members, inst.tasks[k]));
      SumLast(ChurnOf, init, last);
      assert ends == init + [last];
      OneMoreTask(driver, inst, init, last);
      TallyStep(driver, inst, init, last);
    }
  }

  lemma OneMoreTask(driver: Driver, inst: Instance, init: seq<End>, last: End)
    requires |init| < |inst.tasks|
    ensures |CompletedTasks(driver, inst, init + [last])| ==
            |CompletedTasks(driver, inst, init)| +
            if Completed(driver, inst, last.members, inst.tasks[|init|]) then 1 else 0
  {
    hide Completed, CompletedTasks;
    var before, now := CompletedTasks(driver, inst, init), CompletedTasks(driver, inst, init + [last]);
    var done := Completed(driver, inst, last.members, inst.tasks[|init|]);
    forall t ensures t in now <==> t in before || (done && t == |init|) {
      if 0 <= t < |init| {
        assert (init + [last])[t] == init[t];
      }
    }
    assert now == before + if done then {|init|} else {};
  }

  /** What either runner reports: the completed tasks, the efficiencies of all tasks added up, the
      removals added up, and the product of the two rates, zero without tasks. */
  lemma ScoresCount(driver: Driver, inst: Instance, ends: seq<End>) returns (effs: seq<real>)
    requires |ends| == |inst.tasks|
    ensures var r, n := ScoredOf(driver, inst, ends), |ends| as real;
            r.tally.successes == |CompletedTasks(driver, inst, ends)| &&
            |effs| == |ends| && r.tally.covEffSum == Sum(Itself, effs) &&
            (forall t :: 0 <= t < |ends| ==> IsEfficiency(driver, inst, ends[t].members, inst.tasks[t], effs[t])) &&
            r.tally.churn as real == Sum(ChurnOf, ends) &&
            r.primary * n * n == r.tally.successes as real * r.tally.covEffSum && (n == 0.0 ==> r.primary == 0.0)
  {
    hide TallyOf, IsEfficiency, CompletedTasks;
    effs := TallyCounts(driver, inst, ends);
    var tally := TallyOf(driver, inst, ends);
    if ends == [] {
      assert effs == [] && tally.covEffSum == 0.0;
    } else {
      Rates(tally.successes as real, tally.covEffSum, |ends| as real);
    }
  }

  lemma Rates(a: real, b: real, n: real)
    requires n > 0.0
    ensures (a / n) * (b / n) * n * n == a * b
  {
    var x, y := a / n, b / n;
    assert x * n == a && y * n == b;
    assert x * y * n * n == (x * n) * (y * n);
  }

  // ----- The decoder reports what the runner scored -----

  /** For every policy the decoder's primary and removals are the workflow runner's, and for every
      task it reports the size of its demand, the steps held, and the efficiency. */
  lemma DecoderScoresTheRun<S>(rules: Policy<S>, s: S, inst: ValidInstance, sig: Signals) returns (recon: Trace.Recon)
    ensures var run := RunTasks(WorkflowDriver, rules, s, inst, sig, |inst.tasks|);
            var scored := ScoredOf(WorkflowDriver, inst, run.ends);
            Trace.Reconstructed(inst, run.entries) == Trace.Decoded(recon) &&
            recon.primary == scored.primary && recon.churn == scored.tally.churn && |recon.tasks| == |inst.tasks| &&
            forall t :: 0 <= t < |inst.tasks| ==>
              var end, task, told := run.ends[t], inst.tasks[t], recon.tasks[t];
              told.steps == |task.steps| && told.covered == |HeldSteps(inst, end.members, task.steps)| &&
              IsEfficiency(WorkflowDriver, inst, end.members, task, told.covEff)
  {
    hide RunTasks, TallyOf, Primary, IsEfficiency, CovEff, CoveredCount;
    Trace.RoundTrip(rules, s, inst, sig);
    var run := RunTasks(WorkflowDriver, rules, s, inst, sig, |inst.tasks|);
    recon := Trace.ReconOf(inst, run.ends);
    forall t | 0 <= t < |inst.tasks|
      ensures var end, task, told := run.ends[t], inst.tasks[t], recon.tasks[t];
              told.steps == |task.steps| && told.covered == |HeldSteps(inst, end.members, task.steps)| &&
              IsEfficiency(WorkflowDriver, inst, end.members, task, told.covEff)
    {
      CountIsHeld(inst, run.ends[t].members, inst.tasks[t].steps);
      CovEffIsEfficiency(WorkflowDriver, inst, run.ends[t].members, inst.tasks[t]);
    }
  }

  // ----- Performing is covering by those who perform -----

  /** The members that performed, in their order. */
  function Performing(members: seq<nat>, row: seq<bool>): seq<nat> {
    if members == [] then []
    else (if MemberPerformed(row, members[0]) then [members[0]] else []) + Performing(members[1..], row)
  }

  lemma {:induction false} PerformingMembers(members: seq<nat>, row: seq<bool>, m: nat)
    ensures m in Performing(members, row) <==> m in members && m < |row| && row[m]
  {
    if members != [] {
      PerformingMembers(members[1..], row, m);
      assert m in members <==> m == members[0] || m in members[1..];
    }
  }

  /** Each signal and the second scoring see the members that performed where the first sees all:
      a bit of the performance signal is one that some performing member holds, and the combined
      signal is the coverage signal of the performing members. */
  lemma PerformingIsCovering(inst: Instance, members: seq<nat>, steps: seq<Step>, row: seq<bool>, b: nat)
    ensures BitSet(Performance, inst, members, steps, row, b) <==> Held(inst, Performing(members, row), b)
    ensures BitSet(Both, inst, members, steps, row, b) <==>
            BitSet(RoleCoverage, inst, Performing(members, row), steps, row, b)
    ensures BitSet(RoleCoverage, inst, members, steps, row, b) <==>
            exists s :: s in steps && s.bit == b && HeldInRole(inst, members, s)
    ensures PerformedCount(inst, members, steps, row) == |HeldSteps(inst, Performing(members, row), steps)|
  {
    hide Performing, PerformedCount, HeldInRole, StepCovered, StepPerformed;
    forall m: nat ensures m in Performing(members, row) <==> m in members && m < |row| && row[m] {
      PerformingMembers(members, row, m);
    }
    forall s
      ensures StepPerformed(inst, members, s, row) <==> StepCovered(inst, Performing(members, row), s)
      ensures StepCovered(inst, members, s) <==> HeldInRole(inst, members, s)
    {
      StepIsPerformed(inst, members, s, row);
      StepIsHeld(inst, members, s);
    }
    PerformedIsCovered(inst, members, steps, row);
    CountIsHeld(inst, Performing(members, row), steps);
  }

  lemma StepIsPerformed(inst: Instance, members: seq<nat>, s: Step, row: seq<bool>)
    ensures StepPerformed(inst, members, s, row) <==> StepCovered(inst, Performing(members, row), s)
  {
    hide Performing;
    forall m: nat ensures m in Performing(members, row) <==> m in members && m < |row| && row[m] {
      PerformingMembers(members, row, m);
    }
  }

  lemma {:induction false} PerformedIsCovered(inst: Instance, members: seq<nat>, steps: seq<Step>, row: seq<bool>)
    ensures PerformedCount(inst, members, steps, row) == CoveredCount(inst, Performing(members, row), steps)
  {
    hide Performing, StepCovered, StepPerformed;
    if steps != [] {
      PerformedIsCovered(inst, members, steps[1..], row);
      StepIsPerformed(inst, members, steps[0], row);
    }
  }

  // ----- What the runners take and tell -----

  /** A run is refused exactly when a signal other than role coverage lacks a draw, or the draw is
      not one row per task of one entry per agent, and is told which. */
  lemma RefusedExactly(d: DrawnInstance, signal: OutcomeSignal)
    ensures d.performance.None? ==>
              ErrorOf(d, signal) == if signal == RoleCoverage then None else Some(SignalNeedsPerformance(signal))
    ensures d.performance.Some? ==>
              var rows := d.performance.value;
              (ErrorOf(d, signal) == None <==>
               |rows| == |d.inst.tasks| && forall t :: 0 <= t < |rows| ==> |rows[t]| == |d.inst.agents|) &&
              (ErrorOf(d, signal) != None ==> ErrorOf(d, signal) == Some(PerformanceShape))
  {
  }

  /** The workflow runner tells one entry per bit of the task's universe, and of each agent whether
      it performs on the task, everyone without a draw; the battery tells 32 bits, those that some
      final member holds, and that everyone performed. */
  lemma RunnersTell(d: DrawnInstance, signal: OutcomeSignal, t: nat, members: seq<nat>, i: nat, b: nat)
    requires t < |d.inst.tasks|
    ensures var told, row := SignalsOf(d, signal), Row(d.performance, t);
            |told.perBit(t, members)| == d.widths[t] &&
            (b < d.widths[t] ==>
               told.perBit(t, members)[b] == BitSet(signal, d.inst, members, d.inst.tasks[t].steps, row, b)) &&
            (told.performed(t, i) <==>
             d.performance.None? || (t < |d.performance.value| && i < |row| && d.performance.value[t][i]))
    ensures var told := FlatSignals(d.inst);
            |told.perBit(t, members)| == 32 && told.performed(t, i) &&
            (b < 32 ==> (told.perBit(t, members)[b] <==> Held(d.inst, members, b)))
  {
    hide BitSet, Union, Held;
    InUnion(d.inst, members, b);
  }
}
