/** The reference policy that needs no engine: everyone joins, and a member leaves when every
    demanded step the coalition covers stays covered without it. One sweep of that greedy rule
    ends in an irredundant coalition that covers what the full pool covers. */
module RefPrune {
  import opened Agents
  import opened Sums
  import opened Workflow
  import opened Wrappers

  /** Some member of the coalition other than the agent with id `without`, of the step's role,
      holds the step's bit; a bit past the mask is held by nobody. */
  predicate Covered(roles: map<nat, nat>, coalition: seq<CapabilityAgent>, without: Option<nat>, step: Step) {
    step.bit < 32 &&
    exists k :: 0 <= k < |coalition| && Covers(roles, coalition[k], without, step)
  }

  predicate Covers(roles: map<nat, nat>, m: CapabilityAgent, without: Option<nat>, step: Step) {
    Some(m.id) != without && m.id in roles && roles[m.id] == step.role && step.bit in m.capabilities
  }

  predicate Redundant(roles: map<nat, nat>, steps: seq<Step>, agent: CapabilityAgent, coalition: seq<CapabilityAgent>) {
    forall k :: 0 <= k < |steps| ==>
      !Covered(roles, coalition, None, steps[k]) || Covered(roles, coalition, Some(agent.id), steps[k])
  }

  /** The policy's state is the demand it was last shown. */
  function Rules(roles: map<nat, nat>): Policy<seq<Step>> {
    Policy((s, required, steps) => steps,
           (s, agent, coalition, required) => (s, Decision(true, 0.0)),
           (s, agent, coalition, required) => (s, Decision(Redundant(roles, s, agent, coalition), 0.0)),
           (s, required, perBit, members) => s)
  }

  // ----- One task -----

  lemma {:induction false} EveryoneJoins(roles: map<nat, nat>, steps: seq<Step>, agents: seq<CapabilityAgent>,
                                         task: Task, k: nat)
    requires InPool(agents, task.arrival) && k <= |task.arrival|
    ensures var p := Joins(Rules(roles), steps, agents, task, k);
            p.members == task.arrival[..k] && p.state == steps
  {
    if k > 1 {
      EveryoneJoins(roles, steps, agents, task, k - 1);
      assert task.arrival[..k] == task.arrival[..k - 1] + [task.arrival[k - 1]];
    }
  }

  /** Coverage by pool members. */
  ghost predicate CoveredBy(roles: map<nat, nat>, agents: seq<CapabilityAgent>, members: seq<nat>,
                            without: Option<nat>, step: Step)
    requires InPool(agents, members)
  {
    step.bit < 32 && exists m :: m in members && Covers(roles, agents[m], without, step)
  }

  lemma CoverageOfViews(roles: map<nat, nat>, agents: seq<CapabilityAgent>, members: seq<nat>,
                        without: Option<nat>, step: Step)
    requires InPool(agents, members)
    ensures Covered(roles, Views(agents, members), without, step) <==>
            CoveredBy(roles, agents, members, without, step)
  {
    var v := Views(agents, members);
    if CoveredBy(roles, agents, members, without, step) {
      var m :| m in members && Covers(roles, agents[m], without, step);
      var k :| 0 <= k < |members| && members[k] == m;
      assert Covers(roles, v[k], without, step);
    }
    if Covered(roles, v, without, step) {
      var k :| 0 <= k < |v| && Covers(roles, v[k], without, step);
      assert members[k] in members;
    }
  }

  /** What one question does: the member stays, or leaves without uncovering any step. */
  lemma OneQuestion(roles: map<nat, nat>, p: Pass<seq<Step>>, agents: seq<CapabilityAgent>, required: Mask, i: nat)
    requires InPool(agents, p.members) && i < |agents| && i in p.members
    ensures var r := LeaveOne(Rules(roles), p, agents, required, i);
            r.state == p.state &&
            (|| (r.members == p.members && Needed(roles, p.state, agents, p.members, i))
             || (r.members == RemoveAt(p.members, Position(p.members, i)) &&
                 forall s :: s in p.state ==>
                   (CoveredBy(roles, agents, p.members, None, s) ==>
                    CoveredBy(roles, agents, p.members, Some(agents[i].id), s))))
  {
    hide Covers, Position;
    var v := Views(agents, p.members);
    forall s | s in p.state
      ensures Covered(roles, v, None, s) <==> CoveredBy(roles, agents, p.members, None, s)
      ensures Covered(roles, v, Some(agents[i].id), s) <==> CoveredBy(roles, agents, p.members, Some(agents[i].id), s)
    {
      CoverageOfViews(roles, agents, p.members, None, s);
      CoverageOfViews(roles, agents, p.members, Some(agents[i].id), s);
    }
    if Redundant(roles, p.state, agents[i], v) {
      forall s | s in p.state && CoveredBy(roles, agents, p.members, None, s)
        ensures CoveredBy(roles, agents, p.members, Some(agents[i].id), s)
      {
        var k :| 0 <= k < |p.state| && p.state[k] == s;
      }
    } else {
      var k :| 0 <= k < |p.state| && Covered(roles, v, None, p.state[k]) &&
               !Covered(roles, v, Some(agents[i].id), p.state[k]);
      assert p.state[k] in p.state;
    }
  }

  /** Without the agent with index `i`'s id some covered step is uncovered. */
  ghost predicate Needed(roles: map<nat, nat>, steps: seq<Step>, agents: seq<CapabilityAgent>,
                         members: seq<nat>, i: nat)
    requires InPool(agents, members) && i < |agents|
  {
    exists s :: s in steps && CoveredBy(roles, agents, members, None, s) &&
                !CoveredBy(roles, agents, members, Some(agents[i].id), s)
  }

  /** The members and the coverage of two memberships, one inside the other. */
  ghost predicate SameCoverage(roles: map<nat, nat>, steps: seq<Step>, agents: seq<CapabilityAgent>,
                               smaller: seq<nat>, larger: seq<nat>)
    requires InPool(agents, smaller) && InPool(agents, larger)
  {
    (forall m :: m in smaller ==> m in larger) &&
    forall s :: s in steps ==>
      (CoveredBy(roles, agents, smaller, None, s) <==> CoveredBy(roles, agents, larger, None, s))
  }

  lemma ShrinkKeepsNeeded(roles: map<nat, nat>, steps: seq<Step>, agents: seq<CapabilityAgent>,
                          smaller: seq<nat>, larger: seq<nat>, i: nat)
    requires InPool(agents, smaller) && InPool(agents, larger) && i < |agents|
    requires SameCoverage(roles, steps, agents, smaller, larger) && Needed(roles, steps, agents, larger, i)
    ensures Needed(roles, steps, agents, smaller, i)
  {
    var s :| s in steps && CoveredBy(roles, agents, larger, None, s) &&
             !CoveredBy(roles, agents, larger, Some(agents[i].id), s);
    assert CoveredBy(roles, agents, smaller, None, s);
  }

  /** One question of the sweep: coverage stays, and if the agent stays it is needed. */
  lemma QuestionKeepsCoverage(roles: map<nat, nat>, p: Pass<seq<Step>>, agents: seq<CapabilityAgent>,
                              required: Mask, i: nat)
    requires InPool(agents, p.members) && i < |agents|
    ensures var r := LeaveOne(Rules(roles), p, agents, required, i);
            r.state == p.state && SameCoverage(roles, p.state, agents, r.members, p.members) &&
            (Distinct(p.members) ==>
               Distinct(r.members) && (i in r.members ==> Needed(roles, p.state, agents, r.members, i)))
  {
    hide LeaveOne, Rules, Covers, Needed;
    var r := LeaveOne(Rules(roles), p, agents, required, i);
    if i !in p.members {
      PassedOver(roles, p, agents, required, i);
    } else {
      OneQuestion(roles, p, agents, required, i);
      var j := Position(p.members, i);
      if r.members == RemoveAt(p.members, j) && !(r.members == p.members) {
        RemovalCovers(roles, p.state, agents, p.members, j);
        RemovedIsGone(p.members, j);
      }
    }
  }

  lemma PassedOver(roles: map<nat, nat>, p: Pass<seq<Step>>, agents: seq<CapabilityAgent>, required: Mask, i: nat)
    requires InPool(agents, p.members) && i < |agents| && i !in p.members
    ensures LeaveOne(Rules(roles), p, agents, required, i) == p
  {
  }

  lemma RemovalCovers(roles: map<nat, nat>, steps: seq<Step>, agents: seq<CapabilityAgent>, members: seq<nat>, j: nat)
    requires InPool(agents, members) && j < |members|
    requires forall s :: s in steps ==>
               (CoveredBy(roles, agents, members, None, s) ==>
                CoveredBy(roles, agents, members, Some(agents[members[j]].id), s))
    ensures SameCoverage(roles, steps, agents, RemoveAt(members, j), members)
  {
    var rest := RemoveAt(members, j);
    forall m | m in members && m != members[j] ensures m in rest {
      var k :| 0 <= k < |members| && members[k] == m;
      assert rest[if k < j then k else k - 1] == m;
    }
    forall s | s in steps && CoveredBy(roles, agents, members, None, s)
      ensures CoveredBy(roles, agents, rest, None, s)
    {
      var m :| m in members && Covers(roles, agents[m], Some(agents[members[j]].id), s);
      assert m in rest && Covers(roles, agents[m], None, s);
    }
    forall s | s in steps && CoveredBy(roles, agents, rest, None, s)
      ensures CoveredBy(roles, agents, members, None, s)
    {
      var m :| m in rest && Covers(roles, agents[m], None, s);
      assert m in members;
    }
  }

  lemma RemovedIsGone(members: seq<nat>, j: nat)
    requires j < |members|
    ensures Distinct(members) ==> Distinct(RemoveAt(members, j)) && members[j] !in RemoveAt(members, j)
  {
  }

  /** After the first `k` arrivals: the coverage is the full pool's, and every arrival asked
      and still a member is needed. */
  lemma {:induction false} SweepKeepsCoverage(roles: map<nat, nat>, p0: Pass<seq<Step>>, agents: seq<CapabilityAgent>,
                                              task: Task, k: nat)
    requires InPool(agents, task.arrival) && InPool(agents, p0.members) && k <= |task.arrival|
    ensures var p := Leaves(Rules(roles), p0, agents, task, k);
            p.state == p0.state && SameCoverage(roles, p0.state, agents, p.members, p0.members) &&
            (Distinct(p0.members) ==>
               Distinct(p.members) &&
               forall q :: 0 <= q < k && task.arrival[q] in p.members ==>
                 Needed(roles, p0.state, agents, p.members, task.arrival[q]))
  {
    hide Rules, LeaveOne, Leaves, CoveredBy, Needed;
    if k == 0 {
      NothingSwept(Rules(roles), p0, agents, task);
    } else {
      SweepKeepsCoverage(roles, p0, agents, task, k - 1);
      LeavesStep(Rules(roles), p0, agents, task, k - 1);
      var p, r := Leaves(Rules(roles), p0, agents, task, k - 1), Leaves(Rules(roles), p0, agents, task, k);
      QuestionKeepsCoverage(roles, p, agents, task.required, task.arrival[k - 1]);
      if Distinct(p0.members) {
        forall q | 0 <= q < k && task.arrival[q] in r.members
          ensures Needed(roles, p0.state, agents, r.members, task.arrival[q])
        {
          if q < k - 1 {
            assert task.arrival[q] in p.members;
            ShrinkKeepsNeeded(roles, p0.state, agents, r.members, p.members, task.arrival[q]);
          }
        }
      }
    }
  }

  // ----- In the world's terms -----

  /** The policy's role map is the instance's, agent by agent. */
  ghost predicate KnowsRoles(roles: map<nat, nat>, inst: Instance) {
    |inst.roles| == |inst.agents| &&
    forall i :: 0 <= i < |inst.agents| ==>
      inst.agents[i].id in roles && roles[inst.agents[i].id] == inst.roles[i]
  }

  ghost predicate DistinctIds(inst: Instance) {
    forall i, j :: 0 <= i < j < |inst.agents| ==> inst.agents[i].id != inst.agents[j].id
  }

  lemma CoverageIsTheWorlds(roles: map<nat, nat>, inst: Instance, members: seq<nat>, step: Step)
    requires KnowsRoles(roles, inst) && InPool(inst.agents, members)
    ensures CoveredBy(roles, inst.agents, members, None, step) <==> StepCovered(inst, members, step)
  {
    if CoveredBy(roles, inst.agents, members, None, step) {
      var m :| m in members && Covers(roles, inst.agents[m], None, step);
      assert m < |inst.agents|;
    }
    if StepCovered(inst, members, step) {
      var m :| m in members && m < |inst.roles| && inst.roles[m] == step.role &&
               m < |inst.agents| && step.bit in inst.agents[m].capabilities;
      assert Covers(roles, inst.agents[m], None, step);
    }
  }

  /** Final memberships cover what the arrivals cover. */
  ghost predicate CoversLikeAll(inst: Instance, members: seq<nat>, task: Task) {
    forall s :: s in task.steps ==> (StepCovered(inst, members, s) <==> StepCovered(inst, task.arrival, s))
  }

  /** Taking any one member out uncovers a covered step. */
  ghost predicate Irredundant(inst: Instance, members: seq<nat>, task: Task) {
    forall j :: 0 <= j < |members| ==> Indispensable(inst, members, task, j)
  }

  ghost predicate Indispensable(inst: Instance, members: seq<nat>, task: Task, j: nat)
    requires j < |members|
  {
    exists s :: s in task.steps && StepCovered(inst, members, s) && !StepCovered(inst, RemoveAt(members, j), s)
  }

  /** With distinct ids, whatever the others cover is covered without the agent's id. */
  lemma OthersHaveOtherIds(roles: map<nat, nat>, inst: Instance, members: seq<nat>, j: nat, s: Step)
    requires DistinctIds(inst) && InPool(inst.agents, members) && Distinct(members) && j < |members|
    ensures CoveredBy(roles, inst.agents, RemoveAt(members, j), None, s) ==>
              CoveredBy(roles, inst.agents, members, Some(inst.agents[members[j]].id), s)
  {
    var i, rest := members[j], RemoveAt(members, j);
    RemovedIsGone(members, j);
    if CoveredBy(roles, inst.agents, rest, None, s) {
      var m :| m in rest && Covers(roles, inst.agents[m], None, s);
      assert m in members && m != i;
      assert Covers(roles, inst.agents[m], Some(inst.agents[i].id), s);
    }
  }

  lemma NeededIsIrredundant(roles: map<nat, nat>, inst: Instance, members: seq<nat>, task: Task, j: nat)
    requires KnowsRoles(roles, inst) && DistinctIds(inst) && InPool(inst.agents, members)
    requires Distinct(members) && j < |members|
    requires Needed(roles, task.steps, inst.agents, members, members[j])
    ensures Indispensable(inst, members, task, j)
  {
    var i, rest := members[j], RemoveAt(members, j);
    var s :| s in task.steps && CoveredBy(roles, inst.agents, members, None, s) &&
             !CoveredBy(roles, inst.agents, members, Some(inst.agents[i].id), s);
    OthersHaveOtherIds(roles, inst, members, j, s);
    CoverageIsTheWorlds(roles, inst, members, s);
    CoverageIsTheWorlds(roles, inst, rest, s);
  }

  /** One task under the workflow driver. Whatever the ids, the final coalition covers exactly
      the demanded steps that all the arrivals together cover; with distinct ids and distinct
      arrivals no member of it can be spared. */
  lemma PrunedTask(roles: map<nat, nat>, s0: seq<Step>, inst: Instance, task: Task)
    requires KnowsRoles(roles, inst) && InPool(inst.agents, task.arrival)
    ensures var p := TaskPass(WorkflowDriver, Rules(roles), s0, inst.agents, task);
            CoversLikeAll(inst, p.members, task) &&
            (DistinctIds(inst) && Distinct(task.arrival) ==> Irredundant(inst, p.members, task))
  {
    hide Joins, Leaves, StepCovered, CoveredBy, Needed, Indispensable;
    var agents, n := inst.agents, |task.arrival|;
    EveryoneJoins(roles, task.steps, agents, task, n);
    assert task.arrival[..n] == task.arrival;
    var p0 := Joins(Rules(roles), task.steps, agents, task, n);
    var p := Leaves(Rules(roles), p0, agents, task, n);
    SweepKeepsCoverage(roles, p0, agents, task, n);
    assert p == TaskPass(WorkflowDriver, Rules(roles), s0, agents, task);
    forall s | s in task.steps
      ensures StepCovered(inst, p.members, s) <==> StepCovered(inst, task.arrival, s)
    {
      CoverageIsTheWorlds(roles, inst, p.members, s);
      CoverageIsTheWorlds(roles, inst, task.arrival, s);
    }
    if DistinctIds(inst) && Distinct(task.arrival) {
      forall j | 0 <= j < |p.members| ensures Indispensable(inst, p.members, task, j) {
        assert p.members[j] in task.arrival;
        NeededIsIrredundant(roles, inst, p.members, task, j);
      }
    }
  }

  /** Every task of every run. */
  lemma PrunedRun(roles: map<nat, nat>, s0: seq<Step>, inst: ValidInstance, sig: Signals, t: nat)
    requires KnowsRoles(roles, inst) && t < |inst.tasks|
    ensures var members := RunTasks(WorkflowDriver, Rules(roles), s0, inst, sig, |inst.tasks|).ends[t].members;
            CoversLikeAll(inst, members, inst.tasks[t]) &&
            (DistinctIds(inst) && Distinct(inst.tasks[t].arrival) ==> Irredundant(inst, members, inst.tasks[t]))
  {
    hide RunTasks, TaskPass, CoversLikeAll, Irredundant, KnowsRoles, DistinctIds, Rules;
    EndOfTask(WorkflowDriver, Rules(roles), s0, inst, sig, |inst.tasks|, t);
    PrunedTask(roles, RunTasks(WorkflowDriver, Rules(roles), s0, inst, sig, t).state, inst, inst.tasks[t]);
  }

  // ----- Shared ids, and the driver that shows no steps -----

  /** Of a pool in which only the agents with one id hold the one demanded bit. */
  function Holder(id: nat, holder: nat): CapabilityAgent {
    CapabilityAgent(id, if id == holder then {0} else {}, 0)
  }

  function Holders(ids: seq<nat>, holder: nat): seq<CapabilityAgent> {
    seq(|ids|, k requires 0 <= k < |ids| => Holder(ids[k], holder))
  }

  /** Two members that share an id, and alone cover a step, are both kept by every question. */
  lemma {:induction false} SharedIdStays(ids: seq<nat>, roles: map<nat, nat>, p0: Pass<seq<Step>>, task: Task,
                                         i: nat, j: nat, k: nat)
    requires i < |ids| && j < |ids| && ids[i] == ids[j]
    requires InPool(Holders(ids, ids[i]), task.arrival) && InPool(Holders(ids, ids[i]), p0.members)
    requires ids[i] in roles && roles[ids[i]] == 0 && p0.state == [Step(0, 0)]
    requires i in p0.members && j in p0.members && k <= |task.arrival|
    ensures var p := Leaves(Rules(roles), p0, Holders(ids, ids[i]), task, k);
            i in p.members && j in p.members && p.state == p0.state
  {
    hide Rules, LeaveOne, Leaves, Position;
    var agents := Holders(ids, ids[i]);
    if k == 0 {
      NothingSwept(Rules(roles), p0, agents, task);
    } else {
      SharedIdStays(ids, roles, p0, task, i, j, k - 1);
      LeavesStep(Rules(roles), p0, agents, task, k - 1);
      var p, x := Leaves(Rules(roles), p0, agents, task, k - 1), task.arrival[k - 1];
      if x !in p.members {
        PassedOver(roles, p, agents, task.required, x);
      } else {
        OneQuestion(roles, p, agents, task.required, x);
        assert Covers(roles, agents[i], None, Step(0, 0));
        assert CoveredBy(roles, agents, p.members, None, Step(0, 0));
        assert Step(0, 0) in p.state;
        if x == i || x == j {
          assert !CoveredBy(roles, agents, p.members, Some(agents[x].id), Step(0, 0));
        } else {
          KeptByRemoval(p.members, x, i);
          KeptByRemoval(p.members, x, j);
        }
      }
    }
  }

  lemma KeptByRemoval(members: seq<nat>, x: nat, y: nat)
    requires x in members && y in members && x != y
    ensures y in RemoveAt(members, Position(members, x))
  {
    var j := Position(members, x);
    var k :| 0 <= k < |members| && members[k] == y;
    assert RemoveAt(members, j)[if k < j then k else k - 1] == y;
  }

  /** Distinct ids cannot be given up: for every pool in which two agents share an id there are
      capabilities, roles and a demand for which the final coalition holds a member it could
      spare. */
  lemma SharedIdsAreKept(ids: seq<nat>, i: nat, j: nat)
    requires i < j < |ids| && ids[i] == ids[j]
    ensures var agents := Holders(ids, ids[i]);
            var inst := Instance(agents, seq(|ids|, _ => 0), []);
            var task := Task({0}, [Step(0, 0)], seq(|ids|, k => k));
            var roles := map id | id in ids :: 0;
            KnowsRoles(roles, inst) &&
            !Irredundant(inst, TaskPass(WorkflowDriver, Rules(roles), [], agents, task).members, task)
  {
    hide Joins, Leaves;
    var agents := Holders(ids, ids[i]);
    var inst := Instance(agents, seq(|ids|, _ => 0), []);
    var task := Task({0}, [Step(0, 0)], seq(|ids|, k => k));
    var roles := map id | id in ids :: 0;
    EveryoneJoins(roles, task.steps, agents, task, |ids|);
    assert task.arrival[..|ids|] == task.arrival;
    assert task.arrival[i] == i && task.arrival[j] == j;
    var p0 := Joins(Rules(roles), task.steps, agents, task, |ids|);
    SharedIdStays(ids, roles, p0, task, i, j, |ids|);
    var members := TaskPass(WorkflowDriver, Rules(roles), [], agents, task).members;
    SecondHolderCovers(inst, members, task, i, j);
  }

  lemma SecondHolderCovers(inst: Instance, members: seq<nat>, task: Task, i: nat, j: nat)
    requires i in members && j in members && i != j && task.steps == [Step(0, 0)]
    requires j < |inst.agents| == |inst.roles| && inst.roles[j] == 0 && 0 in inst.agents[j].capabilities
    ensures !Irredundant(inst, members, task)
  {
    var at := Position(members, i);
    KeptByRemoval(members, i, j);
    assert StepCovered(inst, RemoveAt(members, at), Step(0, 0));
    assert !Indispensable(inst, members, task, at);
  }

  /** The battery shows the policy no steps, so under it every member is redundant: each task
      ends with nobody. */
  lemma BatteryPrunesEveryone(roles: map<nat, nat>, s0: seq<Step>, agents: seq<CapabilityAgent>, task: Task)
    requires InPool(agents, task.arrival)
    ensures TaskPass(BatteryDriver, Rules(roles), s0, agents, task).members == []
  {
    hide Joins, SnapshotLeaves;
    var n := |task.arrival|;
    EveryoneJoins(roles, [], agents, task, n);
    var p0 := Joins(Rules(roles), [], agents, task, n);
    EveryoneLeaves(roles, p0, agents, task, |p0.members|);
    AmongNothing(SnapshotLeaves(Rules(roles), p0, agents, task, |p0.members|).members);
  }

  lemma AmongNothing(members: seq<nat>)
    requires forall q :: 0 <= q < |members| ==> members[q] in []
    ensures members == []
  {
    assert forall x :: x !in members;
    assert multiset(members) == multiset{};
    assert |members| == |multiset(members)|;
  }

  lemma {:induction false} EveryoneLeaves(roles: map<nat, nat>, p0: Pass<seq<Step>>, agents: seq<CapabilityAgent>,
                                          task: Task, k: nat)
    requires InPool(agents, p0.members) && p0.state == [] && k <= |p0.members|
    ensures var p := SnapshotLeaves(Rules(roles), p0, agents, task, k);
            p.state == [] && forall q :: 0 <= q < |p.members| ==> p.members[q] in p0.members[k..]
  {
    hide Without, SnapshotOne, Rules;
    if k > 0 {
      EveryoneLeaves(roles, p0, agents, task, k - 1);
      var p, i := SnapshotLeaves(Rules(roles), p0, agents, task, k - 1), p0.members[k - 1];
      assert p0.members[k - 1..] == [i] + p0.members[k..];
      NoDemandNoStay(roles, p, agents, task.required, i);
      LeftIsGone(p.members, i);
    }
  }

  /** With no demand shown, whoever is asked leaves. */
  lemma NoDemandNoStay(roles: map<nat, nat>, p: Pass<seq<Step>>, agents: seq<CapabilityAgent>, required: Mask, i: nat)
    requires InPool(agents, p.members) && i < |agents| && p.state == []
    ensures var r := SnapshotOne(Rules(roles), p, agents, required, i);
            r.state == [] && r.members == Without(p.members, i)
  {
    hide Without;
  }

  lemma {:induction false} LeftIsGone(members: seq<nat>, i: nat)
    ensures forall q :: 0 <= q < |Without(members, i)| ==> Without(members, i)[q] != i
  {
    if members != [] {
      LeftIsGone(members[1..], i);
    }
  }
}
