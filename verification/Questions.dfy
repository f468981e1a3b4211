/** What the drivers ask and tell a policy, read off the answers: every question with the coalition
    it shows, for every policy, by watching one. */
module Questions {
  import opened Agents
  import opened Workflow

  /** A call of the policy, with what it was shown and whether it acted. */
  datatype Call =
    | Begun(required: Mask, steps: seq<Step>)
    | JoinAsked(agent: CapabilityAgent, coalition: seq<CapabilityAgent>, required: Mask, act: bool)
    | LeaveAsked(agent: CapabilityAgent, coalition: seq<CapabilityAgent>, required: Mask, act: bool)
    | Told(required: Mask, perBit: seq<bool>, outcomes: seq<MemberOutcome>)

  datatype Watched<S> = Watched(state: S, calls: seq<Call>)

  function Asked<S>(w: Watched<S>, answer: (S, Decision), call: Call): (Watched<S>, Decision) {
    (Watched(answer.0, w.calls + [call]), answer.1)
  }

  /** The same policy, with its calls written down. */
  function Watching<S>(rules: Policy<S>): Policy<Watched<S>> {
    Policy(
      (w: Watched<S>, required, steps) =>
        Watched(rules.begin(w.state, required, steps), w.calls + [Begun(required, steps)]),
      (w: Watched<S>, agent, coalition, required) =>
        var answer := rules.join(w.state, agent, coalition, required);
        Asked(w, answer, JoinAsked(agent, coalition, required, answer.1.act)),
      (w: Watched<S>, agent, coalition, required) =>
        var answer := rules.leave(w.state, agent, coalition, required);
        Asked(w, answer, LeaveAsked(agent, coalition, required, answer.1.act)),
      (w: Watched<S>, required, perBit, members) =>
        Watched(rules.observe(w.state, required, perBit, members), w.calls + [Told(required, perBit, members)]))
  }

  // ----- Memberships read off the acts -----

  /** The members after the first `k` arrivals: the first, and of the others those that acted. */
  function Joined(arrival: seq<nat>, acts: seq<bool>, k: nat): seq<nat>
    requires k <= |arrival| && k <= |acts| + 1
  {
    if k == 0 then []
    else if k == 1 then [arrival[0]]
    else Joined(arrival, acts, k - 1) + if acts[k - 2] then [arrival[k - 1]] else []
  }

  /** One of a sweep's questions: who is asked and whether it acts. */
  datatype Answer = Answer(who: nat, act: bool)

  /** Where a leaver goes from: the workflow driver drops its first place, the battery all. */
  function Dropped(driver: Driver, members: seq<nat>, who: nat): seq<nat> {
    match driver
    case WorkflowDriver =>
      var at := Position(members, who);
      if at < |members| then RemoveAt(members, at) else members
    case BatteryDriver => Without(members, who)
  }

  /** The members left after the first `k` answers. */
  function Left(driver: Driver, members: seq<nat>, answers: seq<Answer>, k: nat): seq<nat>
    requires k <= |answers|
  {
    if k == 0 then members
    else
      var before := Left(driver, members, answers, k - 1);
      if answers[k - 1].act then Dropped(driver, before, answers[k - 1].who) else before
  }

  /** Join question `q`: the arrival after `q` others, shown those that joined before it. */
  ghost predicate IsJoin(agents: seq<CapabilityAgent>, task: Task, acts: seq<bool>, q: nat, call: Call)
    requires q < |acts|
  {
    call.JoinAsked? && call.act == acts[q] && call.required == task.required &&
    q + 1 < |task.arrival| && task.arrival[q + 1] < |agents| && call.agent == agents[task.arrival[q + 1]] &&
    Shows(agents, call.coalition, Joined(task.arrival, acts, q + 1))
  }

  ghost predicate AreJoins(agents: seq<CapabilityAgent>, task: Task, acts: seq<bool>, calls: seq<Call>) {
    |calls| == |acts| && forall q :: 0 <= q < |calls| ==> IsJoin(agents, task, acts, q, calls[q])
  }

  /** The views shown are the members', in order. */
  ghost predicate Shows(agents: seq<CapabilityAgent>, coalition: seq<CapabilityAgent>, members: seq<nat>) {
    |coalition| == |members| &&
    forall i :: 0 <= i < |members| ==> members[i] < |agents| && coalition[i] == agents[members[i]]
  }

  /** Leave question `q`, shown the members left when it is asked. */
  ghost predicate IsLeave(driver: Driver, agents: seq<CapabilityAgent>, required: Mask, joined: seq<nat>,
                          answers: seq<Answer>, q: nat, call: Call)
    requires q < |answers|
  {
    call.LeaveAsked? && call.act == answers[q].act && call.required == required &&
    answers[q].who < |agents| && call.agent == agents[answers[q].who] &&
    Shows(agents, call.coalition, Left(driver, joined, answers, q))
  }

  ghost predicate AreLeaves(driver: Driver, agents: seq<CapabilityAgent>, required: Mask, joined: seq<nat>,
                            answers: seq<Answer>, calls: seq<Call>)
  {
    |calls| == |answers| &&
    forall q :: 0 <= q < |calls| ==> IsLeave(driver, agents, required, joined, answers, q, calls[q])
  }

  // ----- The joins -----

  lemma {:induction false} JoinedStays(arrival: seq<nat>, acts: seq<bool>, act: bool, k: nat)
    requires k <= |arrival| && k <= |acts| + 1
    ensures Joined(arrival, acts + [act], k) == Joined(arrival, acts, k)
  {
    if k > 1 {
      JoinedStays(arrival, acts, act, k - 1);
    }
  }

  lemma JoinIsLogged<S>(rules: Policy<S>, p: Pass<Watched<S>>, agents: seq<CapabilityAgent>, required: Mask, i: nat)
    returns (call: Call)
    requires InPool(agents, p.members) && i < |agents|
    ensures var r := JoinOne(Watching(rules), p, agents, required, i);
            r.state.calls == p.state.calls + [call] && call.JoinAsked? && call.required == required &&
            call.agent == agents[i] && Shows(agents, call.coalition, p.members) &&
            r.members == if call.act then p.members + [i] else p.members
  {
    var answer := rules.join(p.state.state, agents[i], Views(agents, p.members), required);
    call := JoinAsked(agents[i], Views(agents, p.members), required, answer.1.act);
  }

  lemma OneMoreJoin(agents: seq<CapabilityAgent>, task: Task, acts: seq<bool>, calls: seq<Call>, call: Call)
    requires AreJoins(agents, task, acts, calls) && |acts| + 1 < |task.arrival|
    requires call.JoinAsked? && call.required == task.required && task.arrival[|acts| + 1] < |agents|
    requires call.agent == agents[task.arrival[|acts| + 1]]
    requires Shows(agents, call.coalition, Joined(task.arrival, acts, |acts| + 1))
    ensures AreJoins(agents, task, acts + [call.act], calls + [call])
    ensures Joined(task.arrival, acts + [call.act], |acts| + 2) ==
            Joined(task.arrival, acts, |acts| + 1) + if call.act then [task.arrival[|acts| + 1]] else []
  {
    hide Shows, IsJoin, Joined;
    var more, all := acts + [call.act], calls + [call];
    JoinedStays(task.arrival, acts, call.act, |acts| + 1);
    JoinedStep(task.arrival, more, |acts| + 2);
    NewJoin(agents, task, more, |acts|, call);
    forall q | 0 <= q < |all| ensures IsJoin(agents, task, more, q, all[q]) {
      if q < |calls| {
        JoinStays(agents, task, acts, call.act, q, calls[q]);
      }
    }
  }

  lemma JoinedStep(arrival: seq<nat>, acts: seq<bool>, k: nat)
    requires 1 < k <= |arrival| && k <= |acts| + 1
    ensures Joined(arrival, acts, k) ==
            Joined(arrival, acts, k - 1) + if acts[k - 2] then [arrival[k - 1]] else []
  {
  }

  lemma NewJoin(agents: seq<CapabilityAgent>, task: Task, acts: seq<bool>, q: nat, call: Call)
    requires q < |acts| && call.JoinAsked? && call.act == acts[q] && call.required == task.required
    requires q + 1 < |task.arrival| && task.arrival[q + 1] < |agents| && call.agent == agents[task.arrival[q + 1]]
    requires Shows(agents, call.coalition, Joined(task.arrival, acts, q + 1))
    ensures IsJoin(agents, task, acts, q, call)
  {
  }

  lemma JoinStays(agents: seq<CapabilityAgent>, task: Task, acts: seq<bool>, act: bool, q: nat, call: Call)
    requires q < |acts| && IsJoin(agents, task, acts, q, call)
    ensures IsJoin(agents, task, acts + [act], q, call)
  {
    hide Shows, Joined;
    JoinedStays(task.arrival, acts, act, q + 1);
  }

  lemma {:induction false} JoinsAreLogged<S>(rules: Policy<S>, w: Watched<S>, agents: seq<CapabilityAgent>, task: Task,
                                             k: nat) returns (acts: seq<bool>, calls: seq<Call>)
    requires InPool(agents, task.arrival) && k <= |task.arrival|
    ensures |acts| == if k == 0 then 0 else k - 1
    ensures var p := Joins(Watching(rules), w, agents, task, k);
            p.state.calls == w.calls + calls && AreJoins(agents, task, acts, calls) &&
            p.members == Joined(task.arrival, acts, k)
  {
    hide Joins, JoinOne, Watching, AreJoins, Joined, Shows;
    acts, calls := [], [];
    NoJoins(agents, task);
    if k == 0 {
      NobodyJoined(Watching(rules), w, agents, task);
    } else if k == 1 {
      JoinsStep(Watching(rules), w, agents, task, 0);
    } else {
      acts, calls := JoinsAreLogged(rules, w, agents, task, k - 1);
      JoinsStep(Watching(rules), w, agents, task, k - 1);
      var p := Joins(Watching(rules), w, agents, task, k - 1);
      var call := JoinIsLogged(rules, p, agents, task.required, task.arrival[k - 1]);
      OneMoreJoin(agents, task, acts, calls, call);
      assert (w.calls + calls) + [call] == w.calls + (calls + [call]);
      acts, calls := acts + [call.act], calls + [call];
    }
  }

  lemma NoJoins(agents: seq<CapabilityAgent>, task: Task)
    ensures AreJoins(agents, task, [], []) && Joined(task.arrival, [], 0) == []
    ensures task.arrival != [] ==> Joined(task.arrival, [], 1) == [task.arrival[0]]
  {
  }

  // ----- The sweeps -----

  lemma {:induction false} LeftStays(driver: Driver, members: seq<nat>, answers: seq<Answer>, more: Answer, k: nat)
    requires k <= |answers|
    ensures Left(driver, members, answers + [more], k) == Left(driver, members, answers, k)
  {
    if k > 0 {
      LeftStays(driver, members, answers, more, k - 1);
    }
  }

  /** A watched pass after a sweep's questions. */
  ghost predicate Swept<S>(driver: Driver, agents: seq<CapabilityAgent>, required: Mask, p0: Pass<Watched<S>>,
                           p: Pass<Watched<S>>, answers: seq<Answer>, calls: seq<Call>)
  {
    p.state.calls == p0.state.calls + calls && AreLeaves(driver, agents, required, p0.members, answers, calls) &&
    p.members == Left(driver, p0.members, answers, |answers|)
  }

  /** A watched pass after one question to `i`. */
  ghost predicate LeaveLogged<S>(driver: Driver, p: Pass<Watched<S>>, r: Pass<Watched<S>>, agents: seq<CapabilityAgent>,
                                 required: Mask, i: nat, call: Call)
    requires i < |agents|
  {
    r.state.calls == p.state.calls + [call] && call.LeaveAsked? && call.required == required &&
    call.agent == agents[i] && Shows(agents, call.coalition, p.members) &&
    r.members == if call.act then Dropped(driver, p.members, i) else p.members
  }

  lemma LeaveIsLogged<S>(rules: Policy<S>, p: Pass<Watched<S>>, agents: seq<CapabilityAgent>, required: Mask, i: nat)
    returns (call: Call)
    requires InPool(agents, p.members) && i < |agents|
    ensures call.LeaveAsked?
    ensures i !in p.members ==> LeaveOne(Watching(rules), p, agents, required, i) == p
    ensures i in p.members ==>
              LeaveLogged(WorkflowDriver, p, LeaveOne(Watching(rules), p, agents, required, i), agents, required, i,
                          call)
    ensures LeaveLogged(BatteryDriver, p, SnapshotOne(Watching(rules), p, agents, required, i), agents, required, i,
                        call)
  {
    hide RemoveAt, Position, Without;
    var answer := rules.leave(p.state.state, agents[i], Views(agents, p.members), required);
    call := LeaveAsked(agents[i], Views(agents, p.members), required, answer.1.act);
  }

  lemma OneMoreLeave<S>(driver: Driver, agents: seq<CapabilityAgent>, required: Mask, p0: Pass<Watched<S>>,
                        p: Pass<Watched<S>>, r: Pass<Watched<S>>, answers: seq<Answer>, calls: seq<Call>, i: nat,
                        call: Call)
    requires Swept(driver, agents, required, p0, p, answers, calls) && i < |agents|
    requires LeaveLogged(driver, p, r, agents, required, i, call)
    ensures Swept(driver, agents, required, p0, r, answers + [Answer(i, call.act)], calls + [call])
  {
    hide Shows, Dropped;
    var more, all := answers + [Answer(i, call.act)], calls + [call];
    forall q | 0 <= q < |all| ensures IsLeave(driver, agents, required, p0.members, more, q, all[q]) {
      LeftStays(driver, p0.members, answers, Answer(i, call.act), q);
      if q < |calls| {
        assert IsLeave(driver, agents, required, p0.members, answers, q, calls[q]);
      }
    }
    LeftStays(driver, p0.members, answers, Answer(i, call.act), |answers|);
    assert (p0.state.calls + calls) + [call] == p0.state.calls + all;
  }

  /** Those asked are the arrivals that were members then, in arrival order. */
  ghost predicate AskedInOrder(arrival: seq<nat>, joined: seq<nat>, answers: seq<Answer>, k: nat)
    requires k <= |arrival|
  {
    if k == 0 then answers == []
    else
      var i := arrival[k - 1];
      (answers != [] && answers[|answers| - 1].who == i &&
       i in Left(WorkflowDriver, joined, answers, |answers| - 1) &&
       AskedInOrder(arrival, joined, answers[..|answers| - 1], k - 1)) ||
      (i !in Left(WorkflowDriver, joined, answers, |answers|) && AskedInOrder(arrival, joined, answers, k - 1))
  }

  lemma {:induction false} ArrivalsAreAsked<S>(rules: Policy<S>, p0: Pass<Watched<S>>, agents: seq<CapabilityAgent>,
                                               task: Task, k: nat) returns (answers: seq<Answer>, calls: seq<Call>)
    requires InPool(agents, task.arrival) && InPool(agents, p0.members) && k <= |task.arrival|
    ensures Swept(WorkflowDriver, agents, task.required, p0, Leaves(Watching(rules), p0, agents, task, k), answers,
                  calls)
    ensures AskedInOrder(task.arrival, p0.members, answers, k)
  {
    hide Leaves, LeaveOne, Watching, Swept, LeaveLogged;
    if k == 0 {
      NothingSwept(Watching(rules), p0, agents, task);
      answers, calls := [], [];
      NothingAsked(WorkflowDriver, agents, task.required, p0);
    } else {
      var before, earlier := ArrivalsAreAsked(rules, p0, agents, task, k - 1);
      LeavesStep(Watching(rules), p0, agents, task, k - 1);
      var p, i := Leaves(Watching(rules), p0, agents, task, k - 1), task.arrival[k - 1];
      var call := LeaveIsLogged(rules, p, agents, task.required, i);
      SweptMembers(WorkflowDriver, agents, task.required, p0, p, before, earlier);
      if i in p.members {
        OneMoreLeave(WorkflowDriver, agents, task.required, p0, p, Leaves(Watching(rules), p0, agents, task, k),
                     before, earlier, i, call);
        answers, calls := before + [Answer(i, call.act)], earlier + [call];
        assert answers[..|before|] == before;
        LeftStays(WorkflowDriver, p0.members, before, Answer(i, call.act), |before|);
      } else {
        answers, calls := before, earlier;
      }
    }
  }

  lemma NothingAsked<S>(driver: Driver, agents: seq<CapabilityAgent>, required: Mask, p0: Pass<Watched<S>>)
    ensures Swept(driver, agents, required, p0, p0, [], [])
  {
  }

  lemma SweptMembers<S>(driver: Driver, agents: seq<CapabilityAgent>, required: Mask, p0: Pass<Watched<S>>,
                        p: Pass<Watched<S>>, answers: seq<Answer>, calls: seq<Call>)
    requires Swept(driver, agents, required, p0, p, answers, calls)
    ensures p.members == Left(driver, p0.members, answers, |answers|)
  {
  }

  lemma {:induction false} SnapshotIsAsked<S>(rules: Policy<S>, p0: Pass<Watched<S>>, agents: seq<CapabilityAgent>,
                                              task: Task, k: nat) returns (answers: seq<Answer>, calls: seq<Call>)
    requires InPool(agents, p0.members) && k <= |p0.members|
    ensures Swept(BatteryDriver, agents, task.required, p0, SnapshotLeaves(Watching(rules), p0, agents, task, k),
                  answers, calls)
    ensures |answers| == k && forall q :: 0 <= q < k ==> answers[q].who == p0.members[q]
  {
    hide SnapshotOne, Watching, Swept, LeaveLogged;
    if k == 0 {
      answers, calls := [], [];
      NothingAsked(BatteryDriver, agents, task.required, p0);
    } else {
      answers, calls := SnapshotIsAsked(rules, p0, agents, task, k - 1);
      var p, i := SnapshotLeaves(Watching(rules), p0, agents, task, k - 1), p0.members[k - 1];
      var call := LeaveIsLogged(rules, p, agents, task.required, i);
      OneMoreLeave(BatteryDriver, agents, task.required, p0, p, SnapshotLeaves(Watching(rules), p0, agents, task, k),
                   answers, calls, i, call);
      answers, calls := answers + [Answer(i, call.act)], calls + [call];
    }
  }

  // ----- A task -----

  /** Who is asked to leave: the workflow driver sweeps the arrivals that are members when their
      turn comes, the battery all that joined. */
  ghost predicate AskedToLeave(driver: Driver, task: Task, joined: seq<nat>, answers: seq<Answer>) {
    match driver
    case WorkflowDriver => AskedInOrder(task.arrival, joined, answers, |task.arrival|)
    case BatteryDriver => |answers| == |joined| && forall q :: 0 <= q < |joined| ==> answers[q].who == joined[q]
  }

  /** All a policy is asked on a task, for every policy: it is shown the demand, with the workflow
      driver's steps or none; then each later arrival is put to it with those that joined before;
      then the sweep's questions, each with the members left; and its acts alone decide who is a
      member at the end. */
  lemma TaskIsAsked<S>(driver: Driver, rules: Policy<S>, w: Watched<S>, agents: seq<CapabilityAgent>, task: Task)
    returns (acts: seq<bool>, answers: seq<Answer>, joins: seq<Call>, leaves: seq<Call>)
    requires InPool(agents, task.arrival)
    ensures |acts| == if task.arrival == [] then 0 else |task.arrival| - 1
    ensures var p, joined := TaskPass(driver, Watching(rules), w, agents, task),
                             Joined(task.arrival, acts, |task.arrival|);
            p.state.calls ==
              w.calls + [Begun(task.required, if driver == WorkflowDriver then task.steps else [])] + joins + leaves &&
            AreJoins(agents, task, acts, joins) &&
            AreLeaves(driver, agents, task.required, joined, answers, leaves) &&
            AskedToLeave(driver, task, joined, answers) &&
            p.members == Left(driver, joined, answers, |answers|)
  {
    hide Joins, Leaves, SnapshotLeaves, Left, Joined, AskedInOrder, AreJoins, AreLeaves;
    var begun := Watching(rules).begin(w, task.required, ShownSteps(driver, task));
    var n := |task.arrival|;
    acts, joins := JoinsAreLogged(rules, begun, agents, task, n);
    var joined := Joins(Watching(rules), begun, agents, task, n);
    if driver == WorkflowDriver {
      answers, leaves := ArrivalsAreAsked(rules, joined, agents, task, n);
    } else {
      answers, leaves := SnapshotIsAsked(rules, joined, agents, task, |joined.members|);
    }
  }

  /** After its last task a run has told the policy the signal and the outcome of every final
      member, in order, after that task's questions. */
  lemma RunTells<S>(driver: Driver, rules: Policy<S>, w: Watched<S>, inst: ValidInstance, sig: Signals, t: nat)
    returns (outcomes: seq<MemberOutcome>)
    requires t < |inst.tasks|
    ensures var run, task := RunTasks(driver, Watching(rules), w, inst, sig, t + 1), inst.tasks[t];
            var p := TaskPass(driver, Watching(rules), RunTasks(driver, Watching(rules), w, inst, sig, t).state,
                              inst.agents, task);
            run.state.calls == p.state.calls + [Told(task.required, sig.perBit(t, p.members), outcomes)] &&
            |outcomes| == |p.members| &&
            forall i :: 0 <= i < |outcomes| ==>
              p.members[i] < |inst.agents| && outcomes[i].agentId == inst.agents[p.members[i]].id &&
              (outcomes[i].performed <==> sig.performed(t, p.members[i]))
  {
    hide RunTasks, TaskPass;
    RunStep(driver, Watching(rules), w, inst, sig, t);
    var p := TaskPass(driver, Watching(rules), RunTasks(driver, Watching(rules), w, inst, sig, t).state,
                      inst.agents, inst.tasks[t]);
    outcomes := MemberOutcomes(inst.agents, p.members, sig, t);
  }

  // ----- Watching changes nothing -----

  /** A watched pass, and the same pass unwatched. */
  ghost predicate Alike<S>(p: Pass<Watched<S>>, q: Pass<S>) {
    p.state.state == q.state && p.members == q.members && p.entries == q.entries && p.churn == q.churn
  }

  lemma {:induction false} JoinsAlike<S>(rules: Policy<S>, w: Watched<S>, agents: seq<CapabilityAgent>, task: Task,
                                         k: nat)
    requires InPool(agents, task.arrival) && k <= |task.arrival|
    ensures Alike(Joins(Watching(rules), w, agents, task, k), Joins(rules, w.state, agents, task, k))
  {
    hide Views;
    if k > 1 {
      JoinsAlike(rules, w, agents, task, k - 1);
    }
  }

  lemma {:induction false} LeavesAlike<S>(rules: Policy<S>, p0: Pass<Watched<S>>, q0: Pass<S>,
                                          agents: seq<CapabilityAgent>, task: Task, k: nat)
    requires InPool(agents, task.arrival) && InPool(agents, p0.members) && k <= |task.arrival| && Alike(p0, q0)
    ensures Alike(Leaves(Watching(rules), p0, agents, task, k), Leaves(rules, q0, agents, task, k))
  {
    hide Views, RemoveAt, Position;
    if k > 0 {
      LeavesAlike(rules, p0, q0, agents, task, k - 1);
    }
  }

  lemma {:induction false} SnapshotAlike<S>(rules: Policy<S>, p0: Pass<Watched<S>>, q0: Pass<S>,
                                            agents: seq<CapabilityAgent>, task: Task, k: nat)
    requires InPool(agents, p0.members) && k <= |p0.members| && Alike(p0, q0)
    ensures Alike(SnapshotLeaves(Watching(rules), p0, agents, task, k), SnapshotLeaves(rules, q0, agents, task, k))
  {
    hide Views, Without;
    if k > 0 {
      SnapshotAlike(rules, p0, q0, agents, task, k - 1);
    }
  }

  /** A watched policy answers, joins and leaves as it does unwatched. */
  lemma WatchingChangesNothing<S>(driver: Driver, rules: Policy<S>, w: Watched<S>, agents: seq<CapabilityAgent>,
                                  task: Task)
    requires InPool(agents, task.arrival)
    ensures Alike(TaskPass(driver, Watching(rules), w, agents, task), TaskPass(driver, rules, w.state, agents, task))
  {
    hide Joins, Leaves, SnapshotLeaves;
    var begun, n := Watching(rules).begin(w, task.required, ShownSteps(driver, task)), |task.arrival|;
    JoinsAlike(rules, begun, agents, task, n);
    var p0, q0 := Joins(Watching(rules), begun, agents, task, n), Joins(rules, begun.state, agents, task, n);
    if driver == WorkflowDriver {
      LeavesAlike(rules, p0, q0, agents, task, n);
    } else {
      SnapshotAlike(rules, p0, q0, agents, task, |p0.members|);
    }
  }
}
