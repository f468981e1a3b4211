/** The replay's mirror of the group policy's leave-path masks: two counts that the policy and
    the replay each make for themselves. */
module Mirror {
  import opened Agents
  import opened GroupPolicy
  import opened Replays
  import opened Workflow
  import opened Wrappers
  import Trace

  // ----- The policy under the workflow driver -----

  /** The engine's side of every call: any function of the policy's state and the question. */
  datatype Oracle = Oracle(
    engine: (State, CapabilityAgent, seq<CapabilityAgent>, bool) -> Engine,
    accepts: State -> (nat -> bool))

  /** The policy's state, the demand it was last shown, and the leave queries its roster called
      for but a decision stopped short of. */
  datatype Arm = Arm(state: State, steps: seq<Step>, missed: nat)

  function RosterFor(cfg: Config, steps: seq<Step>): seq<nat>
    requires InForce(cfg)
  {
    RosterBelow(RequiredByRole(steps, cfg.nRoles, cfg.nBits), cfg.nRoles)
  }

  /** The queries a decision does not build: all of them without a task in force, those past the
      failing one when a query cannot be built. */
  function Missed(cfg: Config, a: Arm, engine: Engine): (n: nat)
    requires InForce(cfg)
    ensures n <= |RosterFor(cfg, a.steps)|
  {
    var n := |RosterFor(cfg, a.steps)|;
    if a.state.task.None? then n
    else if engine.QueryFails? && engine.at < n then n - engine.at - 1
    else 0
  }

  function Answered(cfg: Config, roles: map<nat, nat>, oracle: Oracle, a: Arm, agent: CapabilityAgent,
                    coalition: seq<CapabilityAgent>, leave: bool): (Arm, Decision)
    requires InForce(cfg)
  {
    var engine := oracle.engine(a.state, agent, coalition, leave);
    var r := DecideStep(cfg, roles, a.state, agent, coalition, leave, engine);
    (Arm(r.0, a.steps, a.missed + if leave then Missed(cfg, a, engine) else 0), r.1)
  }

  /** The group policy as the driver sees it. */
  function ArmRules(cfg: Config, roles: map<nat, nat>, oracle: Oracle): Policy<Arm>
    requires InForce(cfg)
  {
    Policy(
      (a: Arm, required, steps) => Arm(BeginStep(cfg, a.state, steps), steps, a.missed),
      (a: Arm, agent, coalition, required) => Answered(cfg, roles, oracle, a, agent, coalition, false),
      (a: Arm, agent, coalition, required) => Answered(cfg, roles, oracle, a, agent, coalition, true),
      (a: Arm, required, perBit, members) => a.(state := ObserveStep(cfg, a.state, |perBit|, oracle.accepts(a.state))))
  }

  /** The role map names every agent of the pool with its role, and ids tell agents apart. */
  ghost predicate Mapped(inst: Instance, roles: map<nat, nat>) {
    |inst.roles| == |inst.agents| &&
    (forall i :: 0 <= i < |inst.agents| ==> inst.agents[i].id in roles && roles[inst.agents[i].id] == inst.roles[i]) &&
    forall i, j :: 0 <= i < j < |inst.agents| ==> inst.agents[i].id != inst.agents[j].id
  }

  function ParticipantOf(inst: Instance, i: nat): Participant
    requires i < |inst.agents| && i < |inst.roles|
  {
    Participant(inst.roles[i], inst.agents[i].id, inst.agents[i].capabilities)
  }

  function ParticipantsOf(inst: Instance, members: seq<nat>): seq<Participant>
    requires InPool(inst.agents, members) && |inst.roles| == |inst.agents|
  {
    seq(|members|, k requires 0 <= k < |members| => ParticipantOf(inst, members[k]))
  }

  lemma ResolveStep(roles: map<nat, nat>, coalition: seq<CapabilityAgent>, last: CapabilityAgent,
                    members: seq<Participant>)
    requires Resolve(roles, coalition) == Some(members) && last.id in roles
    ensures Resolve(roles, coalition + [last]) ==
            Some(members + [Participant(roles[last.id], last.id, last.capabilities)])
  {
    assert (coalition + [last])[..|coalition|] == coalition;
  }

  lemma {:induction false} EveryoneResolves(inst: Instance, roles: map<nat, nat>, members: seq<nat>)
    requires Mapped(inst, roles) && InPool(inst.agents, members)
    ensures Resolve(roles, Views(inst.agents, members)) == Some(ParticipantsOf(inst, members))
    decreases |members|
  {
    hide Resolve, Mapped;
    MappedPool(inst, roles);
    if members == [] {
      NobodyResolves(roles);
      assert Views(inst.agents, members) == [] && ParticipantsOf(inst, members) == [];
    } else {
      var init, last := members[..|members| - 1], members[|members| - 1];
      EveryoneResolves(inst, roles, init);
      var agent := inst.agents[last];
      assert agent.id in roles && roles[agent.id] == inst.roles[last] by { MappedAt(inst, roles, last); }
      ResolveStep(roles, Views(inst.agents, init), agent, ParticipantsOf(inst, init));
      assert Views(inst.agents, members) == Views(inst.agents, init) + [agent];
      assert ParticipantsOf(inst, members) == ParticipantsOf(inst, init) + [ParticipantOf(inst, last)];
    }
  }

  lemma MappedPool(inst: Instance, roles: map<nat, nat>)
    requires Mapped(inst, roles)
    ensures |inst.roles| == |inst.agents|
  {
  }

  lemma MappedAt(inst: Instance, roles: map<nat, nat>, i: nat)
    requires Mapped(inst, roles) && i < |inst.agents|
    ensures |inst.roles| == |inst.agents|
    ensures inst.agents[i].id in roles && roles[inst.agents[i].id] == inst.roles[i]
  {
  }

  lemma NobodyResolves(roles: map<nat, nat>)
    ensures Resolve(roles, []) == Some([])
  {
  }

  /** The replay's union, over pool indices, is the policy's, over ids. */
  lemma {:induction false} SameUnion(inst: Instance, roles: map<nat, nat>, role: nat, agent: nat, members: seq<nat>,
                                     leave: bool)
    requires Mapped(inst, roles) && InPool(inst.agents, members) && agent < |inst.agents|
    ensures UnionOf(inst, role, agent, members, leave) ==
            MemberUnion(true, role, ParticipantsOf(inst, members), leave, inst.agents[agent].id)
    decreases |members|
  {
    if members != [] {
      var init := members[..|members| - 1];
      SameUnion(inst, roles, role, agent, init, leave);
      assert ParticipantsOf(inst, members)[..|members| - 1] == ParticipantsOf(inst, init);
    }
  }

  lemma SameMasks(cfg: Config, inst: Instance, roles: map<nat, nat>, role: nat, agent: nat, members: seq<nat>,
                  leave: bool)
    requires cfg.masks == RoleMatched && Mapped(inst, roles) && InPool(inst.agents, members) && agent < |inst.agents|
    ensures var m := MasksFor(cfg, role, ParticipantOf(inst, agent), ParticipantsOf(inst, members), leave);
            RoleMasks(inst, role, agent, members, leave) == (m.cfg0, m.cfg1)
  {
    hide UnionOf, MemberUnion;
    SameUnion(inst, roles, role, agent, members, leave);
  }

  lemma {:induction false} SameIdentical(cfg: Config, inst: Instance, roles: map<nat, nat>, roster: seq<nat>, k: nat,
                                         agent: nat, members: seq<nat>)
    requires cfg.masks == RoleMatched && Mapped(inst, roles) && InPool(inst.agents, members) && agent < |inst.agents|
    requires k <= |roster|
    ensures IdenticalOnLeave(inst, roster, k, agent, members) ==
            Identical(cfg, roster, k, ParticipantOf(inst, agent), ParticipantsOf(inst, members), true)
  {
    hide RoleMasks, MasksFor;
    if k > 0 {
      SameIdentical(cfg, inst, roles, roster, k - 1, agent, members);
      SameMasks(cfg, inst, roles, roster[k - 1], agent, members, true);
    }
  }

  // ----- One question -----

  ghost predicate RolesInRange(cfg: Config, steps: seq<Step>) {
    forall k :: 0 <= k < |steps| ==> steps[k].role < cfg.nRoles
  }

  /** The task in force is the one its last shown demand opens; in a run of `ranged` demands
      that demand is one. */
  ghost predicate Shown(cfg: Config, a: Arm, ranged: bool)
    requires InForce(cfg)
  {
    (ranged ==> RolesInRange(cfg, a.steps)) &&
    match BeginOutcomeOf(cfg, a.steps)
    case Opened(task) => a.state.task == Some(task)
    case RefusedDemand(_) => a.state.task == None
  }

  /** A read's share of the tally: the queries built, and those of them with equal masks. */
  lemma ReadTally(cfg: Config, c: Counters, roster: seq<nat>, candidate: Participant, members: seq<Participant>,
                  engine: Engine)
    ensures var built := if engine.QueryFails? && engine.at < |roster| then engine.at + 1 else |roster|;
            var r := ReadStep(cfg, c, roster, candidate, members, true, engine).0;
            r.leaveQueries == c.leaveQueries + built &&
            r.leaveIdentical == c.leaveIdentical + Identical(cfg, roster, built, candidate, members, true) &&
            r.declinesUpstream >= c.declinesUpstream &&
            (built < |roster| ==> r.declinesUpstream > 0)
  {
    hide Identical, Sensitive, Routed, IndexOf;
  }

  /** A decision whose participants all resolve, with a task in force. */
  lemma MappedDecision(cfg: Config, inst: Instance, roles: map<nat, nat>, st: State, i: nat, members: seq<nat>,
                       leave: bool, engine: Engine)
    requires Mapped(inst, roles) && InPool(inst.agents, members) && i < |inst.agents| && st.task.Some?
    ensures |inst.roles| == |inst.agents|
    ensures var after := DecideStep(cfg, roles, st, inst.agents[i], Views(inst.agents, members), leave, engine).0;
            after.task == st.task &&
            after.counters == ReadStep(cfg, st.counters.(decisions := st.counters.decisions + 1), st.task.value.roster,
                                       ParticipantOf(inst, i), ParticipantsOf(inst, members), leave, engine).0
  {
    hide ReadStep, Resolve, Mapped;
    EveryoneResolves(inst, roles, members);
    MappedAt(inst, roles, i);
  }

  /** The roster in force is the one the shown demand calls for; without one there is either no
      demand or a role out of range. */
  lemma ShownRoster(cfg: Config, a: Arm, ranged: bool)
    requires InForce(cfg) && Shown(cfg, a, ranged)
    ensures a.state.task.Some? ==> a.state.task.value.roster == RosterFor(cfg, a.steps)
    ensures a.state.task.None? && ranged ==> RosterFor(cfg, a.steps) == []
  {
    hide RosterBelow, RequiredByRole;
  }

  /** The ledger after a leave question of which `built` queries were built. */
  ghost predicate LeaveTallied(inst: Instance, roster: seq<nat>, built: nat, i: nat, members: seq<nat>, c: Counters,
                               d: Counters)
    requires built <= |roster|
  {
    d.leaveQueries == c.leaveQueries + built &&
    d.leaveIdentical == c.leaveIdentical + IdenticalOnLeave(inst, roster, built, i, members) &&
    d.declinesUpstream >= c.declinesUpstream
  }

  lemma LeaveTallyOpen(cfg: Config, inst: Instance, roles: map<nat, nat>, st: State, i: nat, members: seq<nat>,
                       engine: Engine)
    requires cfg.masks == RoleMatched && st.task.Some?
    requires Mapped(inst, roles) && InPool(inst.agents, members) && i < |inst.agents|
    ensures var after := DecideStep(cfg, roles, st, inst.agents[i], Views(inst.agents, members), true, engine).0;
            var roster := st.task.value.roster;
            var built := if engine.QueryFails? && engine.at < |roster| then engine.at + 1 else |roster|;
            after.task == st.task && LeaveTallied(inst, roster, built, i, members, st.counters, after.counters) &&
            (built < |roster| ==> after.counters.declinesUpstream > 0)
  {
    hide DecideStep, ReadStep, Identical, IdenticalOnLeave, Views, Mapped;
    var roster := st.task.value.roster;
    var built := if engine.QueryFails? && engine.at < |roster| then engine.at + 1 else |roster|;
    MappedDecision(cfg, inst, roles, st, i, members, true, engine);
    var c := st.counters.(decisions := st.counters.decisions + 1);
    ReadTally(cfg, c, roster, ParticipantOf(inst, i), ParticipantsOf(inst, members), engine);
    SameIdentical(cfg, inst, roles, roster, built, i, members);
  }

  lemma LeaveTallyClosed(cfg: Config, inst: Instance, roles: map<nat, nat>, st: State, agent: CapabilityAgent,
                         coalition: seq<CapabilityAgent>, engine: Engine, roster: seq<nat>, i: nat, members: seq<nat>)
    requires st.task.None?
    ensures var after := DecideStep(cfg, roles, st, agent, coalition, true, engine).0;
            after.task == st.task && LeaveTallied(inst, roster, 0, i, members, st.counters, after.counters)
  {
    hide Resolve, ReadStep;
  }

  /** The ledger's share of a leave question: the queries built, and those with equal masks. */
  lemma LeaveTally(cfg: Config, inst: Instance, roles: map<nat, nat>, a: Arm, i: nat, members: seq<nat>,
                   engine: Engine, ranged: bool)
    requires InForce(cfg) && cfg.masks == RoleMatched && Shown(cfg, a, ranged)
    requires Mapped(inst, roles) && InPool(inst.agents, members) && i < |inst.agents|
    ensures var st := DecideStep(cfg, roles, a.state, inst.agents[i], Views(inst.agents, members), true, engine).0;
            var roster := RosterFor(cfg, a.steps);
            st.task == a.state.task &&
            LeaveTallied(inst, roster, |roster| - Missed(cfg, a, engine), i, members, a.state.counters, st.counters) &&
            (ranged && Missed(cfg, a, engine) > 0 ==> st.counters.declinesUpstream > 0)
  {
    hide Shown, RosterFor, Mapped, Views, InForce, DecideStep, LeaveTallied;
    ShownRoster(cfg, a, ranged);
    if a.state.task.Some? {
      LeaveTallyOpen(cfg, inst, roles, a.state, i, members, engine);
    } else {
      LeaveTallyClosed(cfg, inst, roles, a.state, inst.agents[i], Views(inst.agents, members), engine,
                       RosterFor(cfg, a.steps), i, members);
    }
  }

  lemma JoinTally(cfg: Config, roles: map<nat, nat>, st: State, agent: CapabilityAgent,
                  coalition: seq<CapabilityAgent>, engine: Engine)
    ensures var r := DecideStep(cfg, roles, st, agent, coalition, false, engine).0;
            r.task == st.task && r.counters.leaveQueries == st.counters.leaveQueries &&
            r.counters.leaveIdentical == st.counters.leaveIdentical &&
            r.counters.declinesUpstream >= st.counters.declinesUpstream
  {
    hide Identical, Sensitive, Routed, IndexOf, Resolve;
  }

  /** The replay is where the policy is: its query count exceeds the ledger's by the missed
      queries, its equal-mask count by no more than those. With every demand in range a missed query shows
      as an upstream decline. */
  ghost predicate Mirrors(a: Arm, members: seq<nat>, pos: nat, r: Replay, ranged: bool) {
    var c := a.state.counters;
    (ranged && c.declinesUpstream == 0 ==> a.missed == 0) &&
    !r.ended && r.members == members && r.pos == pos &&
    r.leaveQueries == c.leaveQueries + a.missed &&
    c.leaveIdentical <= r.leaveIdentical <= c.leaveIdentical + a.missed
  }

  lemma {:induction false} IdenticalGrows(inst: Instance, roster: seq<nat>, j: nat, k: nat, agent: nat,
                                          members: seq<nat>)
    requires j <= k <= |roster|
    ensures var a := IdenticalOnLeave(inst, roster, j, agent, members);
            var b := IdenticalOnLeave(inst, roster, k, agent, members);
            a <= b <= a + (k - j)
  {
    hide RoleMasks;
    if j < k {
      IdenticalGrows(inst, roster, j, k - 1, agent, members);
    }
  }

  lemma JoinMirrored(cfg: Config, inst: Instance, roles: map<nat, nat>, oracle: Oracle, p: Pass<Arm>, required: Mask,
                     i: nat, trace: seq<TraceEntry>, base: nat, r: Replay, ranged: bool)
    requires InForce(cfg) && Shown(cfg, p.state, ranged) && InPool(inst.agents, p.members) && i < |inst.agents|
    requires Mirrors(p.state, p.members, base + |p.entries|, r, ranged)
    requires Trace.Holds(trace, base, JoinOne(ArmRules(cfg, roles, oracle), p, inst.agents, required, i).entries)
    ensures var q := JoinOne(ArmRules(cfg, roles, oracle), p, inst.agents, required, i);
            Mirrors(q.state, q.members, base + |q.entries|, JoinRead(trace, r, i), ranged) &&
            Shown(cfg, q.state, ranged) && q.state.steps == p.state.steps
  {
    hide DecideStep, BeginOutcomeOf, Views, Missed;
    var q := JoinOne(ArmRules(cfg, roles, oracle), p, inst.agents, required, i);
    var coalition := Views(inst.agents, p.members);
    JoinTally(cfg, roles, p.state.state, inst.agents[i], coalition,
              oracle.engine(p.state.state, inst.agents[i], coalition, false));
    assert trace[base + |p.entries|] == q.entries[|p.entries|];
  }

  /** The driver's leave question put to the policy. */
  lemma LeaveAnswered(cfg: Config, inst: Instance, roles: map<nat, nat>, oracle: Oracle, p: Pass<Arm>, required: Mask,
                      i: nat)
    requires InForce(cfg) && InPool(inst.agents, p.members) && i < |inst.agents| && i in p.members
    ensures var q := LeaveOne(ArmRules(cfg, roles, oracle), p, inst.agents, required, i);
            var coalition := Views(inst.agents, p.members);
            var engine := oracle.engine(p.state.state, inst.agents[i], coalition, true);
            q.state == Arm(DecideStep(cfg, roles, p.state.state, inst.agents[i], coalition, true, engine).0,
                           p.state.steps, p.state.missed + Missed(cfg, p.state, engine))
  {
    hide DecideStep, Missed, Views, RemoveAt, InForce;
  }

  lemma LeaveMirrored(cfg: Config, inst: Instance, roles: map<nat, nat>, oracle: Oracle, p: Pass<Arm>, required: Mask,
                      i: nat, trace: seq<TraceEntry>, base: nat, r: Replay, ranged: bool)
    requires InForce(cfg) && cfg.masks == RoleMatched && Shown(cfg, p.state, ranged) && Mapped(inst, roles)
    requires InPool(inst.agents, p.members) && i < |inst.agents|
    requires Mirrors(p.state, p.members, base + |p.entries|, r, ranged)
    requires Trace.Holds(trace, base, LeaveOne(ArmRules(cfg, roles, oracle), p, inst.agents, required, i).entries)
    ensures var q := LeaveOne(ArmRules(cfg, roles, oracle), p, inst.agents, required, i);
            Mirrors(q.state, q.members, base + |q.entries|,
                    LeaveRead(inst, RosterFor(cfg, p.state.steps), trace, r, i), ranged) &&
            Shown(cfg, q.state, ranged) && q.state.steps == p.state.steps
  {
    hide DecideStep, BeginOutcomeOf, Views, Missed, RosterFor, IdenticalOnLeave, Position, RemoveAt, Mapped,
         LeaveOne, ArmRules, RolesInRange, InForce, Trace.Holds;
    var q := LeaveOne(ArmRules(cfg, roles, oracle), p, inst.agents, required, i);
    Trace.LeaveRecords(ArmRules(cfg, roles, oracle), p, inst.agents, required, i);
    if i in p.members {
      var engine := oracle.engine(p.state.state, inst.agents[i], Views(inst.agents, p.members), true);
      var roster := RosterFor(cfg, p.state.steps);
      LeaveAnswered(cfg, inst, roles, oracle, p, required, i);
      LeaveTally(cfg, inst, roles, p.state, i, p.members, engine, ranged);
      IdenticalGrows(inst, roster, |roster| - Missed(cfg, p.state, engine), |roster|, i, p.members);
      Trace.HoldsInit(trace, base, p.entries, q.entries);
    }
  }

  // ----- Whole runs -----

  lemma {:induction false} JoinsMirrored(cfg: Config, inst: Instance, roles: map<nat, nat>, oracle: Oracle, a: Arm,
                                         task: Task, trace: seq<TraceEntry>, base: nat, r0: Replay, ranged: bool,
                                         k: nat)
    requires InForce(cfg) && Shown(cfg, a, ranged) && InPool(inst.agents, task.arrival) && k <= |task.arrival|
    requires Mirrors(a, r0.members, base, r0, ranged)
    requires Trace.Holds(trace, base, Joins(ArmRules(cfg, roles, oracle), a, inst.agents, task, k).entries)
    ensures var q := Joins(ArmRules(cfg, roles, oracle), a, inst.agents, task, k);
            Mirrors(q.state, q.members, base + |q.entries|, JoinsRead(trace, task.arrival, r0, k), ranged) &&
            Shown(cfg, q.state, ranged) && q.state.steps == a.steps
  {
    hide Joins, JoinOne, ArmRules, JoinsRead, JoinRead, Shown;
    JoinsReadStep(trace, task.arrival, r0, if k == 0 then 0 else k - 1);
    var rules := ArmRules(cfg, roles, oracle);
    if k == 0 {
      NobodyJoined(rules, a, inst.agents, task);
    } else {
      JoinsStep(rules, a, inst.agents, task, k - 1);
      if k > 1 {
        var p, q := Joins(rules, a, inst.agents, task, k - 1), Joins(rules, a, inst.agents, task, k);
        Trace.JoinRecords(rules, p, inst.agents, task.required, task.arrival[k - 1]);
        Trace.HoldsInit(trace, base, p.entries, q.entries);
        JoinsMirrored(cfg, inst, roles, oracle, a, task, trace, base, r0, ranged, k - 1);
        JoinMirrored(cfg, inst, roles, oracle, p, task.required, task.arrival[k - 1], trace, base,
                     JoinsRead(trace, task.arrival, r0, k - 1), ranged);
      }
    }
  }

  lemma {:induction false} LeavesMirrored(cfg: Config, inst: Instance, roles: map<nat, nat>, oracle: Oracle,
                                          p0: Pass<Arm>,
                                          task: Task, trace: seq<TraceEntry>, base: nat, r0: Replay, ranged: bool,
                                          k: nat)
    requires InForce(cfg) && cfg.masks == RoleMatched && Shown(cfg, p0.state, ranged) && Mapped(inst, roles)
    requires InPool(inst.agents, task.arrival) && InPool(inst.agents, p0.members) && k <= |task.arrival|
    requires Mirrors(p0.state, p0.members, base + |p0.entries|, r0, ranged)
    requires Trace.Holds(trace, base, Leaves(ArmRules(cfg, roles, oracle), p0, inst.agents, task, k).entries)
    ensures var q := Leaves(ArmRules(cfg, roles, oracle), p0, inst.agents, task, k);
            Mirrors(q.state, q.members, base + |q.entries|,
                    LeavesRead(inst, RosterFor(cfg, p0.state.steps), trace, task.arrival, r0, k), ranged) &&
            Shown(cfg, q.state, ranged) && q.state.steps == p0.state.steps
  {
    hide Leaves, LeaveOne, ArmRules, LeaveRead, Shown, RosterFor, Position, RemoveAt;
    var rules := ArmRules(cfg, roles, oracle);
    if k == 0 {
      NothingSwept(rules, p0, inst.agents, task);
    } else {
      LeavesStep(rules, p0, inst.agents, task, k - 1);
      var p, q := Leaves(rules, p0, inst.agents, task, k - 1), Leaves(rules, p0, inst.agents, task, k);
      Trace.LeaveRecords(rules, p, inst.agents, task.required, task.arrival[k - 1]);
      Trace.HoldsInit(trace, base, p.entries, q.entries);
      LeavesMirrored(cfg, inst, roles, oracle, p0, task, trace, base, r0, ranged, k - 1);
      LeaveMirrored(cfg, inst, roles, oracle, p, task.required, task.arrival[k - 1], trace, base,
                    LeavesRead(inst, RosterFor(cfg, p0.state.steps), trace, task.arrival, r0, k - 1), ranged);
    }
  }

  lemma SameRoster(cfg: Config, task: Task)
    requires InForce(cfg)
    ensures RosterOf(task, cfg.nRoles, cfg.nBits) == RosterFor(cfg, task.steps)
  {
    hide RosterBelow;
    forall i | 0 <= i < cfg.nRoles
      ensures DemandedBits(task.steps, cfg.nBits, i) == RequiredOf(task.steps, cfg.nBits, i)
    {
    }
    assert DemandedByRole(task.steps, cfg.nRoles, cfg.nBits) == RequiredByRole(task.steps, cfg.nRoles, cfg.nBits);
  }

  lemma BegunIsShown(cfg: Config, st: State, steps: seq<Step>, missed: nat)
    requires InForce(cfg)
    ensures forall ranged: bool :: (ranged ==> RolesInRange(cfg, steps)) ==>
              Shown(cfg, Arm(BeginStep(cfg, st, steps), steps, missed), ranged)
    ensures BeginStep(cfg, st, steps).counters.declinesUpstream == st.counters.declinesUpstream
    ensures BeginStep(cfg, st, steps).counters.leaveQueries == st.counters.leaveQueries
    ensures BeginStep(cfg, st, steps).counters.leaveIdentical == st.counters.leaveIdentical
  {
    hide BeginOutcomeOf, Advance;
  }

  lemma TaskMirrored(cfg: Config, inst: Instance, roles: map<nat, nat>, oracle: Oracle, a: Arm, task: Task,
                     trace: seq<TraceEntry>, base: nat, r: Replay, ranged: bool)
    requires InForce(cfg) && cfg.masks == RoleMatched && Mapped(inst, roles) && InPool(inst.agents, task.arrival)
    requires Mirrors(a, r.members, base, r, ranged)
    requires ranged ==> RolesInRange(cfg, task.steps)
    requires Trace.Holds(trace, base,
                         TaskPass(WorkflowDriver, ArmRules(cfg, roles, oracle), a, inst.agents, task).entries)
    ensures var q := TaskPass(WorkflowDriver, ArmRules(cfg, roles, oracle), a, inst.agents, task);
            Mirrors(q.state, q.members, base + |q.entries|, TaskRead(inst, trace, cfg.nRoles, cfg.nBits, task, r),
                    ranged)
  {
    hide Joins, Leaves, Shown, BeginStep, JoinsRead, LeavesRead, RosterOf, RosterFor, Answered, ObserveStep;
    var rules, n := ArmRules(cfg, roles, oracle), |task.arrival|;
    var begun := rules.begin(a, task.required, task.steps);
    BegunIsShown(cfg, a.state, task.steps, a.missed);
    var joined := Joins(rules, begun, inst.agents, task, n);
    Trace.LeavesExtend(rules, joined, inst.agents, task, n);
    JoinsMirrored(cfg, inst, roles, oracle, begun, task, trace, base, r, ranged, n);
    LeavesMirrored(cfg, inst, roles, oracle, joined, task, trace, base, JoinsRead(trace, task.arrival, r, n), ranged,
                   n);
    SameRoster(cfg, task);
  }

  lemma ObserveMirrored(cfg: Config, a: Arm, width: nat, accepts: nat -> bool, members: seq<nat>, pos: nat, r: Replay,
                        ranged: bool)
    requires Mirrors(a, members, pos, r, ranged)
    ensures Mirrors(a.(state := ObserveStep(cfg, a.state, width, accepts)), members, pos, r, ranged) &&
            r.members == members
  {
    hide Advance, Applied;
  }

  ghost predicate AllInRange(cfg: Config, inst: Instance) {
    forall t :: 0 <= t < |inst.tasks| ==> RolesInRange(cfg, inst.tasks[t].steps)
  }

  lemma InRangeAt(cfg: Config, inst: Instance, t: nat)
    requires t < |inst.tasks|
    ensures AllInRange(cfg, inst) ==> RolesInRange(cfg, inst.tasks[t].steps)
  {
  }

  lemma NothingMirrored(cfg: Config, ranged: bool)
    ensures Mirrors(Arm(Initial(cfg), [], 0), [], 0, Replay([], 0, 0, 0, false), ranged)
  {
  }

  lemma {:induction false} RunMirrored(cfg: Config, inst: ValidInstance, roles: map<nat, nat>, oracle: Oracle,
                                       sig: Signals, trace: seq<TraceEntry>, k: nat)
    requires InForce(cfg) && cfg.masks == RoleMatched && Mapped(inst, roles) && k <= |inst.tasks|
    requires RunTasks(WorkflowDriver, ArmRules(cfg, roles, oracle), Arm(Initial(cfg), [], 0), inst, sig, k).entries
             <= trace
    ensures var run := RunTasks(WorkflowDriver, ArmRules(cfg, roles, oracle), Arm(Initial(cfg), [], 0), inst, sig, k);
            var r := TasksRead(inst, trace, cfg.nRoles, cfg.nBits, k);
            Mirrors(run.state, r.members, |run.entries|, r, AllInRange(cfg, inst))
  {
    hide RunTasks, TasksRead, TaskPass, TaskRead, MemberOutcomes, Answered, ObserveStep, BeginStep, Mapped, Mirrors,
         AllInRange;
    var rules, s := ArmRules(cfg, roles, oracle), Arm(Initial(cfg), [], 0);
    if k == 0 {
      NoTasksRun(WorkflowDriver, rules, s, inst, sig);
      NothingMirrored(cfg, AllInRange(cfg, inst));
      NoTaskRead(inst, trace, cfg.nRoles, cfg.nBits);
    } else {
      OneMoreTask(inst, trace, cfg.nRoles, cfg.nBits, k - 1);
      RunStep(WorkflowDriver, rules, s, inst, sig, k - 1);
      RunMirrored(cfg, inst, roles, oracle, sig, trace, k - 1);
      var before, task := RunTasks(WorkflowDriver, rules, s, inst, sig, k - 1), inst.tasks[k - 1];
      InRangeAt(cfg, inst, k - 1);
      TaskMirrored(cfg, inst, roles, oracle, before.state, task, trace, |before.entries|,
                   TasksRead(inst, trace, cfg.nRoles, cfg.nBits, k - 1), AllInRange(cfg, inst));
      var p := TaskPass(WorkflowDriver, rules, before.state, inst.agents, task);
      ObserveMirrored(cfg, p.state, |sig.perBit(k - 1, p.members)|, oracle.accepts(p.state.state), p.members,
                      |before.entries| + |p.entries|, TasksRead(inst, trace, cfg.nRoles, cfg.nBits, k),
                      AllInRange(cfg, inst));
    }
  }

  /** The run of the policy over an instance. */
  ghost function PolicyRun(cfg: Config, inst: ValidInstance, roles: map<nat, nat>, oracle: Oracle,
                           sig: Signals): Run<Arm>
    requires InForce(cfg)
  {
    RunTasks(WorkflowDriver, ArmRules(cfg, roles, oracle), Arm(Initial(cfg), [], 0), inst, sig, |inst.tasks|)
  }

  /** The mirror, for every run and every engine: the replay consumes the trace exactly, and
      both its counts are the policy's own if and only if no leave decision stopped before its
      roster's last query. */
  lemma MirrorAgrees(cfg: Config, inst: ValidInstance, roles: map<nat, nat>, oracle: Oracle, sig: Signals)
    requires InForce(cfg) && cfg.masks == RoleMatched && Mapped(inst, roles)
    ensures var run := PolicyRun(cfg, inst, roles, oracle, sig);
            var r, c := TasksRead(inst, run.entries, cfg.nRoles, cfg.nBits, |inst.tasks|), run.state.state.counters;
            !r.ended && r.pos == |run.entries| &&
            r.leaveQueries == c.leaveQueries + run.state.missed &&
            (r.leaveQueries == c.leaveQueries && r.leaveIdentical == c.leaveIdentical <==> run.state.missed == 0)
  {
    hide RunTasks, TasksRead, ArmRules;
    RunMirrored(cfg, inst, roles, oracle, sig, PolicyRun(cfg, inst, roles, oracle, sig).entries, |inst.tasks|);
  }

  /** What a reader of the ledger can check: with every demanded role in range and no upstream
      decline counted, the mirror's counts are the policy's. */
  lemma ErrorFreeRunsAgree(cfg: Config, inst: ValidInstance, roles: map<nat, nat>, oracle: Oracle, sig: Signals)
    requires InForce(cfg) && cfg.masks == RoleMatched && Mapped(inst, roles) && AllInRange(cfg, inst)
    ensures var run := PolicyRun(cfg, inst, roles, oracle, sig);
            var r, c := TasksRead(inst, run.entries, cfg.nRoles, cfg.nBits, |inst.tasks|), run.state.state.counters;
            c.declinesUpstream == 0 ==>
              r.leaveQueries == c.leaveQueries && r.leaveIdentical == c.leaveIdentical
  {
    hide RunTasks, TasksRead, ArmRules;
    RunMirrored(cfg, inst, roles, oracle, sig, PolicyRun(cfg, inst, roles, oracle, sig).entries, |inst.tasks|);
  }
}
