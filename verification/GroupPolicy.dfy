/** The group policy's ledger: a state machine over begin, decide and observe calls whose
    independent counters must agree. The inference engine is an oracle: what a read or an
    update comes to is a parameter of the call. */
module GroupPolicy {
  import opened Agents
  import opened Workflow
  import opened Wrappers
  import Routing

  // ----- Configuration -----

  datatype Models = RoleSpecialised | SharedModel
  datatype CoverageMasks = RoleMatched | RoleBlind
  datatype DecisionRead = Deterministic | SeededSampling
  datatype GroupVote = CertaintyWeighted | DeterministicVote
  datatype VoteRouting = Off | CandidateStar(lambda: real)

  datatype Config = Config(models: Models, masks: CoverageMasks, read: DecisionRead, vote: GroupVote,
                           routing: VoteRouting, nRoles: nat, nBits: nat)

  datatype ConfigError = UnsupportedReadVote | InvalidRoutingWeight(lambda: real) | UnsupportedRouting

  datatype Built = Accepted(config: Config) | Rejected(error: ConfigError)

  /** What the constructor makes of a configuration: the role count is clamped into 1..255. */
  function Build(cfg: Config): Built {
    if cfg.read == SeededSampling && cfg.vote != CertaintyWeighted then Rejected(UnsupportedReadVote)
    else if cfg.routing.CandidateStar? && !(0.0 <= cfg.routing.lambda <= 1.0) then
      Rejected(InvalidRoutingWeight(cfg.routing.lambda))
    else if cfg.routing.CandidateStar? && (cfg.read != Deterministic || cfg.vote != CertaintyWeighted) then
      Rejected(UnsupportedRouting)
    else
      Accepted(cfg.(nRoles := if cfg.nRoles == 0 then 1 else if cfg.nRoles > 255 then 255 else cfg.nRoles))
  }

  /** A configuration the constructor accepts, as it stores it; the universe has at most 16 bits. */
  predicate InForce(cfg: Config) {
    Build(cfg) == Accepted(cfg) && 1 <= cfg.nBits <= 16
  }

  // ----- State -----

  datatype OpenTask = OpenTask(required: seq<Mask>, roster: seq<nat>)

  /** One recorded read: the roster, how many of its members carried the candidate, the roster
      position of the candidate's role, the read's kind and its act. */
  datatype Sample = Sample(roster: nat, candidateSensitive: nat, centre: Option<nat>, leave: bool, groupAct: bool)

  datatype Counters = Counters(
    tasksObserved: nat, decisions: nat, readCount: nat,
    declinesUpstream: nat, declinesMissingRole: nat, declinesNoDemand: nat,
    rosterSizes: seq<nat>, leaveQueries: nat, leaveIdentical: nat, emptyRoleSlots: nat,
    agreement: seq<Sample>, routedReads: nat, beginRejections: nat, outcomesUnapplied: nat)

  datatype State = State(task: Option<OpenTask>, counters: Counters, updates: seq<nat>, expected: seq<nat>)

  function ModelCount(cfg: Config): nat {
    if cfg.models == RoleSpecialised then cfg.nRoles else 1
  }

  function Zeros(n: nat): seq<nat> {
    seq(n, _ => 0)
  }

  function Initial(cfg: Config): State {
    State(None, Counters(0, 0, 0, 0, 0, 0, [], 0, 0, 0, [], 0, 0, 0), Zeros(ModelCount(cfg)), Zeros(ModelCount(cfg)))
  }

  // ----- Beginning a task -----

  /** The demanded bits of a role inside the universe; other bits carry no factor. */
  function RequiredOf(steps: seq<Step>, nBits: nat, role: nat): (m: Mask)
    requires nBits <= 16
    ensures forall b: nat :: b in m <==> b < nBits && Step(b, role) in steps
  {
    set s | s in steps && s.role == role && s.bit < nBits :: s.bit
  }

  function RequiredByRole(steps: seq<Step>, nRoles: nat, nBits: nat): (r: seq<Mask>)
    requires nBits <= 16
    ensures |r| == nRoles && forall i :: 0 <= i < nRoles ==> r[i] == RequiredOf(steps, nBits, i)
  {
    seq(nRoles, (i: nat) => RequiredOf(steps, nBits, i))
  }

  /** The roles below `k` with demand, ascending. */
  function RosterBelow(required: seq<Mask>, k: nat): (r: seq<nat>)
    requires k <= |required|
    ensures forall x: nat :: x in r <==> x < k && required[x] != {}
    ensures forall i :: 0 <= i < |r| ==> r[i] < k
    ensures forall i, j :: 0 <= i < j < |r| ==> r[i] < r[j]
    ensures |r| <= k
  {
    if k == 0 then []
    else RosterBelow(required, k - 1) + if required[k - 1] == {} then [] else [k - 1]
  }

  datatype BeginError = RoleOutOfRange(role: nat) | EmptyDemand

  /** The first demanded step, in order, whose role is out of range. */
  function FirstOutOfRange(steps: seq<Step>, nRoles: nat): (k: nat)
    ensures k <= |steps|
    ensures forall i :: 0 <= i < k ==> steps[i].role < nRoles
    ensures k < |steps| ==> steps[k].role >= nRoles
  {
    if steps == [] || steps[0].role >= nRoles then 0 else 1 + FirstOutOfRange(steps[1..], nRoles)
  }

  datatype BeginOutcome = Opened(task: OpenTask) | RefusedDemand(error: BeginError)

  function BeginOutcomeOf(cfg: Config, steps: seq<Step>): BeginOutcome
    requires InForce(cfg)
  {
    var bad := FirstOutOfRange(steps, cfg.nRoles);
    if bad < |steps| then RefusedDemand(RoleOutOfRange(steps[bad].role))
    else
      var required := RequiredByRole(steps, cfg.nRoles, cfg.nBits);
      var roster := RosterBelow(required, cfg.nRoles);
      if roster == [] then RefusedDemand(EmptyDemand) else Opened(OpenTask(required, roster))
  }

  /** Each model asked to learn from a task gets one more: its roster's roles, or the shared one. */
  function Advance(cfg: Config, counts: seq<nat>, roster: seq<nat>, accepts: nat -> bool): (r: seq<nat>)
    ensures |r| == |counts|
  {
    seq(|counts|, i requires 0 <= i < |counts| =>
      if (cfg.models == SharedModel || i in roster) && accepts(i) then counts[i] + 1 else counts[i])
  }

  const Always: nat -> bool := _ => true

  function BeginStep(cfg: Config, st: State, steps: seq<Step>): State
    requires InForce(cfg)
  {
    match BeginOutcomeOf(cfg, steps)
    case RefusedDemand(_) =>
      st.(task := None, counters := st.counters.(beginRejections := st.counters.beginRejections + 1))
    case Opened(task) =>
      st.(task := Some(task),
          expected := Advance(cfg, st.expected, task.roster, Always),
          counters := st.counters.(
            rosterSizes := st.counters.rosterSizes + [|task.roster|],
            emptyRoleSlots := st.counters.emptyRoleSlots +
              if |task.roster| <= cfg.nRoles then cfg.nRoles - |task.roster| else 0))
  }

  // ----- Observing an outcome -----

  /** How many of a task's models applied the update. */
  function Applied(cfg: Config, roster: seq<nat>, accepts: nat -> bool): nat {
    if cfg.models == SharedModel then if accepts(0) then 1 else 0
    else if roster == [] then 0
    else Applied(cfg, roster[..|roster| - 1], accepts) + if accepts(roster[|roster| - 1]) then 1 else 0
  }

  /** The outcome reaches the models: the signal has the universe's width and a task is open. */
  predicate Effective(cfg: Config, st: State, width: nat) {
    width == cfg.nBits && st.task.Some?
  }

  function ObserveStep(cfg: Config, st: State, width: nat, accepts: nat -> bool): State {
    var c := st.counters;
    if !Effective(cfg, st, width) then
      st.(counters := c.(outcomesUnapplied := c.outcomesUnapplied + 1))
    else
      st.(updates := Advance(cfg, st.updates, st.task.value.roster, accepts),
          counters := c.(
            tasksObserved := c.tasksObserved + 1,
            outcomesUnapplied := c.outcomesUnapplied +
              if Applied(cfg, st.task.value.roster, accepts) == 0 then 1 else 0))
  }

  // ----- Deciding -----

  datatype Participant = Participant(role: nat, id: nat, capabilities: Mask)

  /** All-or-nothing: no participant may be missing from the role map. */
  function Resolve(roles: map<nat, nat>, coalition: seq<CapabilityAgent>): Option<seq<Participant>> {
    if coalition == [] then Some([])
    else
      var init, last := coalition[..|coalition| - 1], coalition[|coalition| - 1];
      match Resolve(roles, init)
      case None => None
      case Some(members) =>
        if last.id in roles then Some(members + [Participant(roles[last.id], last.id, last.capabilities)]) else None
  }

  datatype MaskPair = MaskPair(cfg0: Mask, cfg1: Mask, sensitive: bool)

  /** The union over the members that count for a role, less a leaving candidate. */
  function MemberUnion(matched: bool, role: nat, members: seq<Participant>, leave: bool, candidate: nat): Mask {
    if members == [] then {}
    else
      var m := members[|members| - 1];
      MemberUnion(matched, role, members[..|members| - 1], leave, candidate) +
      if (!matched || m.role == role) && !(leave && m.id == candidate) then m.capabilities else {}
  }

  function MasksFor(cfg: Config, role: nat, candidate: Participant, members: seq<Participant>, leave: bool): MaskPair {
    var matched := cfg.masks == RoleMatched;
    var union := MemberUnion(matched, role, members, leave, candidate.id);
    var sensitive := !matched || candidate.role == role;
    var own := if sensitive then candidate.capabilities else {};
    if leave then MaskPair(union + own, union, sensitive) else MaskPair(own, own + union, sensitive)
  }

  /** Of the first `k` roster members, those whose two masks coincide, and those the candidate
      reaches. */
  function Identical(cfg: Config, roster: seq<nat>, k: nat, candidate: Participant, members: seq<Participant>,
                     leave: bool): (n: nat)
    requires k <= |roster|
    ensures n <= k
  {
    if k == 0 then 0
    else
      var m := MasksFor(cfg, roster[k - 1], candidate, members, leave);
      Identical(cfg, roster, k - 1, candidate, members, leave) + if m.cfg0 == m.cfg1 then 1 else 0
  }

  function Sensitive(cfg: Config, roster: seq<nat>, k: nat, candidate: Participant, members: seq<Participant>,
                     leave: bool): (n: nat)
    requires k <= |roster|
    ensures n <= k
  {
    if k == 0 then 0
    else
      Sensitive(cfg, roster, k - 1, candidate, members, leave) +
      if MasksFor(cfg, roster[k - 1], candidate, members, leave).sensitive then 1 else 0
  }

  function IndexOf(roster: seq<nat>, role: nat): (c: Option<nat>)
    ensures c.Some? <==> role in roster
    ensures c.Some? ==> c.value < |roster| && roster[c.value] == role
  {
    if roster == [] then None
    else if roster[0] == role then Some(0)
    else
      match IndexOf(roster[1..], role)
      case None => None
      case Some(k) => Some(k + 1)
  }

  /** What the engine does with a decision's queries: refuse to build the query at a roster
      position, refuse the routing topology, fail the read, or read a probability of acting. */
  datatype Engine = QueryFails(at: nat) | TopologyFails | ReadFails | Reads(pAct: real)

  function Routed(cfg: Config, roster: nat, centre: Option<nat>): bool {
    match cfg.routing
    case Off => false
    case CandidateStar(lambda) =>
      match Routing.CandidateStar(roster, centre, lambda)
      case None => false
      case Some(built) => built.1
  }

  /** Leave queries are tallied whatever becomes of the read. */
  function TallyLeave(c: Counters, leave: bool, queries: nat, identical: nat): Counters {
    if leave then c.(leaveQueries := c.leaveQueries + queries, leaveIdentical := c.leaveIdentical + identical) else c
  }

  function Declined(): Decision {
    Decision(false, 0.0)
  }

  /** A decision once its participants are resolved. */
  function ReadStep(cfg: Config, c: Counters, roster: seq<nat>, candidate: Participant, members: seq<Participant>,
                    leave: bool, engine: Engine): (Counters, Decision)
  {
    var n := |roster|;
    if engine.QueryFails? && engine.at < n then
      var built := engine.at + 1;
      (TallyLeave(c.(declinesUpstream := c.declinesUpstream + 1), leave, built,
                  Identical(cfg, roster, built, candidate, members, leave)),
       Declined())
    else
      var tallied := TallyLeave(c, leave, n, Identical(cfg, roster, n, candidate, members, leave));
      if !engine.Reads? then (tallied.(declinesUpstream := tallied.declinesUpstream + 1), Declined())
      else
        var act := engine.pAct > 0.5;
        if cfg.routing.Off? && cfg.read == SeededSampling then
          (tallied.(readCount := tallied.readCount + 1), Decision(act, if act then 0.5 else -0.5))
        else
          var centre := IndexOf(roster, candidate.role);
          (tallied.(
             readCount := tallied.readCount + 1,
             routedReads := tallied.routedReads + (if Routed(cfg, n, centre) then 1 else 0),
             agreement := tallied.agreement +
               [Sample(n, Sensitive(cfg, roster, n, candidate, members, leave), centre, leave, act)]),
           Decision(act, engine.pAct - 0.5))
  }

  function DecideStep(cfg: Config, roles: map<nat, nat>, st: State, agent: CapabilityAgent,
                      coalition: seq<CapabilityAgent>, leave: bool, engine: Engine): (State, Decision)
  {
    var c := st.counters.(decisions := st.counters.decisions + 1);
    if st.task.None? then
      (st.(counters := c.(declinesNoDemand := c.declinesNoDemand + 1)), Declined())
    else
      var members := Resolve(roles, coalition);
      if agent.id !in roles || members.None? then
        (st.(counters := c.(declinesMissingRole := c.declinesMissingRole + 1)), Declined())
      else
        var r := ReadStep(cfg, c, st.task.value.roster, Participant(roles[agent.id], agent.id, agent.capabilities),
                          members.value, leave, engine);
        (st.(counters := r.0), r.1)
  }

  // ----- The object -----

  class GroupAifPolicy {
    const cfg: Config
    const roles: map<nat, nat>
    var task: Option<OpenTask>
    var counters: Counters
    var updates: seq<nat>
    var expected: seq<nat>

    ghost function Abs(): State
      reads this
    {
      State(task, counters, updates, expected)
    }

    constructor (cfg: Config, roles: map<nat, nat>)
      requires InForce(cfg)
      ensures this.cfg == cfg && this.roles == roles && Abs() == Initial(cfg)
    {
      this.cfg, this.roles := cfg, roles;
      task := None;
      counters := Counters(0, 0, 0, 0, 0, 0, [], 0, 0, 0, [], 0, 0, 0);
      updates, expected := Zeros(ModelCount(cfg)), Zeros(ModelCount(cfg));
    }

    /** Puts a demand in force, or clears the task and counts the refusal. */
    method BeginTask(steps: seq<Step>) returns (outcome: BeginOutcome)
      requires InForce(cfg)
      modifies this
      ensures Abs() == BeginStep(cfg, old(Abs()), steps)
      ensures outcome == BeginOutcomeOf(cfg, steps)
    {
      hide Advance;
      task := None;
      var required: seq<Mask> := seq(cfg.nRoles, _ => {});
      ghost var bad := FirstOutOfRange(steps, cfg.nRoles);
      for i := 0 to |steps|
        invariant i <= bad && task == None && unchanged(`counters, `updates, `expected)
        invariant |required| == cfg.nRoles
        invariant forall r :: 0 <= r < cfg.nRoles ==> required[r] == RequiredOf(steps[..i], cfg.nBits, r)
      {
        var step := steps[i];
        if step.role >= cfg.nRoles {
          counters := counters.(beginRejections := counters.beginRejections + 1);
          return RefusedDemand(RoleOutOfRange(step.role));
        }
        assert steps[..i + 1] == steps[..i] + [step];
        if step.bit < cfg.nBits {
          required := required[step.role := required[step.role] + {step.bit}];
        }
      }
      assert steps[..|steps|] == steps;
      assert required == RequiredByRole(steps, cfg.nRoles, cfg.nBits);
      var roster := RosterBelow(required, cfg.nRoles);
      if roster == [] {
        counters := counters.(beginRejections := counters.beginRejections + 1);
        return RefusedDemand(EmptyDemand);
      }
      counters := counters.(rosterSizes := counters.rosterSizes + [|roster|],
                            emptyRoleSlots := counters.emptyRoleSlots + (cfg.nRoles - |roster|));
      expected := Advance(cfg, expected, roster, Always);
      task := Some(OpenTask(required, roster));
      outcome := Opened(task.value);
    }

    method ObserveOutcome(width: nat, accepts: nat -> bool) returns (applied: nat)
      modifies this
      ensures Abs() == ObserveStep(cfg, old(Abs()), width, accepts)
      ensures applied == if Effective(cfg, old(Abs()), width) then Applied(cfg, task.value.roster, accepts) else 0
    {
      if width != cfg.nBits || task.None? {
        counters := counters.(outcomesUnapplied := counters.outcomesUnapplied + 1);
        return 0;
      }
      var roster := task.value.roster;
      applied := 0;
      if cfg.models == SharedModel {
        applied := if accepts(0) then 1 else 0;
      } else {
        for k := 0 to |roster|
          invariant applied == Applied(cfg, roster[..k], accepts)
        {
          assert roster[..k + 1][..k] == roster[..k];
          if accepts(roster[k]) {
            applied := applied + 1;
          }
        }
        assert roster[..|roster|] == roster;
      }
      updates := Advance(cfg, updates, roster, accepts);
      counters := counters.(tasksObserved := counters.tasksObserved + 1,
                            outcomesUnapplied := counters.outcomesUnapplied + if applied == 0 then 1 else 0);
    }

    /** One join or leave question; the masks are tallied as the queries are built. */
    method Decide(agent: CapabilityAgent, coalition: seq<CapabilityAgent>, leave: bool, engine: Engine)
      returns (d: Decision)
      modifies this
      ensures (Abs(), d) == DecideStep(cfg, roles, old(Abs()), agent, coalition, leave, engine)
    {
      hide MasksFor, Routed, Resolve;
      counters := counters.(decisions := counters.decisions + 1);
      if task.None? {
        counters := counters.(declinesNoDemand := counters.declinesNoDemand + 1);
        return Declined();
      }
      var members := Resolve(roles, coalition);
      if agent.id !in roles || members.None? {
        counters := counters.(declinesMissingRole := counters.declinesMissingRole + 1);
        return Declined();
      }
      counters, d := Read(counters, task.value.roster,
                          Participant(roles[agent.id], agent.id, agent.capabilities), members.value, leave, engine);
    }

    method Read(c: Counters, roster: seq<nat>, candidate: Participant, members: seq<Participant>,
                leave: bool, engine: Engine)
      returns (after: Counters, d: Decision)
      ensures (after, d) == ReadStep(cfg, c, roster, candidate, members, leave, engine)
    {
      hide MasksFor, Routed;
      var queries: nat, identical: nat, sensitive: nat := 0, 0, 0;
      for k := 0 to |roster|
        invariant queries == k && !(engine.QueryFails? && engine.at < k)
        invariant identical == Identical(cfg, roster, k, candidate, members, leave)
        invariant sensitive == Sensitive(cfg, roster, k, candidate, members, leave)
      {
        var masks := MasksFor(cfg, roster[k], candidate, members, leave);
        queries := queries + 1;
        if masks.cfg0 == masks.cfg1 {
          identical := identical + 1;
        }
        if engine == QueryFails(k) {
          return TallyLeave(c.(declinesUpstream := c.declinesUpstream + 1), leave, queries, identical), Declined();
        }
        if masks.sensitive {
          sensitive := sensitive + 1;
        }
      }
      after := TallyLeave(c, leave, queries, identical);
      if !engine.Reads? {
        return after.(declinesUpstream := after.declinesUpstream + 1), Declined();
      }
      var act := engine.pAct > 0.5;
      if cfg.routing.Off? && cfg.read == SeededSampling {
        return after.(readCount := after.readCount + 1), Decision(act, if act then 0.5 else -0.5);
      }
      var centre := IndexOf(roster, candidate.role);
      after := after.(readCount := after.readCount + 1,
                      routedReads := after.routedReads + (if Routed(cfg, |roster|, centre) then 1 else 0),
                      agreement := after.agreement + [Sample(|roster|, sensitive, centre, leave, act)]);
      d := Decision(act, engine.pAct - 0.5);
    }
  }

  // ----- Runs -----

  datatype Event =
    | Begin(steps: seq<Step>)
    | Observe(width: nat, accepts: nat -> bool)
    | Ask(agent: CapabilityAgent, coalition: seq<CapabilityAgent>, leave: bool, engine: Engine)

  function EventStep(cfg: Config, roles: map<nat, nat>, st: State, e: Event): State
    requires InForce(cfg)
  {
    match e
    case Begin(steps) => BeginStep(cfg, st, steps)
    case Observe(width, accepts) => ObserveStep(cfg, st, width, accepts)
    case Ask(agent, coalition, leave, engine) => DecideStep(cfg, roles, st, agent, coalition, leave, engine).0
  }

  function RunOf(cfg: Config, roles: map<nat, nat>, events: seq<Event>): State
    requires InForce(cfg)
  {
    if events == [] then Initial(cfg)
    else EventStep(cfg, roles, RunOf(cfg, roles, events[..|events| - 1]), events[|events| - 1])
  }

  // ----- Every run balances -----

  function SumOf(s: seq<nat>): nat {
    if s == [] then 0 else SumOf(s[..|s| - 1]) + s[|s| - 1]
  }

  /** The reads whose candidate's role had a place on a roster of two or more. */
  function CentredReads(samples: seq<Sample>): nat {
    if samples == [] then 0
    else
      var last := samples[|samples| - 1];
      CentredReads(samples[..|samples| - 1]) + if last.centre.Some? && last.roster >= 2 then 1 else 0
  }

  predicate RoutesSomething(cfg: Config) {
    cfg.routing.CandidateStar? && cfg.routing.lambda > 0.0
  }

  ghost predicate RosterHolds(cfg: Config, roster: seq<nat>) {
    roster != [] && |roster| <= cfg.nRoles &&
    forall i, j :: 0 <= i < j < |roster| ==> roster[i] < roster[j]
  }

  /** What every call keeps. */
  ghost predicate Balanced(cfg: Config, st: State) {
    var c := st.counters;
    (st.task.Some? ==> RosterHolds(cfg, st.task.value.roster)) &&
    c.decisions == c.readCount + c.declinesUpstream + c.declinesMissingRole + c.declinesNoDemand &&
    SumOf(c.rosterSizes) + c.emptyRoleSlots == cfg.nRoles * |c.rosterSizes| &&
    c.leaveIdentical <= c.leaveQueries &&
    (cfg.read == Deterministic ==> |c.agreement| == c.readCount) &&
    c.routedReads == (if RoutesSomething(cfg) then CentredReads(c.agreement) else 0)
  }

  lemma BeginBalances(cfg: Config, st: State, steps: seq<Step>)
    requires InForce(cfg) && Balanced(cfg, st)
    ensures Balanced(cfg, BeginStep(cfg, st, steps))
  {
    hide BeginOutcomeOf, SumOf, CentredReads, RosterHolds, InForce, Advance;
    var outcome := BeginOutcomeOf(cfg, steps);
    if outcome.Opened? {
      OpenedRoster(cfg, steps);
      SumGrows(st.counters.rosterSizes, |outcome.task.roster|, cfg.nRoles);
    }
  }

  lemma OpenedRoster(cfg: Config, steps: seq<Step>)
    requires InForce(cfg) && BeginOutcomeOf(cfg, steps).Opened?
    ensures var roster := BeginOutcomeOf(cfg, steps).task.roster;
            RosterHolds(cfg, roster) && |roster| <= cfg.nRoles
  {
  }

  lemma SumGrows(s: seq<nat>, x: nat, n: nat)
    ensures SumOf(s + [x]) == SumOf(s) + x
    ensures n * |s + [x]| == n * |s| + n
  {
    assert (s + [x])[..|s|] == s;
  }

  lemma ReadBalances(cfg: Config, c: Counters, roster: seq<nat>, candidate: Participant, members: seq<Participant>,
                     leave: bool, engine: Engine)
    requires InForce(cfg) && RosterHolds(cfg, roster)
    ensures var r := ReadStep(cfg, c, roster, candidate, members, leave, engine).0;
            r.readCount + r.declinesUpstream == c.readCount + c.declinesUpstream + 1 &&
            r.decisions == c.decisions && r.declinesMissingRole == c.declinesMissingRole &&
            r.declinesNoDemand == c.declinesNoDemand &&
            r.rosterSizes == c.rosterSizes && r.emptyRoleSlots == c.emptyRoleSlots &&
            (c.leaveIdentical <= c.leaveQueries ==> r.leaveIdentical <= r.leaveQueries) &&
            (cfg.read == Deterministic ==> |r.agreement| - |c.agreement| == r.readCount - c.readCount) &&
            (c.routedReads == (if RoutesSomething(cfg) then CentredReads(c.agreement) else 0) ==>
             r.routedReads == (if RoutesSomething(cfg) then CentredReads(r.agreement) else 0))
  {
    hide Identical, Sensitive;
    var r := ReadStep(cfg, c, roster, candidate, members, leave, engine).0;
    if |r.agreement| > |c.agreement| {
      assert r.agreement[..|c.agreement|] == c.agreement;
    }
  }

  lemma AskBalances(cfg: Config, roles: map<nat, nat>, st: State, agent: CapabilityAgent,
                    coalition: seq<CapabilityAgent>, leave: bool, engine: Engine)
    requires InForce(cfg) && Balanced(cfg, st)
    ensures Balanced(cfg, DecideStep(cfg, roles, st, agent, coalition, leave, engine).0)
  {
    hide ReadStep, Resolve;
    var members := Resolve(roles, coalition);
    if st.task.Some? && agent.id in roles && members.Some? {
      ReadBalances(cfg, st.counters.(decisions := st.counters.decisions + 1), st.task.value.roster,
                   Participant(roles[agent.id], agent.id, agent.capabilities), members.value, leave, engine);
    }
  }

  /** The ledger over every call sequence and every engine: decisions are reads plus the three
      declines; roster sizes and empty slots fill every opened task; every deterministic read
      left a sample; the routed reads are the centred ones, or none. */
  lemma {:induction false} EveryRunBalances(cfg: Config, roles: map<nat, nat>, events: seq<Event>)
    requires InForce(cfg)
    ensures Balanced(cfg, RunOf(cfg, roles, events))
    decreases |events|
  {
    hide Balanced, BeginStep, ObserveStep, DecideStep;
    if events == [] {
      assert Balanced(cfg, Initial(cfg)) by { InitialBalances(cfg); }
    } else {
      var init, last := events[..|events| - 1], events[|events| - 1];
      EveryRunBalances(cfg, roles, init);
      var st := RunOf(cfg, roles, init);
      match last {
        case Begin(steps) => BeginBalances(cfg, st, steps);
        case Observe(width, accepts) => ObserveBalances(cfg, st, width, accepts);
        case Ask(agent, coalition, leave, engine) => AskBalances(cfg, roles, st, agent, coalition, leave, engine);
      }
    }
  }

  lemma InitialBalances(cfg: Config)
    ensures Balanced(cfg, Initial(cfg))
  {
  }

  lemma ObserveBalances(cfg: Config, st: State, width: nat, accepts: nat -> bool)
    requires Balanced(cfg, st)
    ensures Balanced(cfg, ObserveStep(cfg, st, width, accepts))
  {
    hide Advance, Applied;
  }

  // ----- Routed reads and sensitive samples -----

  function SensitiveReads(samples: seq<Sample>): nat {
    if samples == [] then 0
    else
      var last := samples[|samples| - 1];
      SensitiveReads(samples[..|samples| - 1]) + if last.candidateSensitive > 0 && last.roster >= 2 then 1 else 0
  }

  /** Under role-matched masks the candidate reaches the one roster member of its role. */
  lemma {:induction false} SensitiveIsCentre(cfg: Config, roster: seq<nat>, k: nat, candidate: Participant,
                                             members: seq<Participant>, leave: bool)
    requires cfg.masks == RoleMatched && k <= |roster|
    requires forall i, j :: 0 <= i < j < |roster| ==> roster[i] < roster[j]
    ensures Sensitive(cfg, roster, k, candidate, members, leave) == if candidate.role in roster[..k] then 1 else 0
  {
    hide MemberUnion;
    if k > 0 {
      SensitiveIsCentre(cfg, roster, k - 1, candidate, members, leave);
      assert roster[..k] == roster[..k - 1] + [roster[k - 1]];
    }
  }

  ghost predicate SamplesMatch(samples: seq<Sample>) {
    forall i :: 0 <= i < |samples| ==> (samples[i].candidateSensitive > 0 <==> samples[i].centre.Some?)
  }

  lemma {:induction false} SamplesStayMatched(cfg: Config, roles: map<nat, nat>, events: seq<Event>)
    requires InForce(cfg) && cfg.masks == RoleMatched
    ensures SamplesMatch(RunOf(cfg, roles, events).counters.agreement)
    decreases |events|
  {
    hide Resolve, MasksFor, Identical, Sensitive, Advance, Applied, Balanced, BeginOutcomeOf;
    if events != [] {
      var init, last := events[..|events| - 1], events[|events| - 1];
      SamplesStayMatched(cfg, roles, init);
      EveryRunBalances(cfg, roles, init);
      var st := RunOf(cfg, roles, init);
      if last.Ask? && st.task.Some? && last.agent.id in roles && Resolve(roles, last.coalition).Some? {
        var roster := st.task.value.roster;
        TaskRosterHolds(cfg, st);
        var candidate := Participant(roles[last.agent.id], last.agent.id, last.agent.capabilities);
        SensitiveIsCentre(cfg, roster, |roster|, candidate, Resolve(roles, last.coalition).value, last.leave);
        assert roster[..|roster|] == roster;
      }
    }
  }

  lemma TaskRosterHolds(cfg: Config, st: State)
    requires Balanced(cfg, st) && st.task.Some?
    ensures RosterHolds(cfg, st.task.value.roster)
  {
  }

  lemma {:induction false} SameReads(samples: seq<Sample>)
    requires SamplesMatch(samples)
    ensures SensitiveReads(samples) == CentredReads(samples)
    decreases |samples|
  {
    if samples != [] {
      SameReads(samples[..|samples| - 1]);
    }
  }

  /** Two counters written independently agree: under role-matched masks the reads whose
      topology routed something are exactly the samples with a candidate-sensitive member on a
      roster of two or more, for every positive lambda; without routing or at zero lambda there
      are none. */
  lemma RoutedReadsAreSensitiveSamples(cfg: Config, roles: map<nat, nat>, events: seq<Event>)
    requires InForce(cfg) && cfg.masks == RoleMatched
    ensures var c := RunOf(cfg, roles, events).counters;
            c.routedReads == if RoutesSomething(cfg) then SensitiveReads(c.agreement) else 0
  {
    hide RunOf;
    EveryRunBalances(cfg, roles, events);
    SamplesStayMatched(cfg, roles, events);
    SameReads(RunOf(cfg, roles, events).counters.agreement);
  }

  // ----- The learning ledger -----

  /** One opened task: its roster, and how often its outcome was observed. */
  datatype Opening = Opening(roster: seq<nat>, observed: nat)

  /** The task stream of a run, and whether its last task is still in force. */
  datatype History = History(openings: seq<Opening>, open: bool)

  function HistoryStep(cfg: Config, h: History, e: Event): History
    requires InForce(cfg)
  {
    match e
    case Begin(steps) =>
      var outcome := BeginOutcomeOf(cfg, steps);
      if outcome.Opened? then History(h.openings + [Opening(outcome.task.roster, 0)], true)
      else History(h.openings, false)
    case Observe(width, _) =>
      if width == cfg.nBits && h.open && h.openings != [] then
        var n := |h.openings| - 1;
        History(h.openings[n := h.openings[n].(observed := h.openings[n].observed + 1)], true)
      else h
    case Ask(_, _, _, _) => h
  }

  function HistoryOf(cfg: Config, events: seq<Event>): History
    requires InForce(cfg)
  {
    if events == [] then History([], false)
    else HistoryStep(cfg, HistoryOf(cfg, events[..|events| - 1]), events[|events| - 1])
  }

  /** Model `m` learns from tasks with this roster. */
  predicate Concerns(cfg: Config, roster: seq<nat>, m: nat) {
    cfg.models == SharedModel || m in roster
  }

  function Demanded(cfg: Config, openings: seq<Opening>, m: nat): nat {
    if openings == [] then 0
    else
      Demanded(cfg, openings[..|openings| - 1], m) +
      if Concerns(cfg, openings[|openings| - 1].roster, m) then 1 else 0
  }

  function Observed(cfg: Config, openings: seq<Opening>, m: nat): nat {
    if openings == [] then 0
    else
      Observed(cfg, openings[..|openings| - 1], m) +
      if Concerns(cfg, openings[|openings| - 1].roster, m) then openings[|openings| - 1].observed else 0
  }

  function Observations(openings: seq<Opening>): nat {
    if openings == [] then 0
    else Observations(openings[..|openings| - 1]) + openings[|openings| - 1].observed
  }

  ghost predicate AllAccepted(events: seq<Event>) {
    forall i :: 0 <= i < |events| && events[i].Observe? ==> forall m :: events[i].accepts(m)
  }

  /** The state's counters are those of the task stream. */
  ghost predicate Records(cfg: Config, st: State, h: History, accepted: bool) {
    (st.task.Some? <==> h.open) &&
    (h.open ==> h.openings != [] && st.task.value.roster == h.openings[|h.openings| - 1].roster) &&
    |st.counters.rosterSizes| == |h.openings| &&
    st.counters.tasksObserved == Observations(h.openings) &&
    |st.updates| == |st.expected| == ModelCount(cfg) &&
    (forall m :: 0 <= m < ModelCount(cfg) ==> st.expected[m] == Demanded(cfg, h.openings, m)) &&
    (accepted ==> forall m :: 0 <= m < ModelCount(cfg) ==> st.updates[m] == Observed(cfg, h.openings, m))
  }

  lemma BeginRecords(cfg: Config, st: State, h: History, steps: seq<Step>, accepted: bool)
    requires InForce(cfg) && Records(cfg, st, h, accepted)
    ensures Records(cfg, BeginStep(cfg, st, steps), HistoryStep(cfg, h, Begin(steps)), accepted)
  {
    hide BeginOutcomeOf;
    var outcome := BeginOutcomeOf(cfg, steps);
    if outcome.Opened? {
      var longer := h.openings + [Opening(outcome.task.roster, 0)];
      assert longer[..|h.openings|] == h.openings;
    }
  }

  lemma ObserveRecords(cfg: Config, st: State, h: History, width: nat, accepts: nat -> bool, accepted: bool)
    requires InForce(cfg) && Records(cfg, st, h, accepted)
    requires accepted ==> forall m :: accepts(m)
    ensures Records(cfg, ObserveStep(cfg, st, width, accepts), HistoryStep(cfg, h, Observe(width, accepts)), accepted)
  {
    hide Applied;
    if Effective(cfg, st, width) {
      var n := |h.openings| - 1;
      var more := HistoryStep(cfg, h, Observe(width, accepts)).openings;
      assert more[..n] == h.openings[..n];
    }
  }

  lemma AskRecords(cfg: Config, roles: map<nat, nat>, st: State, h: History, agent: CapabilityAgent,
                   coalition: seq<CapabilityAgent>, leave: bool, engine: Engine, accepted: bool)
    requires Records(cfg, st, h, accepted)
    ensures Records(cfg, DecideStep(cfg, roles, st, agent, coalition, leave, engine).0, h, accepted)
  {
    hide Resolve, Identical, Sensitive, Routed;
  }

  lemma {:induction false} RunRecords(cfg: Config, roles: map<nat, nat>, events: seq<Event>)
    requires InForce(cfg)
    ensures Records(cfg, RunOf(cfg, roles, events), HistoryOf(cfg, events), AllAccepted(events))
    decreases |events|
  {
    hide Records, BeginStep, ObserveStep, DecideStep, HistoryStep;
    if events == [] {
      NothingRecorded(cfg);
    } else {
      var init, last := events[..|events| - 1], events[|events| - 1];
      RunRecords(cfg, roles, init);
      var st, h, accepted := RunOf(cfg, roles, init), HistoryOf(cfg, init), AllAccepted(events);
      assert accepted ==> AllAccepted(init) && (last.Observe? ==> forall m :: last.accepts(m)) by {
        assert events[|events| - 1] == last;
      }
      RecordsWeaker(cfg, st, h, AllAccepted(init), accepted);
      match last {
        case Begin(steps) => BeginRecords(cfg, st, h, steps, accepted);
        case Observe(width, accepts) => ObserveRecords(cfg, st, h, width, accepts, accepted);
        case Ask(agent, coalition, leave, engine) =>
          AskRecords(cfg, roles, st, h, agent, coalition, leave, engine, accepted);
          AskIsNoTask(cfg, h, last);
      }
    }
  }

  lemma NothingRecorded(cfg: Config)
    ensures forall accepted :: Records(cfg, Initial(cfg), History([], false), accepted)
  {
  }

  lemma RecordsWeaker(cfg: Config, st: State, h: History, stronger: bool, weaker: bool)
    requires Records(cfg, st, h, stronger) && (weaker ==> stronger)
    ensures Records(cfg, st, h, weaker)
  {
  }

  lemma AskIsNoTask(cfg: Config, h: History, e: Event)
    requires InForce(cfg) && e.Ask?
    ensures HistoryStep(cfg, h, e) == h
  {
  }

  /** The gate: every model advanced as often as expected, and as many outcomes were observed
      as tasks opened. */
  predicate SLearnExact(st: State) {
    |st.updates| == |st.expected| &&
    (forall m :: 0 <= m < |st.updates| ==> st.updates[m] == st.expected[m]) &&
    |st.counters.rosterSizes| == st.counters.tasksObserved
  }

  /** The gate in terms of the task stream: as many observations as openings, and for each
      model as many observations as openings of the tasks that concern it. */
  ghost predicate EvenlyObserved(cfg: Config, openings: seq<Opening>) {
    Observations(openings) == |openings| &&
    forall m: nat :: m < ModelCount(cfg) ==> Observed(cfg, openings, m) == Demanded(cfg, openings, m)
  }

  lemma GateOfRecords(cfg: Config, st: State, h: History)
    requires Records(cfg, st, h, true)
    ensures SLearnExact(st) <==> EvenlyObserved(cfg, h.openings)
  {
    hide Observed, Demanded, Observations;
    assert forall m: nat :: m < ModelCount(cfg) ==>
      st.updates[m] == Observed(cfg, h.openings, m) && st.expected[m] == Demanded(cfg, h.openings, m);
  }

  /** What the gate means for a run whose updates all applied. */
  lemma GateInTermsOfTasks(cfg: Config, roles: map<nat, nat>, events: seq<Event>)
    requires InForce(cfg) && AllAccepted(events)
    ensures SLearnExact(RunOf(cfg, roles, events)) <==> EvenlyObserved(cfg, HistoryOf(cfg, events).openings)
  {
    hide RunOf, HistoryOf, Records, EvenlyObserved, SLearnExact;
    RunRecords(cfg, roles, events);
    GateOfRecords(cfg, RunOf(cfg, roles, events), HistoryOf(cfg, events));
  }

  lemma {:induction false} OncePerTask(cfg: Config, openings: seq<Opening>, m: nat)
    requires forall i :: 0 <= i < |openings| ==> openings[i].observed == 1
    ensures Observations(openings) == |openings| && Observed(cfg, openings, m) == Demanded(cfg, openings, m)
    decreases |openings|
  {
    if openings != [] {
      OncePerTask(cfg, openings[..|openings| - 1], m);
    }
  }

  lemma {:induction false} OneSlip(openings: seq<Opening>, k: nat)
    requires forall i :: 0 <= i < |openings| && i != k ==> openings[i].observed == 1
    ensures k < |openings| ==> Observations(openings) + 1 == |openings| + openings[k].observed
    ensures k >= |openings| ==> Observations(openings) == |openings|
    decreases |openings|
  {
    if openings != [] {
      OneSlip(openings[..|openings| - 1], k);
    }
  }

  /** Every outcome was observed once, but for at most task `k`. */
  ghost predicate OnceBut(openings: seq<Opening>, k: nat) {
    forall i :: 0 <= i < |openings| && i != k ==> openings[i].observed == 1
  }

  lemma PairTotals(cfg: Config, roster: seq<nat>, m: nat)
    ensures var pair := [Opening(roster, 0), Opening(roster, 2)];
            Observations(pair) == 2 && Observed(cfg, pair, m) == Demanded(cfg, pair, m)
  {
    var pair := [Opening(roster, 0), Opening(roster, 2)];
    var head := pair[..1];
    assert head == [Opening(roster, 0)] && head[..0] == [];
    assert Observations(head) == 0 && Observed(cfg, head, m) == 0;
    assert Demanded(cfg, head, m) == if Concerns(cfg, roster, m) then 1 else 0;
  }

  /** The gate does not see slips that cancel: two tasks of one demand, the first never observed
      and the second observed twice, pass it. */
  lemma CancellingSlipsPass(cfg: Config, roles: map<nat, nat>, steps: seq<Step>)
    requires InForce(cfg)
    requires BeginOutcomeOf(cfg, steps).Opened?
    ensures var events := [Begin(steps), Begin(steps), Observe(cfg.nBits, Always), Observe(cfg.nBits, Always)];
            var openings := HistoryOf(cfg, events).openings;
            SLearnExact(RunOf(cfg, roles, events)) && |openings| == 2 &&
            openings[0].observed == 0 && openings[1].observed == 2
  {
    hide RunOf, BeginOutcomeOf, Observed, Demanded, Observations;
    var roster := BeginOutcomeOf(cfg, steps).task.roster;
    var e1 := [Begin(steps)];
    var e2 := e1 + [Begin(steps)];
    var e3 := e2 + [Observe(cfg.nBits, Always)];
    var e4 := e3 + [Observe(cfg.nBits, Always)];
    assert e1[..0] == [] && e2[..1] == e1 && e3[..2] == e2 && e4[..3] == e3;
    assert HistoryOf(cfg, e1) == History([Opening(roster, 0)], true);
    assert HistoryOf(cfg, e2) == History([Opening(roster, 0), Opening(roster, 0)], true);
    assert HistoryOf(cfg, e3) == History([Opening(roster, 0), Opening(roster, 1)], true);
    assert HistoryOf(cfg, e4) == History([Opening(roster, 0), Opening(roster, 2)], true);
    assert e4 == [Begin(steps), Begin(steps), Observe(cfg.nBits, Always), Observe(cfg.nBits, Always)];
    forall m: nat
      ensures Observations([Opening(roster, 0), Opening(roster, 2)]) == 2
      ensures Observed(cfg, [Opening(roster, 0), Opening(roster, 2)], m) ==
              Demanded(cfg, [Opening(roster, 0), Opening(roster, 2)], m)
    {
      PairTotals(cfg, roster, m);
    }
    PairTotals(cfg, roster, 0);
    GateInTermsOfTasks(cfg, roles, e4);
  }

  /** A single task skipped or observed more than once fails the gate, whatever the engine
      accepts; with every update applied, strict alternation passes it. */
  lemma OneSlipFailsTheGate(cfg: Config, roles: map<nat, nat>, events: seq<Event>, k: nat)
    requires InForce(cfg)
    requires var openings := HistoryOf(cfg, events).openings; k < |openings| && OnceBut(openings, k)
    ensures HistoryOf(cfg, events).openings[k].observed != 1 ==> !SLearnExact(RunOf(cfg, roles, events))
    ensures HistoryOf(cfg, events).openings[k].observed == 1 && AllAccepted(events) ==>
            SLearnExact(RunOf(cfg, roles, events))
  {
    hide RunOf, HistoryOf, Observed, Demanded, Observations, AllAccepted;
    RunRecords(cfg, roles, events);
    var openings := HistoryOf(cfg, events).openings;
    OneSlip(openings, k);
    if openings[k].observed == 1 && AllAccepted(events) {
      forall m: nat ensures Observed(cfg, openings, m) == Demanded(cfg, openings, m) {
        OncePerTask(cfg, openings, m);
      }
      GateInTermsOfTasks(cfg, roles, events);
    }
  }
}
