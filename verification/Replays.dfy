/** The replay of a recorded run over its instance: the members, the leave-path counts, and one
    record per decision of what the candidate's own role saw. */
module Replays {
  import opened Agents
  import opened GroupPolicy
  import opened Workflow
  import opened Wrappers
  import Trace

  // ----- The replay -----

  /** A replay in progress: the members, the next entry, the two leave-path counts, and whether
      the trace ran out. */
  datatype Replay = Replay(members: seq<nat>, pos: nat, leaveQueries: nat, leaveIdentical: nat, ended: bool)

  predicate HasRole(inst: Instance, i: nat, role: nat) {
    i < |inst.roles| && inst.roles[i] == role
  }

  function Caps(inst: Instance, i: nat): Mask {
    if i < |inst.agents| then inst.agents[i].capabilities else {}
  }

  function UnionOf(inst: Instance, role: nat, agent: nat, members: seq<nat>, leave: bool): Mask {
    if members == [] then {}
    else
      var m := members[|members| - 1];
      UnionOf(inst, role, agent, members[..|members| - 1], leave) +
      if HasRole(inst, m, role) && !(leave && m == agent) then Caps(inst, m) else {}
  }

  /** The two masks of one role's query about `agent`, by pool index. */
  function RoleMasks(inst: Instance, role: nat, agent: nat, members: seq<nat>, leave: bool): (Mask, Mask) {
    var union := UnionOf(inst, role, agent, members, leave);
    var own := if HasRole(inst, agent, role) then Caps(inst, agent) else {};
    if leave then (union + own, union) else (own, own + union)
  }

  /** Of the first `k` roster members, those whose two leave masks coincide. */
  function IdenticalOnLeave(inst: Instance, roster: seq<nat>, k: nat, agent: nat, members: seq<nat>): (n: nat)
    requires k <= |roster|
    ensures n <= k
  {
    if k == 0 then 0
    else
      var masks := RoleMasks(inst, roster[k - 1], agent, members, true);
      IdenticalOnLeave(inst, roster, k - 1, agent, members) + if masks.0 == masks.1 then 1 else 0
  }

  /** The demanded bits of each role, as the replay collects them: any bit or role outside its
      table is skipped. */
  function DemandedBits(steps: seq<Step>, nBits: nat, role: nat): (m: Mask)
    ensures forall b: nat :: b in m <==> b < nBits && b < 32 && Step(b, role) in steps
  {
    set s | s in steps && s.role == role && s.bit < nBits && s.bit < 32 :: s.bit
  }

  function DemandedByRole(steps: seq<Step>, nRoles: nat, nBits: nat): (r: seq<Mask>)
    ensures |r| == nRoles && forall i :: 0 <= i < nRoles ==> r[i] == DemandedBits(steps, nBits, i)
  {
    seq(nRoles, (i: nat) => DemandedBits(steps, nBits, i))
  }

  function RosterOf(task: Task, nRoles: nat, nBits: nat): seq<nat> {
    RosterBelow(DemandedByRole(task.steps, nRoles, nBits), nRoles)
  }

  /** A join question read from the trace. */
  function JoinRead(trace: seq<TraceEntry>, r: Replay, i: nat): Replay {
    if r.ended then r
    else if r.pos >= |trace| then r.(ended := true)
    else r.(pos := r.pos + 1, members := if trace[r.pos].act then r.members + [i] else r.members)
  }

  function JoinsRead(trace: seq<TraceEntry>, arrival: seq<nat>, r0: Replay, k: nat): Replay
    requires k <= |arrival|
  {
    if k == 0 then r0.(members := [])
    else if k == 1 then r0.(members := [arrival[0]])
    else JoinRead(trace, JoinsRead(trace, arrival, r0, k - 1), arrival[k - 1])
  }

  /** A leave question read from the trace, with its masks tallied. */
  function LeaveRead(inst: Instance, roster: seq<nat>, trace: seq<TraceEntry>, r: Replay, i: nat): Replay {
    if r.ended || i !in r.members then r
    else if r.pos >= |trace| then r.(ended := true)
    else
      r.(pos := r.pos + 1,
         leaveQueries := r.leaveQueries + |roster|,
         leaveIdentical := r.leaveIdentical + IdenticalOnLeave(inst, roster, |roster|, i, r.members),
         members := if trace[r.pos].act then RemoveAt(r.members, Position(r.members, i)) else r.members)
  }

  function LeavesRead(inst: Instance, roster: seq<nat>, trace: seq<TraceEntry>, arrival: seq<nat>, r0: Replay,
                      k: nat): Replay
    requires k <= |arrival|
  {
    if k == 0 then r0
    else LeaveRead(inst, roster, trace, LeavesRead(inst, roster, trace, arrival, r0, k - 1), arrival[k - 1])
  }

  function TaskRead(inst: Instance, trace: seq<TraceEntry>, nRoles: nat, nBits: nat, task: Task, r: Replay): Replay {
    if r.ended then r
    else
      var n := |task.arrival|;
      LeavesRead(inst, RosterOf(task, nRoles, nBits), trace, task.arrival, JoinsRead(trace, task.arrival, r, n), n)
  }

  function TasksRead(inst: Instance, trace: seq<TraceEntry>, nRoles: nat, nBits: nat, k: nat): Replay
    requires k <= |inst.tasks|
  {
    if k == 0 then Replay([], 0, 0, 0, false)
    else TaskRead(inst, trace, nRoles, nBits, inst.tasks[k - 1], TasksRead(inst, trace, nRoles, nBits, k - 1))
  }

  lemma JoinsReadStep(trace: seq<TraceEntry>, arrival: seq<nat>, r0: Replay, k: nat)
    requires k <= |arrival|
    ensures JoinsRead(trace, arrival, r0, 0) == r0.(members := [])
    ensures k < |arrival| ==>
              JoinsRead(trace, arrival, r0, k + 1) ==
              if k == 0 then r0.(members := [arrival[0]])
              else JoinRead(trace, JoinsRead(trace, arrival, r0, k), arrival[k])
  {
  }

  lemma NoTaskRead(inst: Instance, trace: seq<TraceEntry>, nRoles: nat, nBits: nat)
    ensures TasksRead(inst, trace, nRoles, nBits, 0) == Replay([], 0, 0, 0, false)
  {
  }

  lemma OneMoreTask(inst: Instance, trace: seq<TraceEntry>, nRoles: nat, nBits: nat, t: nat)
    requires t < |inst.tasks|
    ensures TasksRead(inst, trace, nRoles, nBits, t + 1) ==
            TaskRead(inst, trace, nRoles, nBits, inst.tasks[t], TasksRead(inst, trace, nRoles, nBits, t))
  {
  }

  method RequiredByRoleOf(task: Task, nRoles: nat, nBits: nat) returns (required: seq<Mask>)
    ensures required == DemandedByRole(task.steps, nRoles, nBits)
  {
    required := seq(nRoles, _ => {});
    for i := 0 to |task.steps|
      invariant |required| == nRoles
      invariant forall r :: 0 <= r < nRoles ==> required[r] == DemandedBits(task.steps[..i], nBits, r)
    {
      var step := task.steps[i];
      assert task.steps[..i + 1] == task.steps[..i] + [step];
      if step.bit < nBits && step.bit < 32 && step.role < nRoles {
        required := required[step.role := required[step.role] + {step.bit}];
      }
    }
    assert task.steps[..|task.steps|] == task.steps;
  }

  method CountIdentical(inst: Instance, roster: seq<nat>, agent: nat, members: seq<nat>) returns (n: nat)
    ensures n == IdenticalOnLeave(inst, roster, |roster|, agent, members)
  {
    hide RoleMasks;
    n := 0;
    for k := 0 to |roster|
      invariant n == IdenticalOnLeave(inst, roster, k, agent, members)
    {
      var masks := RoleMasks(inst, roster[k], agent, members, true);
      if masks.0 == masks.1 {
        n := n + 1;
      }
    }
  }

  // ----- One record per decision -----

  /** What the candidate's own role sees: whether its two masks agree on the demanded bits, and
      whether one of its last two tasks covered a bit demanded now. */
  datatype CentreClass = CentreClass(identical: bool, window: bool)

  /** A decision of the trace; no class when the candidate's role has no demand. */
  datatype Read = Read(task: nat, leave: bool, act: bool, centre: Option<CentreClass>)

  /** A task as its reads see it: the demanded bits and the window of each role. */
  datatype Posed = Posed(task: nat, required: seq<Mask>, windows: seq<seq<Mask>>)

  function CentreOf(inst: Instance, q: Posed, agent: nat, members: seq<nat>, leave: bool): Option<CentreClass>
    requires |q.windows| == |q.required|
  {
    if agent >= |inst.roles| || inst.roles[agent] !in RosterBelow(q.required, |q.required|) then None
    else
      var role := inst.roles[agent];
      var masks := RoleMasks(inst, role, agent, members, leave);
      Some(CentreClass(masks.0 * q.required[role] == masks.1 * q.required[role],
                       exists seen :: seen in q.windows[role] && seen * q.required[role] != {}))
  }

  /** The record of a question put to the replay; none when there is nothing to read. */
  function ReadAt(inst: Instance, q: Posed, trace: seq<TraceEntry>, r: Replay, agent: nat, leave: bool): seq<Read>
    requires |q.windows| == |q.required|
  {
    if r.ended || r.pos >= |trace| || (leave && agent !in r.members) then []
    else [Read(q.task, leave, trace[r.pos].act, CentreOf(inst, q, agent, r.members, leave))]
  }

  function JoinsReads(inst: Instance, q: Posed, trace: seq<TraceEntry>, arrival: seq<nat>, r0: Replay,
                      k: nat): seq<Read>
    requires |q.windows| == |q.required| && k <= |arrival|
  {
    if k <= 1 then []
    else
      JoinsReads(inst, q, trace, arrival, r0, k - 1) +
      ReadAt(inst, q, trace, JoinsRead(trace, arrival, r0, k - 1), arrival[k - 1], false)
  }

  function LeavesReads(inst: Instance, q: Posed, trace: seq<TraceEntry>, arrival: seq<nat>, r0: Replay,
                       k: nat): seq<Read>
    requires |q.windows| == |q.required| && k <= |arrival|
  {
    if k == 0 then []
    else
      LeavesReads(inst, q, trace, arrival, r0, k - 1) +
      ReadAt(inst, q, trace, LeavesRead(inst, RosterBelow(q.required, |q.required|), trace, arrival, r0, k - 1),
             arrival[k - 1], true)
  }

  function TaskReads(inst: Instance, q: Posed, trace: seq<TraceEntry>, arrival: seq<nat>, r0: Replay): seq<Read>
    requires |q.windows| == |q.required|
  {
    var n := |arrival|;
    JoinsReads(inst, q, trace, arrival, r0, n) +
    LeavesReads(inst, q, trace, arrival, JoinsRead(trace, arrival, r0, n), n)
  }

  /** The demanded bits below the signal's width that the final members cover. */
  function CoveredBits(inst: Instance, members: seq<nat>, steps: seq<Step>, width: nat): (m: Mask)
    ensures forall b: nat :: b in m <==>
            exists s :: s in steps && s.bit == b && b < width && StepCovered(inst, members, s)
  {
    set s | s in steps && s.bit < width && StepCovered(inst, members, s) :: s.bit
  }

  /** The covered demanded bits of a role on each of the first `k` tasks that demand it. */
  function Seen(inst: Instance, widths: seq<nat>, trace: seq<TraceEntry>, nRoles: nat, nBits: nat, role: nat,
                k: nat): seq<Mask>
    requires |widths| == |inst.tasks| && k <= |inst.tasks|
  {
    if k == 0 then []
    else
      var before, task := Seen(inst, widths, trace, nRoles, nBits, role, k - 1), inst.tasks[k - 1];
      var demanded := DemandedBits(task.steps, nBits, role);
      if demanded == {} then before
      else
        var members := TasksRead(inst, trace, nRoles, nBits, k).members;
        before + [demanded * CoveredBits(inst, members, task.steps, widths[k - 1])]
  }

  function LastTwo(s: seq<Mask>): seq<Mask> {
    if |s| <= 2 then s else s[|s| - 2..]
  }

  function WindowsAt(inst: Instance, widths: seq<nat>, trace: seq<TraceEntry>, nRoles: nat, nBits: nat, k: nat):
    (w: seq<seq<Mask>>)
    requires |widths| == |inst.tasks| && k <= |inst.tasks|
    ensures |w| == nRoles
    ensures forall r :: 0 <= r < nRoles ==> w[r] == LastTwo(Seen(inst, widths, trace, nRoles, nBits, r, k))
  {
    seq(nRoles, (r: nat) => LastTwo(Seen(inst, widths, trace, nRoles, nBits, r, k)))
  }

  function PosedAt(inst: Instance, widths: seq<nat>, trace: seq<TraceEntry>, nRoles: nat, nBits: nat,
                   t: nat): (q: Posed)
    requires |widths| == |inst.tasks| && t < |inst.tasks|
    ensures q.task == t && |q.windows| == |q.required| == nRoles
  {
    Posed(t, DemandedByRole(inst.tasks[t].steps, nRoles, nBits), WindowsAt(inst, widths, trace, nRoles, nBits, t))
  }

  function TasksReads(inst: Instance, widths: seq<nat>, trace: seq<TraceEntry>, nRoles: nat, nBits: nat,
                      k: nat): seq<Read>
    requires |widths| == |inst.tasks| && k <= |inst.tasks|
  {
    if k == 0 then []
    else
      var before, r := TasksReads(inst, widths, trace, nRoles, nBits, k - 1),
                       TasksRead(inst, trace, nRoles, nBits, k - 1);
      if r.ended then before
      else before +
           TaskReads(inst, PosedAt(inst, widths, trace, nRoles, nBits, k - 1), trace, inst.tasks[k - 1].arrival, r)
  }

  lemma OneMoreJoin(inst: Instance, q: Posed, trace: seq<TraceEntry>, arrival: seq<nat>, r0: Replay, k: nat)
    requires |q.windows| == |q.required| && 0 < k < |arrival|
    ensures JoinsReads(inst, q, trace, arrival, r0, k + 1) ==
            JoinsReads(inst, q, trace, arrival, r0, k) +
            ReadAt(inst, q, trace, JoinsRead(trace, arrival, r0, k), arrival[k], false)
    ensures JoinsRead(trace, arrival, r0, k + 1) == JoinRead(trace, JoinsRead(trace, arrival, r0, k), arrival[k])
  {
  }

  lemma OneMoreLeave(inst: Instance, q: Posed, trace: seq<TraceEntry>, arrival: seq<nat>, r0: Replay, k: nat)
    requires |q.windows| == |q.required| && k < |arrival|
    ensures var roster := RosterBelow(q.required, |q.required|);
            var r := LeavesRead(inst, roster, trace, arrival, r0, k);
            LeavesReads(inst, q, trace, arrival, r0, k + 1) ==
            LeavesReads(inst, q, trace, arrival, r0, k) + ReadAt(inst, q, trace, r, arrival[k], true) &&
            LeavesRead(inst, roster, trace, arrival, r0, k + 1) == LeaveRead(inst, roster, trace, r, arrival[k])
  {
  }

  /** One task's replay, up to its end or the trace's. */
  method ReplayTask(inst: Instance, q: Posed, trace: seq<TraceEntry>, arrival: seq<nat>, r0: Replay)
    returns (r: Replay, records: seq<Read>)
    requires !r0.ended && |q.windows| == |q.required|
    ensures r == LeavesRead(inst, RosterBelow(q.required, |q.required|), trace, arrival,
                            JoinsRead(trace, arrival, r0, |arrival|), |arrival|)
    ensures records == TaskReads(inst, q, trace, arrival, r0)
  {
    hide IdenticalOnLeave, RemoveAt, Position, CentreOf, JoinsRead, JoinsReads, LeavesRead, LeavesReads;
    var roster := RosterBelow(q.required, |q.required|);
    r, records := r0.(members := if arrival == [] then [] else [arrival[0]]), [];
    FirstJoin(inst, q, trace, arrival, r0);
    for k := if arrival == [] then 0 else 1 to |arrival|
      invariant r == JoinsRead(trace, arrival, r0, k) && records == JoinsReads(inst, q, trace, arrival, r0, k)
    {
      OneMoreJoin(inst, q, trace, arrival, r0, k);
      if !r.ended {
        if r.pos >= |trace| {
          r := r.(ended := true);
        } else {
          var centre := CentreOf(inst, q, arrival[k], r.members, false);
          records := records + [Read(q.task, false, trace[r.pos].act, centre)];
          r := r.(pos := r.pos + 1, members := if trace[r.pos].act then r.members + [arrival[k]] else r.members);
        }
      }
    }
    ghost var joined, asked := r, records;
    NoLeave(inst, q, trace, arrival, joined);
    for k := 0 to |arrival|
      invariant r == LeavesRead(inst, roster, trace, arrival, joined, k)
      invariant records == asked + LeavesReads(inst, q, trace, arrival, joined, k)
    {
      OneMoreLeave(inst, q, trace, arrival, joined, k);
      var pos := Position(r.members, arrival[k]);
      if !r.ended && pos < |r.members| {
        if r.pos >= |trace| {
          r := r.(ended := true);
        } else {
          var identical := CountIdentical(inst, roster, arrival[k], r.members);
          var centre := CentreOf(inst, q, arrival[k], r.members, true);
          records := records + [Read(q.task, true, trace[r.pos].act, centre)];
          r := r.(pos := r.pos + 1,
                  leaveQueries := r.leaveQueries + |roster|,
                  leaveIdentical := r.leaveIdentical + identical,
                  members := if trace[r.pos].act then RemoveAt(r.members, pos) else r.members);
        }
      }
    }
  }

  lemma FirstJoin(inst: Instance, q: Posed, trace: seq<TraceEntry>, arrival: seq<nat>, r0: Replay)
    requires |q.windows| == |q.required|
    ensures JoinsRead(trace, arrival, r0, 0) == r0.(members := []) && JoinsReads(inst, q, trace, arrival, r0, 0) == []
    ensures arrival != [] ==> JoinsRead(trace, arrival, r0, 1) == r0.(members := [arrival[0]]) &&
                              JoinsReads(inst, q, trace, arrival, r0, 1) == []
  {
  }

  lemma NoLeave(inst: Instance, q: Posed, trace: seq<TraceEntry>, arrival: seq<nat>, r0: Replay)
    requires |q.windows| == |q.required|
    ensures LeavesRead(inst, RosterBelow(q.required, |q.required|), trace, arrival, r0, 0) == r0
    ensures LeavesReads(inst, q, trace, arrival, r0, 0) == []
  {
  }

  /** The windows after a task: each demanded role's gains what the final members covered of its
      demand, and keeps the last two. */
  method Slide(windows: seq<seq<Mask>>, required: seq<Mask>, covered: Mask) returns (after: seq<seq<Mask>>)
    requires |windows| == |required|
    ensures |after| == |windows|
    ensures forall r :: 0 <= r < |after| ==>
              after[r] == if required[r] == {} then windows[r] else Slid(windows[r], required[r] * covered)
  {
    after := windows;
    for r := 0 to |required|
      invariant |after| == |windows|
      invariant forall i :: 0 <= i < |after| ==>
                  after[i] == if i >= r || required[i] == {} then windows[i]
                              else Slid(windows[i], required[i] * covered)
    {
      if required[r] != {} {
        var window: seq<Mask> := after[r] + [required[r] * covered];
        if |window| > 2 {
          window := window[1..];
        }
        after := after[r := window];
      }
    }
  }

  function Slid(window: seq<Mask>, x: Mask): seq<Mask> {
    if |window| >= 2 then window[1..] + [x] else window + [x]
  }

  lemma LastTwoSlides(s: seq<Mask>, x: Mask)
    ensures LastTwo(s + [x]) == Slid(LastTwo(s), x)
  {
  }

  /** The replay over a trace, to its end. */
  method ReplayTrace(inst: Instance, widths: seq<nat>, trace: seq<TraceEntry>, nRoles: nat, nBits: nat)
    returns (r: Replay, records: seq<Read>)
    requires |widths| == |inst.tasks|
    ensures r == TasksRead(inst, trace, nRoles, nBits, |inst.tasks|)
    ensures records == TasksReads(inst, widths, trace, nRoles, nBits, |inst.tasks|)
  {
    hide JoinsRead, LeavesRead, DemandedByRole, RosterBelow, TaskReads, Seen, LastTwo, CoveredBits, Slid;
    r, records := Replay([], 0, 0, 0, false), [];
    var windows: seq<seq<Mask>> := seq(nRoles, _ => []);
    WindowsStart(inst, widths, trace, nRoles, nBits);
    for t := 0 to |inst.tasks|
      invariant r == TasksRead(inst, trace, nRoles, nBits, t) && !r.ended
      invariant records == TasksReads(inst, widths, trace, nRoles, nBits, t)
      invariant windows == WindowsAt(inst, widths, trace, nRoles, nBits, t)
    {
      var task := inst.tasks[t];
      var required := RequiredByRoleOf(task, nRoles, nBits);
      var now, asked := ReplayTask(inst, Posed(t, required, windows), trace, task.arrival, r);
      assert now == TasksRead(inst, trace, nRoles, nBits, t + 1);
      r, records := now, records + asked;
      if r.ended {
        EndStays(inst, trace, nRoles, nBits, t + 1, |inst.tasks|);
        NoMoreReads(inst, widths, trace, nRoles, nBits, t + 1, |inst.tasks|);
        return;
      }
      ghost var before := windows;
      windows := Slide(windows, required, CoveredBits(inst, r.members, task.steps, widths[t]));
      WindowsStep(inst, widths, trace, nRoles, nBits, t, before, windows);
    }
  }

  lemma WindowsStart(inst: Instance, widths: seq<nat>, trace: seq<TraceEntry>, nRoles: nat, nBits: nat)
    requires |widths| == |inst.tasks|
    ensures WindowsAt(inst, widths, trace, nRoles, nBits, 0) == seq(nRoles, _ => [])
  {
  }

  lemma SeenStep(inst: Instance, widths: seq<nat>, trace: seq<TraceEntry>, nRoles: nat, nBits: nat, role: nat, t: nat)
    requires |widths| == |inst.tasks| && t < |inst.tasks|
    ensures var seen, task := Seen(inst, widths, trace, nRoles, nBits, role, t), inst.tasks[t];
            var demanded, members := DemandedBits(task.steps, nBits, role),
                                     TasksRead(inst, trace, nRoles, nBits, t + 1).members;
            Seen(inst, widths, trace, nRoles, nBits, role, t + 1) ==
            if demanded == {} then seen else seen + [demanded * CoveredBits(inst, members, task.steps, widths[t])]
  {
    hide TasksRead, CoveredBits, DemandedBits;
  }

  lemma WindowsStep(inst: Instance, widths: seq<nat>, trace: seq<TraceEntry>, nRoles: nat, nBits: nat, t: nat,
                    before: seq<seq<Mask>>, after: seq<seq<Mask>>)
    requires |widths| == |inst.tasks| && t < |inst.tasks|
    requires before == WindowsAt(inst, widths, trace, nRoles, nBits, t) && |after| == nRoles
    requires var task, required := inst.tasks[t], DemandedByRole(inst.tasks[t].steps, nRoles, nBits);
             var members := TasksRead(inst, trace, nRoles, nBits, t + 1).members;
             forall r :: 0 <= r < nRoles ==>
               after[r] == if required[r] == {} then before[r]
                           else Slid(before[r], required[r] * CoveredBits(inst, members, task.steps, widths[t]))
    ensures after == WindowsAt(inst, widths, trace, nRoles, nBits, t + 1)
  {
    hide LastTwo, Slid, CoveredBits, TasksRead;
    var task, members := inst.tasks[t], TasksRead(inst, trace, nRoles, nBits, t + 1).members;
    forall r | 0 <= r < nRoles
      ensures after[r] == LastTwo(Seen(inst, widths, trace, nRoles, nBits, r, t + 1))
    {
      SeenStep(inst, widths, trace, nRoles, nBits, r, t);
      var now: Mask := DemandedBits(task.steps, nBits, r) * CoveredBits(inst, members, task.steps, widths[t]);
      var seen := Seen(inst, widths, trace, nRoles, nBits, r, t);
      LastTwoSlides(seen, now);
      assert before[r] == LastTwo(seen);
      assert DemandedByRole(task.steps, nRoles, nBits)[r] == DemandedBits(task.steps, nBits, r);
    }
  }

  lemma {:induction false} NoMoreReads(inst: Instance, widths: seq<nat>, trace: seq<TraceEntry>, nRoles: nat,
                                       nBits: nat, j: nat, k: nat)
    requires |widths| == |inst.tasks| && j <= k <= |inst.tasks| && TasksRead(inst, trace, nRoles, nBits, j).ended
    ensures TasksReads(inst, widths, trace, nRoles, nBits, k) == TasksReads(inst, widths, trace, nRoles, nBits, j)
  {
    hide TaskReads, PosedAt, TasksRead;
    if j < k {
      NoMoreReads(inst, widths, trace, nRoles, nBits, j, k - 1);
      EndStays(inst, trace, nRoles, nBits, j, k - 1);
    }
  }

  lemma {:induction false} EndStays(inst: Instance, trace: seq<TraceEntry>, nRoles: nat, nBits: nat, j: nat, k: nat)
    requires j <= k <= |inst.tasks| && TasksRead(inst, trace, nRoles, nBits, j).ended
    ensures TasksRead(inst, trace, nRoles, nBits, k) == TasksRead(inst, trace, nRoles, nBits, j)
  {
    if j < k {
      EndStays(inst, trace, nRoles, nBits, j, k - 1);
    }
  }

  // ----- The records of a recorded run -----

  /** One record per entry, each with its entry's kind and act. */
  ghost predicate Records(records: seq<Read>, entries: seq<TraceEntry>) {
    |records| == |entries| &&
    forall i :: 0 <= i < |records| ==> records[i].leave == entries[i].leave && records[i].act == entries[i].act
  }

  lemma RecordsExtend(records: seq<Read>, entries: seq<TraceEntry>, more: seq<Read>, now: seq<TraceEntry>)
    requires Records(records, entries) && entries <= now && |more| == |now| - |entries| <= 1
    requires |more| == 1 ==> more[0].leave == now[|entries|].leave && more[0].act == now[|entries|].act
    ensures Records(records + more, now)
  {
  }

  /** The replay keeps step with the driver: where its pass is, with its members. */
  ghost predicate InStep<S>(r: Replay, base: nat, p: Pass<S>) {
    !r.ended && r.pos == base + |p.entries| && r.members == p.members
  }

  lemma {:induction false} JoinsRecorded<S>(rules: Policy<S>, s: S, inst: Instance, q: Posed, task: Task,
                                            trace: seq<TraceEntry>, base: nat, r0: Replay, k: nat)
    requires |q.windows| == |q.required| && InPool(inst.agents, task.arrival) && k <= |task.arrival|
    requires !r0.ended && r0.pos == base
    requires Trace.Holds(trace, base, Joins(rules, s, inst.agents, task, k).entries)
    ensures var p := Joins(rules, s, inst.agents, task, k);
            InStep(JoinsRead(trace, task.arrival, r0, k), base, p) &&
            Records(JoinsReads(inst, q, trace, task.arrival, r0, k), p.entries)
  {
    hide Joins, JoinOne, JoinsRead, JoinsReads, CentreOf, Records;
    FirstJoin(inst, q, trace, task.arrival, r0);
    if k == 0 {
      NobodyJoined(rules, s, inst.agents, task);
      NoRecords();
    } else if k == 1 {
      JoinsStep(rules, s, inst.agents, task, 0);
      NoRecords();
    } else {
      JoinsStep(rules, s, inst.agents, task, k - 1);
      var p, now := Joins(rules, s, inst.agents, task, k - 1), Joins(rules, s, inst.agents, task, k);
      Trace.JoinRecords(rules, p, inst.agents, task.required, task.arrival[k - 1]);
      Trace.HoldsInit(trace, base, p.entries, now.entries);
      JoinsRecorded(rules, s, inst, q, task, trace, base, r0, k - 1);
      OneMoreJoin(inst, q, trace, task.arrival, r0, k - 1);
      RecordsExtend(JoinsReads(inst, q, trace, task.arrival, r0, k - 1), p.entries,
                    ReadAt(inst, q, trace, JoinsRead(trace, task.arrival, r0, k - 1), task.arrival[k - 1], false),
                    now.entries);
    }
  }

  lemma NoRecords()
    ensures Records([], [])
  {
  }

  lemma {:induction false} LeavesRecorded<S>(rules: Policy<S>, p0: Pass<S>, inst: Instance, q: Posed, task: Task,
                                             trace: seq<TraceEntry>, base: nat, r0: Replay, asked: seq<Read>, k: nat)
    requires |q.windows| == |q.required| && InPool(inst.agents, task.arrival) && InPool(inst.agents, p0.members)
    requires k <= |task.arrival| && InStep(r0, base, p0) && Records(asked, p0.entries)
    requires Trace.Holds(trace, base, Leaves(rules, p0, inst.agents, task, k).entries)
    ensures var p := Leaves(rules, p0, inst.agents, task, k);
            InStep(LeavesRead(inst, RosterBelow(q.required, |q.required|), trace, task.arrival, r0, k), base, p) &&
            Records(asked + LeavesReads(inst, q, trace, task.arrival, r0, k), p.entries)
  {
    hide Leaves, LeaveOne, LeavesRead, LeavesReads, CentreOf, Records, IdenticalOnLeave, Position, RemoveAt;
    if k == 0 {
      NothingSwept(rules, p0, inst.agents, task);
      NoLeave(inst, q, trace, task.arrival, r0);
      assert asked + [] == asked;
    } else {
      var roster, i := RosterBelow(q.required, |q.required|), task.arrival[k - 1];
      LeavesStep(rules, p0, inst.agents, task, k - 1);
      var p, now := Leaves(rules, p0, inst.agents, task, k - 1), Leaves(rules, p0, inst.agents, task, k);
      Trace.LeaveRecords(rules, p, inst.agents, task.required, i);
      Trace.HoldsInit(trace, base, p.entries, now.entries);
      LeavesRecorded(rules, p0, inst, q, task, trace, base, r0, asked, k - 1);
      OneMoreLeave(inst, q, trace, task.arrival, r0, k - 1);
      var records := LeavesReads(inst, q, trace, task.arrival, r0, k - 1);
      var more := ReadAt(inst, q, trace, LeavesRead(inst, roster, trace, task.arrival, r0, k - 1), i, true);
      RecordsExtend(asked + records, p.entries, more, now.entries);
      assert (asked + records) + more == asked + (records + more);
    }
  }

  lemma TaskRecorded<S>(rules: Policy<S>, s: S, inst: Instance, q: Posed, task: Task, trace: seq<TraceEntry>, base: nat,
                        r0: Replay)
    requires |q.windows| == |q.required| && InPool(inst.agents, task.arrival) && !r0.ended && r0.pos == base
    requires Trace.Holds(trace, base, TaskPass(WorkflowDriver, rules, s, inst.agents, task).entries)
    ensures var p, n := TaskPass(WorkflowDriver, rules, s, inst.agents, task), |task.arrival|;
            var joined := JoinsRead(trace, task.arrival, r0, n);
            InStep(LeavesRead(inst, RosterBelow(q.required, |q.required|), trace, task.arrival, joined, n), base, p) &&
            Records(TaskReads(inst, q, trace, task.arrival, r0), p.entries)
  {
    hide Joins, Leaves, JoinsRead, LeavesRead, JoinsReads, LeavesReads, Records, InStep;
    var begun, n := rules.begin(s, task.required, task.steps), |task.arrival|;
    var joined := Joins(rules, begun, inst.agents, task, n);
    Trace.LeavesExtend(rules, joined, inst.agents, task, n);
    JoinsRecorded(rules, begun, inst, q, task, trace, base, r0, n);
    LeavesRecorded(rules, joined, inst, q, task, trace, base, JoinsRead(trace, task.arrival, r0, n),
                   JoinsReads(inst, q, trace, task.arrival, r0, n), n);
  }

  lemma {:induction false} TaskOfRead(inst: Instance, q: Posed, trace: seq<TraceEntry>, arrival: seq<nat>, r0: Replay,
                                      k: nat)
    requires |q.windows| == |q.required| && k <= |arrival|
    ensures forall x :: x in JoinsReads(inst, q, trace, arrival, r0, k) ==> x.task == q.task
    ensures forall x :: x in LeavesReads(inst, q, trace, arrival, r0, k) ==> x.task == q.task
  {
    hide CentreOf, JoinsRead, LeavesRead;
    if k > 0 {
      TaskOfRead(inst, q, trace, arrival, r0, k - 1);
    }
  }

  /** The records of the first `k` tasks: for every task, those of its own entries name it. */
  ghost predicate Numbered<S>(rules: Policy<S>, s: S, inst: ValidInstance, sig: Signals, records: seq<Read>, k: nat)
    requires k <= |inst.tasks|
  {
    forall t :: 0 <= t < k ==>
      NamedIn(records, |RunTasks(WorkflowDriver, rules, s, inst, sig, t).entries|,
              |RunTasks(WorkflowDriver, rules, s, inst, sig, t + 1).entries|, t)
  }

  ghost predicate NamedIn(records: seq<Read>, from: nat, to: nat, t: nat) {
    forall i :: from <= i < to && i < |records| ==> records[i].task == t
  }

  lemma {:induction false} EntriesGrow<S>(rules: Policy<S>, s: S, inst: ValidInstance, sig: Signals, j: nat, k: nat)
    requires j <= k <= |inst.tasks|
    ensures RunTasks(WorkflowDriver, rules, s, inst, sig, j).entries <=
            RunTasks(WorkflowDriver, rules, s, inst, sig, k).entries
  {
    hide RunTasks, TaskPass, MemberOutcomes;
    if j < k {
      EntriesGrow(rules, s, inst, sig, j, k - 1);
      RunStep(WorkflowDriver, rules, s, inst, sig, k - 1);
    }
  }

  lemma NumberedExtends<S>(rules: Policy<S>, s: S, inst: ValidInstance, sig: Signals, records: seq<Read>,
                           more: seq<Read>, k: nat)
    requires k < |inst.tasks| && Numbered(rules, s, inst, sig, records, k)
    requires |records| == |RunTasks(WorkflowDriver, rules, s, inst, sig, k).entries|
    requires forall x :: x in more ==> x.task == k
    ensures Numbered(rules, s, inst, sig, records + more, k + 1)
  {
    hide RunTasks, NamedIn;
    forall t | 0 <= t < k + 1
      ensures NamedIn(records + more, |RunTasks(WorkflowDriver, rules, s, inst, sig, t).entries|,
                      |RunTasks(WorkflowDriver, rules, s, inst, sig, t + 1).entries|, t)
    {
      if t < k {
        EntriesGrow(rules, s, inst, sig, t + 1, k);
        StillNamed(records, more, |RunTasks(WorkflowDriver, rules, s, inst, sig, t).entries|,
                   |RunTasks(WorkflowDriver, rules, s, inst, sig, t + 1).entries|, t);
      } else {
        NewlyNamed(records, more, |RunTasks(WorkflowDriver, rules, s, inst, sig, k + 1).entries|, k);
      }
    }
  }

  lemma StillNamed(records: seq<Read>, more: seq<Read>, from: nat, to: nat, t: nat)
    requires NamedIn(records, from, to, t) && to <= |records|
    ensures NamedIn(records + more, from, to, t)
  {
  }

  lemma NewlyNamed(records: seq<Read>, more: seq<Read>, to: nat, t: nat)
    requires forall x :: x in more ==> x.task == t
    ensures NamedIn(records + more, |records|, to, t)
  {
    assert forall i :: |records| <= i < |records + more| ==> (records + more)[i] == more[i - |records|];
  }

  /** For every policy: the replay of what the workflow driver recorded ends with it, makes one
      record per entry with the entry's task, kind and act, and has the driver's own members at
      the end of every task. */
  lemma {:induction false} RunRecorded<S>(rules: Policy<S>, s: S, inst: ValidInstance, sig: Signals, widths: seq<nat>,
                                          trace: seq<TraceEntry>, nRoles: nat, nBits: nat, k: nat)
    requires |widths| == |inst.tasks| && k <= |inst.tasks|
    requires RunTasks(WorkflowDriver, rules, s, inst, sig, k).entries <= trace
    ensures var run, r := RunTasks(WorkflowDriver, rules, s, inst, sig, k), TasksRead(inst, trace, nRoles, nBits, k);
            var records := TasksReads(inst, widths, trace, nRoles, nBits, k);
            !r.ended && r.pos == |run.entries| && Records(records, run.entries) &&
            Numbered(rules, s, inst, sig, records, k) &&
            (k > 0 ==> r.members == run.ends[k - 1].members)
  {
    hide RunTasks, TaskPass, MemberOutcomes, Records, Numbered, JoinsRead, LeavesRead, JoinsReads, LeavesReads;
    if k == 0 {
      NoTasksRun(WorkflowDriver, rules, s, inst, sig);
      NoRecords();
      assert Numbered(rules, s, inst, sig, [], 0) by { NoneNumbered(rules, s, inst, sig); }
    } else {
      RunStep(WorkflowDriver, rules, s, inst, sig, k - 1);
      RunRecorded(rules, s, inst, sig, widths, trace, nRoles, nBits, k - 1);
      var before, task := RunTasks(WorkflowDriver, rules, s, inst, sig, k - 1), inst.tasks[k - 1];
      var r, records := TasksRead(inst, trace, nRoles, nBits, k - 1),
                        TasksReads(inst, widths, trace, nRoles, nBits, k - 1);
      var q := PosedAt(inst, widths, trace, nRoles, nBits, k - 1);
      var more := TaskReads(inst, q, trace, task.arrival, r);
      TaskRecorded(rules, before.state, inst, q, task, trace, |before.entries|, r);
      TaskOfRead(inst, q, trace, task.arrival, r, |task.arrival|);
      TaskOfRead(inst, q, trace, task.arrival, JoinsRead(trace, task.arrival, r, |task.arrival|), |task.arrival|);
      var pass := TaskPass(WorkflowDriver, rules, before.state, inst.agents, task);
      RecordsJoin(records, before.entries, more, pass.entries);
      RecordsLength(records, before.entries);
      NumberedExtends(rules, s, inst, sig, records, more, k - 1);
    }
  }

  lemma NoneNumbered<S>(rules: Policy<S>, s: S, inst: ValidInstance, sig: Signals)
    ensures Numbered(rules, s, inst, sig, [], 0)
  {
  }

  lemma RecordsLength(records: seq<Read>, entries: seq<TraceEntry>)
    requires Records(records, entries)
    ensures |records| == |entries|
  {
  }

  lemma RecordsJoin(records: seq<Read>, entries: seq<TraceEntry>, more: seq<Read>, rest: seq<TraceEntry>)
    requires Records(records, entries) && Records(more, rest)
    ensures Records(records + more, entries + rest)
  {
  }

  // ----- What a record's class says -----

  lemma {:induction false} InUnion(inst: Instance, role: nat, agent: nat, members: seq<nat>, leave: bool, b: nat)
    ensures b in UnionOf(inst, role, agent, members, leave) <==>
            exists m :: m in members && HasRole(inst, m, role) && !(leave && m == agent) && b in Caps(inst, m)
    decreases |members|
  {
    if members != [] {
      var init, last := members[..|members| - 1], members[|members| - 1];
      InUnion(inst, role, agent, init, leave, b);
      assert forall m :: m in members <==> m in init || m == last;
    }
  }

  /** A leave read's masks agree on the demand of the agent's role exactly when the agent is
      redundant: every step demanded of that role stays as covered without it. */
  lemma LeaveClassIsRedundancy(inst: Instance, q: Posed, steps: seq<Step>, nBits: nat, agent: nat, members: seq<nat>)
    requires |q.windows| == |q.required| && q.required == DemandedByRole(steps, |q.required|, nBits)
    requires agent in members && CentreOf(inst, q, agent, members, true).Some?
    ensures CentreOf(inst, q, agent, members, true).value.identical <==>
            forall s :: s in steps && s.role == inst.roles[agent] && s.bit < nBits ==>
              (StepCovered(inst, members, s) <==> StepCovered(inst, Without(members, agent), s))
  {
    hide UnionOf, StepCovered, DemandedBits, RosterBelow;
    var role := inst.roles[agent];
    var required, union, own := q.required[role], UnionOf(inst, role, agent, members, true), Caps(inst, agent);
    assert HasRole(inst, agent, role);
    AgreeOn(union, own, required);
    assert DemandedBits(steps, nBits, role) == required;
    forall s | s in steps && s.role == role && s.bit < nBits
      ensures (StepCovered(inst, members, s) <==> StepCovered(inst, Without(members, agent), s)) <==>
              (s.bit in required && s.bit in own ==> s.bit in union)
    {
      CoveredByRole(inst, members, agent, s);
      assert s == Step(s.bit, role);
    }
    forall b | b in required ensures Step(b, role) in steps && b < nBits {
    }
  }

  /** A join read's masks agree exactly when the members of the agent's role add nothing to it:
      every step demanded of that role is as covered by the agent alone as by all. */
  lemma JoinClassIsAlone(inst: Instance, q: Posed, steps: seq<Step>, nBits: nat, agent: nat, members: seq<nat>)
    requires |q.windows| == |q.required| && q.required == DemandedByRole(steps, |q.required|, nBits)
    requires CentreOf(inst, q, agent, members, false).Some?
    ensures CentreOf(inst, q, agent, members, false).value.identical <==>
            forall s :: s in steps && s.role == inst.roles[agent] && s.bit < nBits ==>
              (StepCovered(inst, [agent], s) <==> StepCovered(inst, members + [agent], s))
  {
    hide UnionOf, StepCovered, DemandedBits, RosterBelow;
    var role := inst.roles[agent];
    var required, union, own := q.required[role], UnionOf(inst, role, agent, members, false), Caps(inst, agent);
    assert HasRole(inst, agent, role);
    AgreeOn(own, union, required);
    assert DemandedBits(steps, nBits, role) == required;
    forall s | s in steps && s.role == role && s.bit < nBits
      ensures (StepCovered(inst, [agent], s) <==> StepCovered(inst, members + [agent], s)) <==>
              (s.bit in required && s.bit in union ==> s.bit in own)
    {
      CoveredWithCandidate(inst, members, agent, s);
      assert s == Step(s.bit, role);
    }
    forall b | b in required ensures Step(b, role) in steps && b < nBits {
    }
  }

  lemma CoveredWithCandidate(inst: Instance, members: seq<nat>, agent: nat, s: Step)
    requires HasRole(inst, agent, s.role)
    ensures StepCovered(inst, [agent], s) <==> s.bit < 32 && s.bit in Caps(inst, agent)
    ensures StepCovered(inst, members + [agent], s) <==>
            s.bit < 32 && s.bit in Caps(inst, agent) + UnionOf(inst, s.role, agent, members, false)
  {
    hide UnionOf;
    InUnion(inst, s.role, agent, members, false, s.bit);
    assert agent in [agent] && forall m :: m in members + [agent] <==> m in members || m == agent;
  }

  lemma AgreeOn(union: Mask, own: Mask, required: Mask)
    ensures (union + own) * required == union * required <==> forall b :: b in required && b in own ==> b in union
  {
    if (union + own) * required == union * required {
      forall b | b in required && b in own ensures b in union {
        assert b in (union + own) * required;
      }
    }
  }

  /** Coverage of one step of the agent's role, with it and without it. */
  lemma CoveredByRole(inst: Instance, members: seq<nat>, agent: nat, s: Step)
    requires agent in members && HasRole(inst, agent, s.role)
    ensures var union := UnionOf(inst, s.role, agent, members, true);
            (StepCovered(inst, members, s) <==> s.bit < 32 && s.bit in union + Caps(inst, agent)) &&
            (StepCovered(inst, Without(members, agent), s) <==> s.bit < 32 && s.bit in union)
  {
    hide UnionOf;
    InUnion(inst, s.role, agent, members, true, s.bit);
    forall m ensures m in Without(members, agent) <==> m in members && m != agent {
      Trace.WithoutMembers(members, agent, m);
    }
  }


  // ----- What a window says -----

  /** The task demands a bit of the role that the replay keeps. */
  predicate Demands(task: Task, nBits: nat, role: nat) {
    exists s :: s in task.steps && s.role == role && s.bit < nBits && s.bit < 32
  }

  /** Of the first `k` tasks, those that demand the role. */
  function Demanding(inst: Instance, nBits: nat, role: nat, k: nat): (d: seq<nat>)
    requires k <= |inst.tasks|
    ensures forall i :: 0 <= i < |d| ==> d[i] < k && Demands(inst.tasks[d[i]], nBits, role)
    ensures forall i, j :: 0 <= i < j < |d| ==> d[i] < d[j]
    ensures forall u: nat :: u < k && Demands(inst.tasks[u], nBits, role) ==> u in d
  {
    if k == 0 then []
    else
      Demanding(inst, nBits, role, k - 1) + if Demands(inst.tasks[k - 1], nBits, role) then [k - 1] else []
  }

  /** Task `u` demands the role, and of the tasks between it and task `t` at most one does. */
  ghost predicate Recent(inst: Instance, nBits: nat, role: nat, u: nat, t: nat): (recent: bool)
    requires t <= |inst.tasks|
    ensures recent ==> u < t
  {
    u < t && Demands(inst.tasks[u], nBits, role) &&
    forall v, w :: u < v < w < t ==> !Demands(inst.tasks[v], nBits, role) || !Demands(inst.tasks[w], nBits, role)
  }

  predicate AmongLastTwo(d: seq<nat>, u: nat) {
    exists i :: 0 <= i < |d| && |d| - 2 <= i && d[i] == u
  }

  lemma RecentAreLast(inst: Instance, nBits: nat, role: nat, u: nat, t: nat)
    requires t <= |inst.tasks|
    ensures Recent(inst, nBits, role, u, t) <==> AmongLastTwo(Demanding(inst, nBits, role, t), u)
  {
    hide Demands;
    var d := Demanding(inst, nBits, role, t);
    if Recent(inst, nBits, role, u, t) {
      var i :| 0 <= i < |d| && d[i] == u;
      if i < |d| - 2 {
        TwoSince(inst, nBits, role, t, i);
      }
    }
    if AmongLastTwo(d, u) {
      var i :| 0 <= i < |d| && |d| - 2 <= i && d[i] == u;
      forall v: nat, w: nat | u < v < w < t
        ensures !Demands(inst.tasks[v], nBits, role) || !Demands(inst.tasks[w], nBits, role)
      {
        OneLaterAtMost(d, i, v, w);
      }
    }
  }

  lemma TwoSince(inst: Instance, nBits: nat, role: nat, t: nat, i: nat)
    requires t <= |inst.tasks| && i + 2 < |Demanding(inst, nBits, role, t)|
    ensures !Recent(inst, nBits, role, Demanding(inst, nBits, role, t)[i], t)
  {
    hide Demands;
    var d := Demanding(inst, nBits, role, t);
    var v, w := d[i + 1], d[i + 2];
    assert d[i] < v < w < t && Demands(inst.tasks[v], nBits, role) && Demands(inst.tasks[w], nBits, role);
  }

  lemma OneLaterAtMost(d: seq<nat>, i: nat, v: nat, w: nat)
    requires forall a, b :: 0 <= a < b < |d| ==> d[a] < d[b]
    requires |d| - 2 <= i < |d| && d[i] < v < w
    ensures v !in d || w !in d
  {
    if v in d && w in d {
      TwoLater(d, i, v, w);
    }
  }

  lemma TwoLater(d: seq<nat>, i: nat, v: nat, w: nat)
    requires forall a, b :: 0 <= a < b < |d| ==> d[a] < d[b]
    requires i < |d| && v in d && w in d && d[i] < v < w
    ensures i < |d| - 2
  {
    var a :| 0 <= a < |d| && d[a] == v;
    var b :| 0 <= b < |d| && d[b] == w;
    assert i < a < b;
  }

  /** What task `u` adds to the window of the role. */
  function CoveredOf(inst: Instance, widths: seq<nat>, trace: seq<TraceEntry>, nRoles: nat, nBits: nat, role: nat,
                     u: nat): Mask
    requires |widths| == |inst.tasks| && u < |inst.tasks|
  {
    DemandedBits(inst.tasks[u].steps, nBits, role) *
    CoveredBits(inst, TasksRead(inst, trace, nRoles, nBits, u + 1).members, inst.tasks[u].steps, widths[u])
  }

  lemma {:induction false} SeenAreDemanding(inst: Instance, widths: seq<nat>, trace: seq<TraceEntry>, nRoles: nat,
                                            nBits: nat, role: nat, k: nat)
    requires |widths| == |inst.tasks| && k <= |inst.tasks|
    ensures var seen, d := Seen(inst, widths, trace, nRoles, nBits, role, k), Demanding(inst, nBits, role, k);
            |seen| == |d| &&
            forall i :: 0 <= i < |d| ==> seen[i] == CoveredOf(inst, widths, trace, nRoles, nBits, role, d[i])
  {
    hide TasksRead, CoveredBits, DemandedBits, Demands;
    if k > 0 {
      SeenAreDemanding(inst, widths, trace, nRoles, nBits, role, k - 1);
      SeenStep(inst, widths, trace, nRoles, nBits, role, k - 1);
      DemandsExactly(inst.tasks[k - 1], nBits, role);
    }
  }

  lemma DemandsExactly(task: Task, nBits: nat, role: nat)
    ensures Demands(task, nBits, role) <==> DemandedBits(task.steps, nBits, role) != {}
  {
    if s :| s in task.steps && s.role == role && s.bit < nBits && s.bit < 32 {
      assert Step(s.bit, role) == s && s.bit in DemandedBits(task.steps, nBits, role);
    }
    if DemandedBits(task.steps, nBits, role) != {} {
      var b :| b in DemandedBits(task.steps, nBits, role);
      assert Step(b, role) in task.steps;
    }
  }

  lemma WindowAreRecent(inst: Instance, widths: seq<nat>, trace: seq<TraceEntry>, nRoles: nat, nBits: nat, role: nat,
                        t: nat, m: Mask)
    requires |widths| == |inst.tasks| && t <= |inst.tasks|
    ensures m in LastTwo(Seen(inst, widths, trace, nRoles, nBits, role, t)) <==>
            exists u :: Recent(inst, nBits, role, u, t) &&
                        m == CoveredOf(inst, widths, trace, nRoles, nBits, role, u)
  {
    hide Demanding, Recent, CoveredOf, Seen;
    var seen, d := Seen(inst, widths, trace, nRoles, nBits, role, t), Demanding(inst, nBits, role, t);
    SeenAreDemanding(inst, widths, trace, nRoles, nBits, role, t);
    assert m in LastTwo(seen) <==> exists i :: |seen| - 2 <= i < |seen| && 0 <= i && seen[i] == m;
    if i :| |seen| - 2 <= i < |seen| && 0 <= i && seen[i] == m {
      RecentAreLast(inst, nBits, role, d[i], t);
    }
    if u :| Recent(inst, nBits, role, u, t) && m == CoveredOf(inst, widths, trace, nRoles, nBits, role, u) {
      RecentAreLast(inst, nBits, role, u, t);
      var i :| |d| - 2 <= i < |d| && 0 <= i && d[i] == u;
      assert seen[i] == m;
    }
  }

  /** Bit `b` is demanded of the role by task `t` and was by task `u`, below the width of its
      signal, and the members `u` ended with in the run cover a step of that bit, of any role. */
  ghost predicate CoveredThen<S>(rules: Policy<S>, s: S, inst: ValidInstance, sig: Signals, widths: seq<nat>,
                                 nBits: nat, role: nat, u: nat, t: nat, b: nat)
    requires |widths| == |inst.tasks| && u < |inst.tasks| && t < |inst.tasks|
  {
    b < nBits && b < 32 && b < widths[u] &&
    Step(b, role) in inst.tasks[t].steps && Step(b, role) in inst.tasks[u].steps &&
    exists x :: x in inst.tasks[u].steps && x.bit == b &&
                StepCovered(inst, RunTasks(WorkflowDriver, rules, s, inst, sig, u + 1).ends[u].members, x)
  }

  /** The window of a read of the driver's run, read off the run: it is set exactly when, on one of
      the last two earlier tasks that demanded the candidate's role, the final members covered a
      bit demanded of that role then and now. */
  lemma WindowIsRecentCoverage<S>(rules: Policy<S>, s: S, inst: ValidInstance, sig: Signals, widths: seq<nat>,
                                  trace: seq<TraceEntry>, nRoles: nat, nBits: nat, t: nat, agent: nat,
                                  members: seq<nat>, leave: bool)
    requires |widths| == |inst.tasks| && t < |inst.tasks|
    requires RunTasks(WorkflowDriver, rules, s, inst, sig, t).entries <= trace
    requires CentreOf(inst, PosedAt(inst, widths, trace, nRoles, nBits, t), agent, members, leave).Some?
    ensures CentreOf(inst, PosedAt(inst, widths, trace, nRoles, nBits, t), agent, members, leave).value.window <==>
            exists u: nat, b: nat ::
              Recent(inst, nBits, inst.roles[agent], u, t) &&
              CoveredThen(rules, s, inst, sig, widths, nBits, inst.roles[agent], u, t, b)
  {
    hide RunTasks, RoleMasks, Recent, CoveredThen, Seen, LastTwo, CoveredOf;
    var q := PosedAt(inst, widths, trace, nRoles, nBits, t);
    var role := inst.roles[agent];
    assert role < nRoles;
    var seen, now := q.windows[role], q.required[role];
    if m :| m in seen && m * now != {} {
      WindowAreRecent(inst, widths, trace, nRoles, nBits, role, t, m);
      var u :| Recent(inst, nBits, role, u, t) && m == CoveredOf(inst, widths, trace, nRoles, nBits, role, u);
      var b :| b in m * now;
      CoveredInRun(rules, s, inst, sig, widths, trace, nRoles, nBits, role, u, t, b);
    }
    if u: nat, b: nat :| Recent(inst, nBits, role, u, t) &&
                         CoveredThen(rules, s, inst, sig, widths, nBits, role, u, t, b) {
      CoveredInRun(rules, s, inst, sig, widths, trace, nRoles, nBits, role, u, t, b);
      var m := CoveredOf(inst, widths, trace, nRoles, nBits, role, u);
      WindowAreRecent(inst, widths, trace, nRoles, nBits, role, t, m);
      assert b in m * now;
    }
  }

  lemma CoveredInRun<S>(rules: Policy<S>, s: S, inst: ValidInstance, sig: Signals, widths: seq<nat>,
                        trace: seq<TraceEntry>, nRoles: nat, nBits: nat, role: nat, u: nat, t: nat, b: nat)
    requires |widths| == |inst.tasks| && u < t < |inst.tasks| && role < nRoles
    requires RunTasks(WorkflowDriver, rules, s, inst, sig, t).entries <= trace
    ensures CoveredThen(rules, s, inst, sig, widths, nBits, role, u, t, b) <==>
            b in CoveredOf(inst, widths, trace, nRoles, nBits, role, u) &&
            b in PosedAt(inst, widths, trace, nRoles, nBits, t).required[role]
  {
    hide RunTasks, TasksRead, StepCovered, Numbered, Records, WindowsAt;
    EntriesGrow(rules, s, inst, sig, u + 1, t);
    RunRecorded(rules, s, inst, sig, widths, trace, nRoles, nBits, u + 1);
  }
}
