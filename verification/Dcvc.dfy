/** Sharing coalition indices among agents in proportion to their trust. The floating-point
    quotas enter as the numbers they are rounded down to. */
module Dcvc {
  import opened Agents
  import opened Sorting
  import Sums

  datatype Share = Share(agentId: nat, indices: seq<nat>, size: nat)

  // ----- The distribution, as a function -----

  function Range(from: nat, to: nat): (r: seq<nat>)
    requires from <= to
    ensures |r| == to - from && forall i :: 0 <= i < |r| ==> r[i] == from + i
  {
    seq(to - from, (i: nat) => from + i)
  }

  /** The index after the first `k` agents' shares. */
  function EndOf(total: nat, rounded: seq<nat>, k: nat): (e: nat)
    requires k <= |rounded|
    ensures e <= total
  {
    if k == 0 then 0
    else
      var e := EndOf(total, rounded, k - 1) + rounded[k - 1];
      if e < total then e else total
  }

  lemma EndsAscend(total: nat, rounded: seq<nat>, k: nat)
    requires k < |rounded|
    ensures EndOf(total, rounded, k) <= EndOf(total, rounded, k + 1)
  {
  }

  /** The first `k` agents' consecutive shares; an agent of an id seen before replaces it. */
  function Consecutive(agents: seq<CapabilityAgent>, total: nat, rounded: seq<nat>, k: nat): map<nat, Share>
    requires k <= |agents| == |rounded|
  {
    if k == 0 then map[]
    else
      var from, to := EndOf(total, rounded, k - 1), EndOf(total, rounded, k);
      EndsAscend(total, rounded, k - 1);
      Consecutive(agents, total, rounded, k - 1)
        [agents[k - 1].id := Share(agents[k - 1].id, Range(from, to), to - from)]
  }

  function Given(shares: map<nat, Share>, id: nat, index: nat): map<nat, Share> {
    if id in shares then shares[id := Share(shares[id].agentId, shares[id].indices + [index], shares[id].size + 1)]
    else shares
  }

  /** The next `n` indices dealt round, fastest agent first. */
  function Dealt(shares: map<nat, Share>, order: seq<CapabilityAgent>, from: nat, n: nat): map<nat, Share>
    requires order != []
  {
    if n == 0 then shares
    else Given(Dealt(shares, order, from, n - 1), order[(n - 1) % |order|].id, from + n - 1)
  }

  predicate AtLeastAsTrusted(a: CapabilityAgent, b: CapabilityAgent) {
    a.trust >= b.trust
  }

  /** A stable sort, highest trust first. */
  function ByTrust(agents: seq<CapabilityAgent>): (order: seq<CapabilityAgent>)
    ensures |order| == |agents| && multiset(order) == multiset(agents)
  {
    SortedItems(AtLeastAsTrusted, agents);
    Sorted(AtLeastAsTrusted, agents)
  }

  function Distribution(agents: seq<CapabilityAgent>, total: nat, rounded: seq<nat>): map<nat, Share>
    requires |rounded| == |agents|
  {
    if agents == [] || total == 0 then map[]
    else
      var n := |agents|;
      var end := EndOf(total, rounded, n);
      Dealt(Consecutive(agents, total, rounded, n), ByTrust(agents), end, total - end)
  }

  ghost predicate Descends(s: seq<CapabilityAgent>) {
    forall i, j :: 0 <= i < j < |s| ==> s[i].trust >= s[j].trust
  }

  lemma SortSorts(agents: seq<CapabilityAgent>)
    ensures Descends(ByTrust(agents))
  {
    SortedAscends(AtLeastAsTrusted, agents);
  }

  // ----- The object -----

  class DCVCDistributor {
    var shares: map<nat, Share>

    constructor (shares: map<nat, Share>)
      ensures this.shares == shares
    {
      this.shares := shares;
    }

    /** Shares `total` coalition indices; `rounded` are the agents' floored quotas. */
    static method DistributeWorkload(agents: seq<CapabilityAgent>, total: nat, rounded: seq<nat>)
      returns (d: DCVCDistributor)
      requires |rounded| == |agents|
      ensures fresh(d) && d.shares == Distribution(agents, total, rounded)
    {
      hide ByTrust;
      if agents == [] || total == 0 {
        d := new DCVCDistributor(map[]);
        return;
      }
      var start: nat, given: map<nat, Share> := 0, map[];
      for k := 0 to |agents|
        invariant start == EndOf(total, rounded, k) && given == Consecutive(agents, total, rounded, k)
      {
        var end := if start + rounded[k] < total then start + rounded[k] else total;
        given := given[agents[k].id := Share(agents[k].id, Range(start, end), end - start)];
        start := end;
      }
      var order := ByTrust(agents);
      ghost var consecutive := given;
      for i := 0 to total - start
        invariant given == Dealt(consecutive, order, start, i)
      {
        var id := order[i % |order|].id;
        if id in given {
          given := given[id := Share(given[id].agentId, given[id].indices + [start + i], given[id].size + 1)];
        }
      }
      d := new DCVCDistributor(given);
    }

    /** Marks every index of every share, the shares in any order. */
    method VerifyDistribution(total: nat) returns (ok: bool)
      ensures ok <==> Exact(shares, total)
    {
      hide InRange, NoRepeat, Shared, Fits;
      var covered := new bool[total](_ => false);
      var left := shares.Keys;
      NothingChecked(shares, total);
      assert shares.Keys - left == {};
      while left != {}
        invariant left <= shares.Keys
        invariant forall x :: 0 <= x < total ==> (covered[x] <==> Shared(shares, shares.Keys - left, x))
        invariant InRange(shares, shares.Keys - left, total) && NoRepeat(shares, shares.Keys - left)
        decreases |left|
      {
        var id :| id in left;
        ghost var done := shares.Keys - left;
        OneMoreShare(shares, done, id, total, covered[..]);
        var marked := MarkShare(covered, shares[id].indices);
        left := left - {id};
        assert shares.Keys - left == done + {id};
        if !marked {
          WholeNeedsPart(shares, done + {id}, total);
          return false;
        }
      }
      assert shares.Keys - left == shares.Keys;
      ok := true;
      for x := 0 to total
        invariant ok <==> forall y :: 0 <= y < x ==> covered[y]
      {
        ok := ok && covered[x];
      }
    }

    /** Marks one share's indices, unless one is out of range or marked already. */
    method MarkShare(covered: array<bool>, indices: seq<nat>) returns (ok: bool)
      modifies covered
      ensures ok <==> Fits(indices, old(covered[..]))
      ensures ok ==> forall x :: 0 <= x < covered.Length ==> (covered[x] <==> old(covered[x]) || x in indices)
    {
      ghost var marks := covered[..];
      for p := 0 to |indices|
        invariant forall x :: 0 <= x < covered.Length ==> (covered[x] <==> marks[x] || x in indices[..p])
        invariant Fits(indices[..p], marks)
      {
        var x := indices[p];
        var sofar := indices[..p + 1];
        assert sofar == indices[..p] + [x] && sofar[p] == x;
        if x >= covered.Length || covered[x] {
          assert !Fits(sofar, marks);
          PrefixFits(indices, marks, p + 1);
          return false;
        }
        covered[x] := true;
      }
      assert indices[..|indices|] == indices;
      ok := true;
    }
  }

  /** No index of the share is repeated, out of range, or marked. */
  ghost predicate Fits(indices: seq<nat>, marks: seq<bool>) {
    Sums.Distinct(indices) && forall p :: 0 <= p < |indices| ==> indices[p] < |marks| && !marks[indices[p]]
  }

  lemma PrefixFits(indices: seq<nat>, marks: seq<bool>, p: nat)
    requires p <= |indices|
    ensures Fits(indices, marks) ==> Fits(indices[..p], marks)
  {
  }

  // ----- What a right distribution is -----

  ghost predicate InRange(shares: map<nat, Share>, ids: set<nat>, total: nat)
    requires ids <= shares.Keys
  {
    forall id :: id in ids ==> forall p :: 0 <= p < |shares[id].indices| ==> shares[id].indices[p] < total
  }

  ghost predicate NoRepeat(shares: map<nat, Share>, ids: set<nat>)
    requires ids <= shares.Keys
  {
    (forall id :: id in ids ==> Sums.Distinct(shares[id].indices)) &&
    forall a, b, x :: a in ids && b in ids && x in shares[a].indices && x in shares[b].indices ==> a == b
  }

  ghost predicate Shared(shares: map<nat, Share>, ids: set<nat>, x: nat)
    requires ids <= shares.Keys
  {
    exists id :: id in ids && x in shares[id].indices
  }

  ghost predicate Covers(shares: map<nat, Share>, total: nat) {
    forall x: nat :: x < total ==> Shared(shares, shares.Keys, x)
  }

  /** Every index below `total` is in exactly one share, once, and no other index in any. */
  ghost predicate Exact(shares: map<nat, Share>, total: nat) {
    InRange(shares, shares.Keys, total) && NoRepeat(shares, shares.Keys) && Covers(shares, total)
  }

  lemma NothingChecked(shares: map<nat, Share>, total: nat)
    ensures InRange(shares, {}, total) && NoRepeat(shares, {}) && forall x :: !Shared(shares, {}, x)
  {
  }

  /** A share fits what the others marked exactly when it is right beside them. */
  lemma OneMoreShare(shares: map<nat, Share>, done: set<nat>, id: nat, total: nat, marks: seq<bool>)
    requires done <= shares.Keys && id in shares && id !in done && |marks| == total
    requires InRange(shares, done, total) && NoRepeat(shares, done)
    requires forall x :: 0 <= x < total ==> (marks[x] <==> Shared(shares, done, x))
    ensures Fits(shares[id].indices, marks) <==> InRange(shares, done + {id}, total) && NoRepeat(shares, done + {id})
    ensures forall x :: Shared(shares, done + {id}, x) <==> Shared(shares, done, x) || x in shares[id].indices
  {
    var indices := shares[id].indices;
    if InRange(shares, done + {id}, total) && NoRepeat(shares, done + {id}) {
      forall p | 0 <= p < |indices| ensures indices[p] < |marks| && !marks[indices[p]] {
        assert indices[p] in indices;
      }
    }
    if Fits(indices, marks) {
      forall x | x in indices ensures !Shared(shares, done, x) {
        assert x < total && !marks[x];
      }
    }
  }

  lemma WholeNeedsPart(shares: map<nat, Share>, ids: set<nat>, total: nat)
    requires ids <= shares.Keys
    ensures Exact(shares, total) ==> InRange(shares, ids, total) && NoRepeat(shares, ids)
  {
  }

  // ----- When a distribution is right -----

  lemma {:induction false} EndsAscendTo(total: nat, rounded: seq<nat>, j: nat, k: nat)
    requires j <= k <= |rounded|
    ensures EndOf(total, rounded, j) <= EndOf(total, rounded, k)
  {
    if j < k {
      EndsAscendTo(total, rounded, j, k - 1);
    }
  }

  /** The last of the first `k` agents with this id, or -1. */
  function Latest(agents: seq<CapabilityAgent>, k: nat, id: nat): (i: int)
    requires k <= |agents|
    ensures -1 <= i < k && (i >= 0 ==> agents[i].id == id)
    ensures forall j :: i < j < k ==> agents[j].id != id
  {
    if k == 0 then -1 else if agents[k - 1].id == id then k - 1 else Latest(agents, k - 1, id)
  }

  /** The `i`-th agent's consecutive share. */
  function ShareOf(agents: seq<CapabilityAgent>, total: nat, rounded: seq<nat>, i: nat): (s: Share)
    requires i < |agents| == |rounded|
    ensures s.size == |s.indices| && s.agentId == agents[i].id
  {
    var from, to := EndOf(total, rounded, i), EndOf(total, rounded, i + 1);
    EndsAscend(total, rounded, i);
    Share(agents[i].id, Range(from, to), to - from)
  }

  /** After the consecutive pass an id holds the share of its last agent. */
  lemma {:induction false} ConsecutiveShare(agents: seq<CapabilityAgent>, total: nat, rounded: seq<nat>, k: nat,
                                            id: nat)
    requires k <= |agents| == |rounded|
    ensures var m, i := Consecutive(agents, total, rounded, k), Latest(agents, k, id);
            (id in m <==> i >= 0) && (i >= 0 ==> m[id] == ShareOf(agents, total, rounded, i))
  {
    hide EndOf;
    if k > 0 {
      ConsecutiveShare(agents, total, rounded, k - 1, id);
    }
  }

  /** No agent's consecutive share is non-empty and then replaced by a later agent's of its id. */
  ghost predicate NothingReplaced(agents: seq<CapabilityAgent>, total: nat, rounded: seq<nat>)
    requires |agents| == |rounded|
  {
    forall i, j :: 0 <= i < j < |agents| && agents[i].id == agents[j].id ==>
      EndOf(total, rounded, i) == EndOf(total, rounded, i + 1)
  }

  /** A share put where there was nothing extends a right distribution. */
  lemma ExactInsert(shares: map<nat, Share>, id: nat, share: Share, from: nat, to: nat)
    requires Exact(shares, from) && from <= to && share.indices == Range(from, to)
    requires id in shares ==> shares[id].indices == []
    ensures Exact(shares[id := share], to)
  {
    var after := shares[id := share];
    forall x: nat | x < to ensures Shared(after, after.Keys, x) {
      if x < from {
        assert Shared(shares, shares.Keys, x);
        var a :| a in shares && x in shares[a].indices;
        assert a != id && after[a] == shares[a];
      } else {
        assert share.indices[x - from] == x && after[id] == share;
      }
    }
    forall a, x | a in shares && x in shares[a].indices ensures x < from {
      var p :| 0 <= p < |shares[a].indices| && shares[a].indices[p] == x;
    }
    forall x | x in share.indices ensures x >= from {
      var p :| 0 <= p < |share.indices| && share.indices[p] == x;
    }
  }

  lemma ExactGiven(shares: map<nat, Share>, id: nat, n: nat)
    requires Exact(shares, n) && id in shares
    ensures Exact(Given(shares, id, n), n + 1)
  {
    var after := Given(shares, id, n);
    var old_, new_ := shares[id].indices, after[id].indices;
    assert new_ == old_ + [n] && new_[|old_|] == n;
    forall x: nat | x < n + 1 ensures Shared(after, after.Keys, x) {
      if x < n {
        assert Shared(shares, shares.Keys, x);
        var a :| a in shares && x in shares[a].indices;
        assert x in after[a].indices;
      } else {
        assert x in after[id].indices;
      }
    }
    forall a, x | a in shares && x in shares[a].indices ensures x < n {
      var p :| 0 <= p < |shares[a].indices| && shares[a].indices[p] == x;
    }
  }

  lemma {:induction false} ConsecutiveExact(agents: seq<CapabilityAgent>, total: nat, rounded: seq<nat>, k: nat)
    requires k <= |agents| == |rounded| && NothingReplaced(agents, total, rounded)
    ensures Exact(Consecutive(agents, total, rounded, k), EndOf(total, rounded, k))
  {
    hide Exact, EndOf, Range;
    if k == 0 {
      NothingIsExact();
      FirstEnd(total, rounded);
    } else {
      ConsecutiveExact(agents, total, rounded, k - 1);
      var before, agent := Consecutive(agents, total, rounded, k - 1), agents[k - 1];
      ConsecutiveShare(agents, total, rounded, k - 1, agent.id);
      ExactInsert(before, agent.id, ShareOf(agents, total, rounded, k - 1),
                  EndOf(total, rounded, k - 1), EndOf(total, rounded, k));
    }
  }

  lemma NothingIsExact()
    ensures Exact(map[], 0)
  {
  }

  lemma FirstEnd(total: nat, rounded: seq<nat>)
    ensures EndOf(total, rounded, 0) == 0
  {
  }

  lemma {:induction false} DealtExact(shares: map<nat, Share>, order: seq<CapabilityAgent>, from: nat, n: nat)
    requires order != [] && Exact(shares, from) && forall a :: a in order ==> a.id in shares
    ensures Exact(Dealt(shares, order, from, n), from + n) && Dealt(shares, order, from, n).Keys == shares.Keys
  {
    hide Exact;
    if n > 0 {
      DealtExact(shares, order, from, n - 1);
      var agent := order[(n - 1) % |order|];
      assert agent in order;
      ExactGiven(Dealt(shares, order, from, n - 1), agent.id, from + n - 1);
    }
  }

  /** Everyone dealt to has a share already. */
  lemma OrderIsKnown(agents: seq<CapabilityAgent>, total: nat, rounded: seq<nat>)
    requires |agents| == |rounded|
    ensures forall a :: a in ByTrust(agents) ==> a in agents && a.id in Consecutive(agents, total, rounded, |agents|)
  {
    hide Consecutive, ByTrust;
    forall a | a in ByTrust(agents)
      ensures a in agents && a.id in Consecutive(agents, total, rounded, |agents|)
    {
      assert a in multiset(ByTrust(agents)) && a in multiset(agents);
      var k :| 0 <= k < |agents| && agents[k] == a;
      ConsecutiveShare(agents, total, rounded, |agents|, a.id);
      assert Latest(agents, |agents|, a.id) >= 0;
    }
  }

  /** An index of a replaced share is in no share after the consecutive pass. */
  lemma ReplacedIsLost(agents: seq<CapabilityAgent>, total: nat, rounded: seq<nat>, i: nat, j: nat)
    requires i < j < |agents| == |rounded| && agents[i].id == agents[j].id
    requires EndOf(total, rounded, i) < EndOf(total, rounded, i + 1)
    ensures var m := Consecutive(agents, total, rounded, |agents|);
            !Shared(m, m.Keys, EndOf(total, rounded, i))
  {
    hide Consecutive, EndOf;
    var m, x := Consecutive(agents, total, rounded, |agents|), EndOf(total, rounded, i);
    forall id | id in m ensures x !in m[id].indices {
      ConsecutiveShare(agents, total, rounded, |agents|, id);
      var l := Latest(agents, |agents|, id);
      if l < i {
        EndsAscendTo(total, rounded, l + 1, i);
      } else if l > i {
        EndsAscendTo(total, rounded, i + 1, l);
      }
    }
  }

  lemma {:induction false} DealtStaysLost(shares: map<nat, Share>, order: seq<CapabilityAgent>, from: nat, n: nat,
                                          x: nat)
    requires order != [] && x < from && !Shared(shares, shares.Keys, x)
    ensures var m := Dealt(shares, order, from, n); !Shared(m, m.Keys, x)
  {
    if n > 0 {
      DealtStaysLost(shares, order, from, n - 1, x);
    }
  }

  /** Whatever the quotas are rounded to, the distribution is right, and so passes its own check,
      exactly when there is an agent or nothing to share, and no agent's non-empty consecutive
      share is replaced by a later agent of the same id. */
  lemma RightExactly(agents: seq<CapabilityAgent>, total: nat, rounded: seq<nat>)
    requires |agents| == |rounded|
    ensures Exact(Distribution(agents, total, rounded), total) <==>
            total == 0 || (agents != [] && NothingReplaced(agents, total, rounded))
  {
    hide Exact, Consecutive, Dealt, ByTrust, EndOf, NothingReplaced;
    if total == 0 {
      NothingIsExact();
    } else if agents == [] {
      NothingCoversNothing(total);
    } else {
      var n := |agents|;
      OrderIsKnown(agents, total, rounded);
      var end, m, order := EndOf(total, rounded, n), Consecutive(agents, total, rounded, n), ByTrust(agents);
      if NothingReplaced(agents, total, rounded) {
        ConsecutiveExact(agents, total, rounded, n);
        DealtExact(m, order, end, total - end);
      } else {
        var i, j := SomethingReplaced(agents, total, rounded);
        ReplacedIsLost(agents, total, rounded, i, j);
        EndsAscendTo(total, rounded, i + 1, n);
        DealtStaysLost(m, order, end, total - end, EndOf(total, rounded, i));
        LostIsNotExact(Distribution(agents, total, rounded), EndOf(total, rounded, i), total);
      }
    }
  }

  lemma SomethingReplaced(agents: seq<CapabilityAgent>, total: nat, rounded: seq<nat>) returns (i: nat, j: nat)
    requires |agents| == |rounded| && !NothingReplaced(agents, total, rounded)
    ensures i < j < |agents| && agents[i].id == agents[j].id && EndOf(total, rounded, i) < EndOf(total, rounded, i + 1)
  {
    hide EndOf;
    i, j :| 0 <= i < j < |agents| && agents[i].id == agents[j].id &&
    EndOf(total, rounded, i) != EndOf(total, rounded, i + 1);
    EndsAscend(total, rounded, i);
  }

  lemma NothingCoversNothing(total: nat)
    requires total > 0
    ensures !Exact(map[], total)
  {
    var none: map<nat, Share> := map[];
    assert none.Keys == {} && !Shared(none, none.Keys, 0);
  }

  lemma LostIsNotExact(shares: map<nat, Share>, x: nat, total: nat)
    requires x < total && !Shared(shares, shares.Keys, x)
    ensures !Exact(shares, total)
  {
  }

  ghost predicate DistinctIds(agents: seq<CapabilityAgent>) {
    forall i, j :: 0 <= i < j < |agents| ==> agents[i].id != agents[j].id
  }

  /** With distinct ids and someone to share among, the distribution is right for every rounding. */
  lemma DistinctIdsAreRight(agents: seq<CapabilityAgent>, total: nat, rounded: seq<nat>)
    requires |agents| == |rounded| && agents != [] && DistinctIds(agents)
    ensures Exact(Distribution(agents, total, rounded), total)
  {
    hide Exact, Distribution, EndOf;
    RightExactly(agents, total, rounded);
  }

  // ----- Sizes -----

  /** How many of the first `n` deals of `len` agents go to place `p`. */
  function Deals(n: nat, len: nat, p: nat): nat
    requires len > 0
  {
    if n == 0 then 0 else Deals(n - 1, len, p) + if (n - 1) % len == p then 1 else 0
  }

  /** Fewer deals than agents go to the first places, one each. */
  lemma {:induction false} DealsOnce(n: nat, len: nat, p: nat)
    requires n <= len && p < len
    ensures Deals(n, len, p) == if p < n then 1 else 0
  {
    if n > 0 {
      DealsOnce(n - 1, len, p);
      Small(n - 1, len);
    }
  }

  lemma Small(n: nat, len: nat)
    requires n < len
    ensures n % len == n && n / len == 0
  {
  }

  lemma AtLeastOnce(k: nat, len: nat)
    requires k >= 1
    ensures k * len >= len
  {
    assert k * len == len + (k - 1) * len;
  }

  /** Dealing adds to the size of the agent at place `p` its number of deals. */
  lemma {:induction false} DealtSize(shares: map<nat, Share>, order: seq<CapabilityAgent>, from: nat, n: nat, p: nat)
    requires p < |order| && DistinctIds(order) && order[p].id in shares
    ensures var m := Dealt(shares, order, from, n);
            order[p].id in m && m[order[p].id].size == shares[order[p].id].size + Deals(n, |order|, p)
  {
    if n > 0 {
      DealtSize(shares, order, from, n - 1, p);
      var q := (n - 1) % |order|;
      if q < p {
        assert order[q].id != order[p].id;
      } else if p < q {
        assert order[p].id != order[q].id;
      }
    }
  }

  /** Distinct ids stay distinct when sorted. */
  lemma SortKeepsDistinctIds(agents: seq<CapabilityAgent>)
    requires DistinctIds(agents)
    ensures DistinctIds(ByTrust(agents))
  {
    hide ByTrust;
    var order := ByTrust(agents);
    forall i, j | 0 <= i < j < |order| ensures order[i].id != order[j].id {
      assert order[i] in multiset(order) && order[j] in multiset(order);
      assert order[i] in multiset(agents) && order[j] in multiset(agents);
      if order[i].id == order[j].id {
        SameIdSameAgent(agents, order[i], order[j]);
        Sums.TwiceInMultiset(order, i, j);
        OnceInMultiset(agents, order[i]);
      }
    }
  }

  lemma SameIdSameAgent(agents: seq<CapabilityAgent>, a: CapabilityAgent, b: CapabilityAgent)
    requires DistinctIds(agents) && a in agents && b in agents && a.id == b.id
    ensures a == b
  {
    var i :| 0 <= i < |agents| && agents[i] == a;
    var j :| 0 <= j < |agents| && agents[j] == b;
    assert i == j;
  }

  lemma OnceInMultiset(agents: seq<CapabilityAgent>, a: CapabilityAgent)
    requires DistinctIds(agents)
    ensures multiset(agents)[a] <= 1
  {
    assert Sums.Distinct(agents);
    Sums.DistinctMultiplicity(agents, a);
  }

  /** With distinct ids, the agent at place `p` of the trust order ends with its consecutive share
      and its deals of the rest. */
  lemma FinalSize(agents: seq<CapabilityAgent>, total: nat, rounded: seq<nat>, p: nat, i: nat)
    requires |agents| == |rounded| && DistinctIds(agents) && total > 0
    requires i < |agents| && p < |agents| && ByTrust(agents)[p] == agents[i]
    ensures var m := Distribution(agents, total, rounded);
            agents[i].id in m &&
            m[agents[i].id].size == EndOf(total, rounded, i + 1) - EndOf(total, rounded, i) +
                                    Deals(total - EndOf(total, rounded, |agents|), |agents|, p)
  {
    hide Dealt, Consecutive, ByTrust, EndOf, Deals;
    var n, order := |agents|, ByTrust(agents);
    SortKeepsDistinctIds(agents);
    ConsecutiveShare(agents, total, rounded, n, agents[i].id);
    var l := Latest(agents, n, agents[i].id);
    assert l == i;
    var end := EndOf(total, rounded, n);
    DealtSize(Consecutive(agents, total, rounded, n), order, end, total - end, p);
  }

  // ----- Exact quotas -----

  function TotalTrust(agents: seq<CapabilityAgent>): nat {
    if agents == [] then 0 else TotalTrust(agents[..|agents| - 1]) + agents[|agents| - 1].trust
  }

  /** How many agents have any trust. */
  function Trusted(agents: seq<CapabilityAgent>): (n: nat)
    ensures n <= |agents|
  {
    if agents == [] then 0
    else Trusted(agents[..|agents| - 1]) + if agents[|agents| - 1].trust > 0 then 1 else 0
  }

  /** The floor of an agent's exact quota; none when nobody has any trust. */
  function Quota(total: nat, trust: nat, all: nat): nat {
    if all == 0 then 0 else total * trust / all
  }

  function Quotas(agents: seq<CapabilityAgent>, total: nat): (q: seq<nat>)
    ensures |q| == |agents| && forall i :: 0 <= i < |q| ==> q[i] == Quota(total, agents[i].trust, TotalTrust(agents))
  {
    seq(|agents|, i requires 0 <= i < |agents| => Quota(total, agents[i].trust, TotalTrust(agents)))
  }

  lemma {:induction false} TrustGrows(agents: seq<CapabilityAgent>, k: nat)
    requires k <= |agents|
    ensures TotalTrust(agents[..k]) <= TotalTrust(agents)
    decreases |agents|
  {
    if k == |agents| {
      assert agents[..k] == agents;
    } else {
      assert agents[..|agents| - 1][..k] == agents[..k];
      TrustGrows(agents[..|agents| - 1], k);
    }
  }

  lemma FloorBounds(total: nat, trust: nat, all: nat)
    requires all > 0
    ensures var q := Quota(total, trust, all);
            q * all <= total * trust <= q * all + (if trust > 0 then all - 1 else 0)
  {
    var a := total * trust;
    assert a == a / all * all + a % all;
    if trust == 0 {
      Small(0, all);
    }
  }

  lemma LessByProduct(a: nat, b: nat, c: nat)
    requires c > 0 && Product(a, c) <= Product(b, c)
    ensures a <= b
  {
    if a > b {
      Spread(b, a - b, c);
      AtLeastOnce(a - b, c);
    }
  }

  function Product(a: int, b: int): int {
    a * b
  }

  lemma Spread(a: int, b: int, c: int)
    ensures Product(a + b, c) == Product(a, c) + Product(b, c)
    ensures Product(c, a + b) == Product(c, a) + Product(c, b)
  {
  }

  /** Exact quotas never reach past the end, and fall short of the exact share by less than one
      index an agent with trust. */
  lemma {:induction false} QuotasFallShort(agents: seq<CapabilityAgent>, total: nat, k: nat)
    requires k <= |agents| && TotalTrust(agents) > 0
    ensures var all, e := TotalTrust(agents), EndOf(total, Quotas(agents, total), k);
            Product(e, all) <= Product(total, TotalTrust(agents[..k])) <=
            Product(e, all) + Product(all - 1, Trusted(agents[..k])) &&
            (k > 0 ==> e == EndOf(total, Quotas(agents, total), k - 1) + Quotas(agents, total)[k - 1])
  {
    hide Quota, Quotas, TotalTrust, Trusted, Product;
    if k == 0 {
      NothingOwed(agents, total);
    } else {
      QuotasFallShort(agents, total, k - 1);
      TotalsStep(agents, k - 1);
      var all, before, trust := TotalTrust(agents), EndOf(total, Quotas(agents, total), k - 1), agents[k - 1].trust;
      var q := Quotas(agents, total)[k - 1];
      TrustGrows(agents, k);
      QuotaStep(total, before, trust, all, TotalTrust(agents[..k - 1]), Trusted(agents[..k - 1]));
    }
  }

  lemma NothingOwed(agents: seq<CapabilityAgent>, total: nat)
    ensures TotalTrust(agents[..0]) == 0 && Trusted(agents[..0]) == 0
    ensures Product(0, TotalTrust(agents)) == Product(total, 0) == Product(TotalTrust(agents) - 1, 0) == 0
  {
  }

  lemma TotalsStep(agents: seq<CapabilityAgent>, k: nat)
    requires k < |agents|
    ensures TotalTrust(agents[..k + 1]) == TotalTrust(agents[..k]) + agents[k].trust
    ensures Trusted(agents[..k + 1]) == Trusted(agents[..k]) + if agents[k].trust > 0 then 1 else 0
  {
    assert agents[..k + 1][..k] == agents[..k];
  }

  lemma QuotaStep(total: nat, e: nat, trust: nat, all: nat, t: nat, p: nat)
    requires all > 0 && t + trust <= all
    requires Product(e, all) <= Product(total, t) <= Product(e, all) + Product(all - 1, p)
    ensures var next := e + Quota(total, trust, all);
            next <= total &&
            Product(next, all) <= Product(total, t + trust) <=
              Product(next, all) + Product(all - 1, if trust > 0 then p + 1 else p)
  {
    hide Quota;
    var q := Quota(total, trust, all);
    FloorBounds(total, trust, all);
    assert Product(q, all) <= Product(total, trust) <= Product(q, all) + (if trust > 0 then all - 1 else 0);
    assert Product(all - 1, 1) == all - 1;
    hide Product;
    Spread(e, q, all);
    Spread(t, trust, total);
    Spread(p, 1, all - 1);
    Spread(t + trust, all - t - trust, total);
    assert Product(e + q, all) <= Product(total, all) by {
      assert Product(total, all - t - trust) >= 0 by { Natural(total, all - t - trust); }
    }
    LessByProduct(e + q, total, all);
  }

  lemma Natural(a: nat, b: nat)
    ensures Product(a, b) >= 0
  {
  }

  /** The remainder dealt round is smaller than the number of agents with trust. */
  lemma RemainderIsSmall(agents: seq<CapabilityAgent>, total: nat)
    requires TotalTrust(agents) > 0
    ensures total - EndOf(total, Quotas(agents, total), |agents|) < Trusted(agents)
  {
    hide EndOf, Quotas, Product;
    var n, all := |agents|, TotalTrust(agents);
    QuotasFallShort(agents, total, n);
    assert agents[..n] == agents;
    SomeoneTrusted(agents);
    var e, p := EndOf(total, Quotas(agents, total), n), Trusted(agents);
    if total - e >= p {
      Spread(e, total - e, all);
      Spread(p, total - e - p, all);
      Natural(total - e - p, all);
      OneLess(all, p);
    }
  }

  lemma OneLess(all: nat, p: nat)
    requires p > 0 && all > 0
    ensures Product(all - 1, p) < Product(p, all)
  {
    assert (all - 1) * p == p * all - p;
  }

  lemma {:induction false} SomeoneTrusted(agents: seq<CapabilityAgent>)
    requires TotalTrust(agents) > 0
    ensures Trusted(agents) > 0
    decreases |agents|
  {
    if agents[|agents| - 1].trust == 0 {
      SomeoneTrusted(agents[..|agents| - 1]);
    }
  }

  /** Past the first `p` of a descending order, which ends in no trust, nobody has any. */
  lemma {:induction false} TrustedAtMost(order: seq<CapabilityAgent>, p: nat)
    requires Descends(order) && p < |order| && order[p].trust == 0
    ensures Trusted(order) <= p
    decreases |order|
  {
    var init := order[..|order| - 1];
    if |init| > p {
      TrustedAtMost(init, p);
      assert order[|order| - 1].trust <= order[p].trust;
    }
  }

  lemma {:induction false} TrustedSplit(s: seq<CapabilityAgent>, t: seq<CapabilityAgent>)
    ensures Trusted(s + t) == Trusted(s) + Trusted(t)
    decreases |t|
  {
    if t == [] {
      assert s + t == s;
    } else {
      TrustedSplit(s, t[..|t| - 1]);
      assert (s + t)[..|s + t| - 1] == s + t[..|t| - 1];
    }
  }

  lemma {:induction false} TrustedRearranged(s: seq<CapabilityAgent>, t: seq<CapabilityAgent>)
    requires multiset(s) == multiset(t)
    ensures Trusted(s) == Trusted(t)
    decreases |s|
  {
    if s == [] {
      assert |multiset(s)| == |s| && |multiset(t)| == |t|;
    } else {
      hide Trusted;
      var k := Sums.Locate(s, t);
      TrustedRearranged(s[1..], t[..k] + t[k + 1..]);
      TrustedSplit(t[..k], t[k + 1..]);
      TrustedSplit(t[..k], [t[k]] + t[k + 1..]);
      TrustedSplit([t[k]], t[k + 1..]);
      TrustedSplit([s[0]], s[1..]);
      assert s == [s[0]] + s[1..] && t == t[..k] + ([t[k]] + t[k + 1..]);
    }
  }

  /** In exact arithmetic, with distinct ids and some trust, every share is the floor of its quota
      or one more, the extra indices going to the first of the trust order, and an agent without
      trust gets none. */
  lemma SharesAreFloorOrOneMore(agents: seq<CapabilityAgent>, total: nat, p: nat, i: nat)
    requires DistinctIds(agents) && TotalTrust(agents) > 0 && total > 0
    requires i < |agents| && p < |agents| && ByTrust(agents)[p] == agents[i]
    ensures var m := Distribution(agents, total, Quotas(agents, total));
            var rest := total - EndOf(total, Quotas(agents, total), |agents|);
            var quota := Quota(total, agents[i].trust, TotalTrust(agents));
            agents[i].id in m &&
            m[agents[i].id].size == (if p < rest then quota + 1 else quota) &&
            (agents[i].trust == 0 ==> m[agents[i].id].size == 0)
  {
    hide Distribution, ByTrust, EndOf, Deals, Quota;
    var n := |agents|;
    FinalSize(agents, total, Quotas(agents, total), p, i);
    QuotasFallShort(agents, total, i + 1);
    RemainderIsSmall(agents, total);
    var rest := total - EndOf(total, Quotas(agents, total), n);
    DealsOnce(rest, n, p);
    if agents[i].trust == 0 {
      SortSorts(agents);
      TrustedRearranged(ByTrust(agents), agents);
      TrustedAtMost(ByTrust(agents), p);
      NoQuota(total, TotalTrust(agents));
    }
  }

  lemma NoQuota(total: nat, all: nat)
    ensures Quota(total, 0, all) == 0
  {
    if all > 0 {
      FloorBounds(total, 0, all);
      AtMostZero(Quota(total, 0, all), all);
    }
  }

  lemma AtMostZero(q: nat, all: nat)
    requires all > 0 && q * all <= 0
    ensures q == 0
  {
    if q > 0 {
      AtLeastOnce(q, all);
    }
  }

  // ----- The records -----

  ghost predicate Named(shares: map<nat, Share>) {
    forall id :: id in shares ==> shares[id].agentId == id && shares[id].size == |shares[id].indices|
  }

  lemma {:induction false} ConsecutiveNamed(agents: seq<CapabilityAgent>, total: nat, rounded: seq<nat>, k: nat)
    requires k <= |agents| == |rounded|
    ensures Named(Consecutive(agents, total, rounded, k))
  {
    hide EndOf;
    if k > 0 {
      ConsecutiveNamed(agents, total, rounded, k - 1);
      EndsAscend(total, rounded, k - 1);
    }
  }

  lemma {:induction false} DealtNamed(shares: map<nat, Share>, order: seq<CapabilityAgent>, from: nat, n: nat)
    requires order != [] && Named(shares)
    ensures Named(Dealt(shares, order, from, n))
  {
    if n > 0 {
      DealtNamed(shares, order, from, n - 1);
    }
  }

  /** Every share is filed under its own agent's id and its size is its number of indices. */
  lemma SharesAreNamed(agents: seq<CapabilityAgent>, total: nat, rounded: seq<nat>)
    requires |rounded| == |agents|
    ensures var shares := Distribution(agents, total, rounded);
            forall id :: id in shares ==> shares[id].agentId == id && shares[id].size == |shares[id].indices|
  {
    hide Consecutive, Dealt, EndOf, ByTrust;
    if agents != [] && total > 0 {
      var n := |agents|;
      ConsecutiveNamed(agents, total, rounded, n);
      DealtNamed(Consecutive(agents, total, rounded, n), ByTrust(agents), EndOf(total, rounded, n),
                 total - EndOf(total, rounded, n));
    }
  }
}
