/** Coalition structures: an assignment gives each agent index a block id. The canonical
    form, the blocks, and the realisation of an integer partition by a shuffled cut. */
module SetPartitions {
  import opened IntegerPartitions
  import opened Sums
  import Draws

  type Assignment = seq<nat>

  /** Same pairs of agents together. */
  ghost predicate SamePartition(a: Assignment, b: Assignment) {
    |a| == |b| && forall i, j :: 0 <= i < |a| && 0 <= j < |a| ==> (a[i] == a[j] <==> b[i] == b[j])
  }

  /** Dense ids in first-occurrence order: before each id comes the id one less. */
  ghost predicate IsCanonical(c: Assignment) {
    forall i :: 0 <= i < |c| && c[i] > 0 ==> c[i] - 1 in c[..i]
  }

  // ----- The canonical form -----

  function MaxId(a: Assignment): (m: nat)
    ensures forall i :: 0 <= i < |a| ==> a[i] <= m
    ensures a != [] ==> m in a
  {
    if a == [] then 0
    else
      var m := MaxId(a[..|a| - 1]);
      assert a == a[..|a| - 1] + [a[|a| - 1]];
      if a[|a| - 1] > m || |a| == 1 then a[|a| - 1] else m
  }

  /** The id after the largest one of `c`. */
  function NextId(c: Assignment): nat {
    if c == [] then 0 else MaxId(c) + 1
  }

  /** In a canonical assignment every id below one in use is in use, earlier. */
  lemma {:induction false} IdsAreDense(c: Assignment, i: nat, v: nat)
    requires IsCanonical(c) && i < |c| && v < c[i]
    ensures v in c[..i]
    decreases c[i] - v
  {
    var j :| 0 <= j < i && c[..i][j] == c[i] - 1;
    if v < c[i] - 1 {
      IdsAreDense(c, j, v);
      assert c[..j] <= c[..i];
    }
  }

  lemma CanonicalPrefix(c: Assignment, i: nat)
    requires IsCanonical(c) && i <= |c|
    ensures IsCanonical(c[..i])
  {
    forall k | 0 <= k < i && c[..i][k] > 0 ensures c[..i][k] - 1 in c[..i][..k] {
      assert c[..i][..k] == c[..k];
    }
  }

  /** The canonical form decides the partition: two canonical assignments with the same
      pairs together are equal. */
  lemma {:induction false} CanonicalIsUnique(c: Assignment, d: Assignment)
    requires IsCanonical(c) && IsCanonical(d) && SamePartition(c, d)
    ensures c == d
    decreases |c|
  {
    SameLength(c, d);
    if c != [] {
      hide IsCanonical, SamePartition;
      var n := |c| - 1;
      SamePrefix(c, d, n);
      CanonicalPrefix(c, n);
      CanonicalPrefix(d, n);
      CanonicalIsUnique(c[..n], d[..n]);
      LastIdAgrees(c, d, n);
      assert c == c[..n] + [c[n]] && d == d[..n] + [d[n]];
    }
  }

  lemma SameLength(a: Assignment, b: Assignment)
    requires SamePartition(a, b)
    ensures |a| == |b|
  {
  }

  lemma SamePrefix(a: Assignment, b: Assignment, n: nat)
    requires SamePartition(a, b) && n <= |a|
    ensures SamePartition(a[..n], b[..n])
  {
  }

  lemma LastIdAgrees(c: Assignment, d: Assignment, n: nat)
    requires IsCanonical(c) && IsCanonical(d) && SamePartition(c, d)
    requires n < |c| && c[..n] == d[..n]
    ensures c[n] == d[n]
  {
    hide IsCanonical;
    if c[n] in c[..n] {
      var j :| 0 <= j < n && c[..n][j] == c[n];
      assert d[j] == d[..n][j] == c[j];
    } else if c[n] < d[n] {
      IdsAreDense(d, n, c[n]);
    } else if d[n] < c[n] {
      IdsAreDense(c, n, d[n]);
    }
  }

  /** The first index of `x` in `a`; the length of `a` if there is none. */
  function Find(a: Assignment, x: nat): (j: nat)
    ensures j <= |a|
    ensures j < |a| <==> x in a
    ensures j < |a| ==> a[j] == x
  {
    if a == [] || a[0] == x then 0 else 1 + Find(a[1..], x)
  }

  /** The canonical form of `a`: a known id keeps its new id, a new one gets the next. */
  function Canonical(a: Assignment): (c: Assignment)
    ensures |c| == |a|
  {
    if a == [] then []
    else
      var init, last := a[..|a| - 1], a[|a| - 1];
      var c := Canonical(init);
      c + [if last in init then c[Find(init, last)] else NextId(c)]
  }

  lemma {:induction false} CanonicalIsCanonical(a: Assignment)
    ensures IsCanonical(Canonical(a)) && SamePartition(a, Canonical(a))
    decreases |a|
  {
    if a != [] {
      var init, last := a[..|a| - 1], a[|a| - 1];
      CanonicalIsCanonical(init);
      ExtendCanonical(init, Canonical(init), last);
      assert a == init + [last];
    }
  }

  /** One step of relabelling keeps the labels canonical and the pairs together. */
  lemma ExtendCanonical(init: Assignment, c: Assignment, last: nat)
    requires IsCanonical(c) && SamePartition(init, c)
    ensures var id := if last in init then c[Find(init, last)] else NextId(c);
            IsCanonical(c + [id]) && SamePartition(init + [last], c + [id])
  {
    if last in init {
      var j := Find(init, last);
      ExtendWithKnown(c, j);
      SamePartitionExtends(init, c, last, c[j]);
    } else {
      ExtendWithNew(c);
      SamePartitionExtends(init, c, last, NextId(c));
    }
  }

  lemma SamePartitionExtends(a: Assignment, c: Assignment, x: nat, y: nat)
    requires SamePartition(a, c)
    requires forall i :: 0 <= i < |a| ==> (a[i] == x <==> c[i] == y)
    ensures SamePartition(a + [x], c + [y])
  {
  }

  lemma ExtendWithKnown(p: Assignment, j: nat)
    requires IsCanonical(p) && j < |p|
    ensures IsCanonical(p + [p[j]])
  {
    var c := p + [p[j]];
    forall i | 0 <= i < |c| && c[i] > 0 ensures c[i] - 1 in c[..i] {
      if i == |p| {
        assert c[..i] == p;
        assert p[j] - 1 in p[..j];
      } else {
        assert c[..i] == p[..i];
      }
    }
  }

  lemma ExtendWithNew(p: Assignment)
    requires IsCanonical(p)
    ensures IsCanonical(p + [NextId(p)])
    ensures NextId(p) !in p
  {
    hide MaxId, NextId;
    NextIdIsFree(p);
    var c := p + [NextId(p)];
    forall i | 0 <= i < |c| && c[i] > 0 ensures c[i] - 1 in c[..i] {
      if i == |p| {
        assert c[..i] == p;
      } else {
        assert c[..i] == p[..i];
      }
    }
  }

  lemma NextIdIsFree(p: Assignment)
    ensures NextId(p) !in p
    ensures NextId(p) > 0 ==> NextId(p) - 1 in p
    ensures forall i :: 0 <= i < |p| ==> p[i] < NextId(p)
  {
  }

  lemma SamePartitionIsEquivalence(a: Assignment, b: Assignment, c: Assignment)
    ensures SamePartition(a, a)
    ensures SamePartition(a, b) ==> SamePartition(b, a)
    ensures SamePartition(a, b) && SamePartition(b, c) ==> SamePartition(a, c)
  {
  }

  /** Idempotent, and equal on two assignments exactly when they put the same pairs together. */
  lemma CanonicalForm(a: Assignment, b: Assignment)
    ensures Canonical(Canonical(a)) == Canonical(a)
    ensures Canonical(a) == Canonical(b) <==> SamePartition(a, b)
  {
    hide SamePartition, IsCanonical, Canonical;
    var ca, cb := Canonical(a), Canonical(b);
    CanonicalIsCanonical(a);
    CanonicalIsCanonical(b);
    CanonicalIsCanonical(ca);
    SamePartitionIsEquivalence(ca, Canonical(ca), ca);
    CanonicalIsUnique(Canonical(ca), ca);
    SamePartitionIsEquivalence(b, cb, b);
    SamePartitionIsEquivalence(a, ca, b);
    SamePartitionIsEquivalence(ca, a, b);
    SamePartitionIsEquivalence(ca, b, cb);
    if SamePartition(a, b) {
      CanonicalIsUnique(ca, cb);
    }
  }

  /** Relabels in place, keeping a map from old ids to new ones and the next free id. */
  method Canonicalize(a: array<nat>)
    modifies a
    ensures a[..] == Canonical(old(a[..]))
  {
    hide MaxId, NextId, Canonical, Find;
    var remap: map<nat, nat>, next := map[], 0;
    ghost var was := a[..];
    NothingSeen();
    for k := 0 to a.Length
      invariant a[k..] == was[k..]
      invariant a[..k] == Canonical(was[..k])
      invariant RemapIs(remap, was[..k], a[..k])
      invariant next == NextId(a[..k])
    {
      ghost var init, c := was[..k], a[..k];
      assert a[k] == was[k];
      assert was[..k + 1] == init + [was[k]];
      RemapStep(remap, init, c, was[k]);
      if a[k] in remap {
        a[k] := remap[a[k]];
      } else {
        remap := remap[a[k] := next];
        a[k] := next;
        next := next + 1;
      }
      assert a[..k + 1] == c + [a[k]];
    }
    assert a[..] == a[..a.Length] && was == was[..a.Length];
  }

  /** The map knows exactly the ids seen, each with the new id of its first occurrence. */
  ghost predicate RemapIs(remap: map<nat, nat>, init: Assignment, c: Assignment) {
    |init| == |c| &&
    (forall x :: x in remap <==> x in init) &&
    forall x :: x in remap ==> remap[x] == c[Find(init, x)]
  }

  lemma NothingSeen()
    ensures Canonical([]) == [] && NextId([]) == 0 && RemapIs(map[], [], [])
  {
  }

  lemma RemapStep(remap: map<nat, nat>, init: Assignment, c: Assignment, x: nat)
    requires c == Canonical(init) && RemapIs(remap, init, c)
    ensures x in remap ==>
              Canonical(init + [x]) == c + [remap[x]] &&
              NextId(c + [remap[x]]) == NextId(c) &&
              RemapIs(remap, init + [x], c + [remap[x]])
    ensures x !in remap ==>
              Canonical(init + [x]) == c + [NextId(c)] &&
              NextId(c + [NextId(c)]) == NextId(c) + 1 &&
              RemapIs(remap[x := NextId(c)], init + [x], c + [NextId(c)])
  {
    CanonicalStep(init, x);
    KnownStep(remap, init, c, x);
    if x in init {
      NextIdStep(c, remap[x]);
    } else {
      NextIdStep(c, NextId(c));
    }
  }

  lemma CanonicalStep(init: Assignment, x: nat)
    ensures var c := Canonical(init);
            Canonical(init + [x]) == c + [if x in init then c[Find(init, x)] else NextId(c)]
  {
    assert (init + [x])[..|init|] == init;
  }

  lemma NextIdStep(c: Assignment, id: nat)
    ensures id in c ==> NextId(c + [id]) == NextId(c)
    ensures id == NextId(c) ==> NextId(c + [id]) == NextId(c) + 1
  {
    assert (c + [id])[..|c|] == c;
  }

  lemma KnownStep(remap: map<nat, nat>, init: Assignment, c: Assignment, x: nat)
    requires RemapIs(remap, init, c)
    ensures x in remap ==> RemapIs(remap, init + [x], c + [remap[x]])
    ensures forall id :: x !in remap ==> RemapIs(remap[x := id], init + [x], c + [id])
  {
    hide Find;
    forall y ensures y in init ==> Find(init + [x], y) == Find(init, y) {
      FindInLonger(init, x, y);
    }
    FindInLonger(init, x, x);
  }

  lemma {:induction false} FindInLonger(init: Assignment, x: nat, y: nat)
    ensures y in init ==> Find(init + [x], y) == Find(init, y)
    ensures x == y && y !in init ==> Find(init + [x], y) == |init|
  {
    if init != [] && init[0] != y {
      assert (init + [x])[1..] == init[1..] + [x];
      FindInLonger(init[1..], x, y);
    }
  }

  // ----- The blocks -----

  /** The agents with id `b`, ascending. */
  function Block(a: Assignment, b: nat): seq<nat> {
    if a == [] then []
    else Block(a[..|a| - 1], b) + if a[|a| - 1] == b then [|a| - 1] else []
  }

  /** The non-empty blocks with ids below `k`, in id order. */
  function BlocksBelow(a: Assignment, k: nat): seq<seq<nat>> {
    if k == 0 then []
    else BlocksBelow(a, k - 1) + if Block(a, k - 1) == [] then [] else [Block(a, k - 1)]
  }

  function Blocks(a: Assignment): seq<seq<nat>> {
    BlocksBelow(a, NextId(a))
  }

  /** Pushes each agent into the bucket of its id, then drops the empty buckets. */
  method AssignmentBlocks(a: Assignment) returns (blocks: seq<seq<nat>>)
    ensures blocks == Blocks(a)
  {
    hide MaxId, Block;
    if a == [] {
      return [];
    }
    NoAgents();
    var buckets := seq(MaxId(a) + 1, _ => []);
    for i := 0 to |a|
      invariant |buckets| == MaxId(a) + 1
      invariant forall b :: 0 <= b < |buckets| ==> buckets[b] == Block(a[..i], b)
    {
      BlockStep(a, i);
      buckets := buckets[a[i] := buckets[a[i]] + [i]];
    }
    assert a[..|a|] == a;
    blocks := [];
    for b := 0 to |buckets|
      invariant blocks == BlocksBelow(a, b)
    {
      if buckets[b] != [] {
        blocks := blocks + [buckets[b]];
      }
    }
  }

  lemma NoAgents()
    ensures forall b :: Block([], b) == []
  {
  }

  lemma BlockStep(a: Assignment, i: nat)
    requires i < |a|
    ensures forall b :: Block(a[..i + 1], b) == Block(a[..i], b) + if a[i] == b then [i] else []
  {
    assert a[..i + 1][..i] == a[..i];
  }

  lemma {:induction false} BlockMembers(a: Assignment, b: nat, i: nat)
    ensures i in Block(a, b) <==> i < |a| && a[i] == b
  {
    if a != [] {
      BlockMembers(a[..|a| - 1], b, i);
    }
  }

  lemma {:induction false} BlockAscends(a: Assignment, b: nat)
    ensures forall i, j :: 0 <= i < j < |Block(a, b)| ==> Block(a, b)[i] < Block(a, b)[j]
    ensures forall i :: 0 <= i < |Block(a, b)| ==> Block(a, b)[i] < |a|
  {
    if a != [] {
      BlockAscends(a[..|a| - 1], b);
    }
  }

  ghost predicate IsBlockBelow(a: Assignment, k: nat, blk: seq<nat>) {
    blk != [] && exists b :: 0 <= b < k && blk == Block(a, b)
  }

  lemma BlockBelowStep(a: Assignment, k: nat, blk: seq<nat>)
    ensures IsBlockBelow(a, k + 1, blk) <==> IsBlockBelow(a, k, blk) || (blk != [] && blk == Block(a, k))
  {
    hide Block;
  }

  lemma BlocksBelowStep(a: Assignment, k: nat, blk: seq<nat>)
    ensures blk in BlocksBelow(a, k + 1) <==> blk in BlocksBelow(a, k) || (blk != [] && blk == Block(a, k))
  {
    hide Block;
  }

  lemma {:induction false} BlocksBelowMembers(a: Assignment, k: nat, blk: seq<nat>)
    ensures blk in BlocksBelow(a, k) <==> IsBlockBelow(a, k, blk)
  {
    hide Block;
    if k > 0 {
      BlocksBelowMembers(a, k - 1, blk);
      hide BlocksBelow, IsBlockBelow;
      BlockBelowStep(a, k - 1, blk);
      BlocksBelowStep(a, k - 1, blk);
    }
  }

  /** A block is the block of each of its members. */
  lemma BlockOfMember(a: Assignment, b: nat, i: nat)
    requires i in Block(a, b)
    ensures i < |a| && a[i] == b
  {
    BlockMembers(a, b, i);
  }

  lemma BlockIsSomeones(a: Assignment, blk: seq<nat>)
    requires blk in Blocks(a)
    ensures blk != [] && blk[0] < |a| && blk == Block(a, a[blk[0]])
    ensures forall i, j :: 0 <= i < j < |blk| ==> blk[i] < blk[j]
    ensures forall i: nat :: i in blk ==> i < |a| && blk == Block(a, a[i])
  {
    hide Block, BlocksBelow;
    BlocksBelowMembers(a, NextId(a), blk);
    var b :| 0 <= b < NextId(a) && blk == Block(a, b);
    BlockAscends(a, b);
    forall i: nat | i in blk ensures i < |a| && blk == Block(a, a[i]) {
      BlockOfMember(a, b, i);
    }
    assert blk[0] in blk;
  }

  lemma OwnBlock(a: Assignment, i: nat)
    requires i < |a|
    ensures i in Block(a, a[i]) && Block(a, a[i]) in Blocks(a)
  {
    hide Block, BlocksBelow;
    BlockMembers(a, a[i], i);
    NextIdIsFree(a);
    BlocksBelowMembers(a, NextId(a), Block(a, a[i]));
  }

  /** The blocks are those of the agents: non-empty, ascending, each agent in its own block
      and in no other, two agents together exactly when their ids agree. */
  lemma BlocksPartitionAgents(a: Assignment, blk: seq<nat>)
    ensures blk in Blocks(a) <==> exists i :: 0 <= i < |a| && blk == Block(a, a[i])
    ensures blk in Blocks(a) ==> blk != [] && forall i, j :: 0 <= i < j < |blk| ==> blk[i] < blk[j]
    ensures forall i: nat :: i < |a| ==> i in Block(a, a[i])
    ensures blk in Blocks(a) ==>
              forall i: nat :: i in blk ==> i < |a| && blk == Block(a, a[i])
  {
    hide Block, Blocks;
    forall i: nat | i < |a| ensures i in Block(a, a[i]) && Block(a, a[i]) in Blocks(a) {
      OwnBlock(a, i);
    }
    if blk in Blocks(a) {
      BlockIsSomeones(a, blk);
    }
  }

  lemma {:induction false} BlocksBelowDistinct(a: Assignment, k: nat)
    ensures Distinct(BlocksBelow(a, k))
  {
    hide Block;
    if k > 0 {
      BlocksBelowDistinct(a, k - 1);
      if Block(a, k - 1) != [] {
        BlockIsNew(a, k - 1);
      }
    }
  }

  lemma BlocksDistinct(a: Assignment)
    ensures Distinct(Blocks(a))
  {
    BlocksBelowDistinct(a, NextId(a));
  }

  lemma BlockIsNew(a: Assignment, k: nat)
    requires Block(a, k) != []
    ensures Block(a, k) !in BlocksBelow(a, k)
  {
    hide Block;
    var blk := Block(a, k);
    BlocksBelowMembers(a, k, blk);
    BlockMembers(a, k, blk[0]);
    forall b | 0 <= b < k ensures blk != Block(a, b) {
      BlockMembers(a, b, blk[0]);
    }
  }

  lemma {:induction false} BlockOfSame(a: Assignment, c: Assignment, x: nat, y: nat)
    requires |a| == |c| && forall i :: 0 <= i < |a| ==> (a[i] == x <==> c[i] == y)
    ensures Block(a, x) == Block(c, y)
  {
    if a != [] {
      BlockOfSame(a[..|a| - 1], c[..|a| - 1], x, y);
    }
  }

  /** Assignments with the same pairs together have the same blocks, up to order. */
  lemma SamePartitionSameBlocks(a: Assignment, c: Assignment)
    requires SamePartition(a, c)
    ensures multiset(Blocks(a)) == multiset(Blocks(c))
  {
    BlocksDistinct(a);
    BlocksDistinct(c);
    forall blk ensures blk in Blocks(a) <==> blk in Blocks(c) {
      BlocksPartitionAgents(a, blk);
      BlocksPartitionAgents(c, blk);
      forall i | 0 <= i < |a| ensures Block(a, a[i]) == Block(c, c[i]) {
        BlockOfSame(a, c, a[i], c[i]);
      }
    }
    DistinctSameElements(Blocks(a), Blocks(c));
  }

  lemma {:induction false} BlockSize(a: Assignment, b: nat)
    ensures |Block(a, b)| == multiset(a)[b]
  {
    if a != [] {
      BlockSize(a[..|a| - 1], b);
      assert a == a[..|a| - 1] + [a[|a| - 1]];
    }
  }

  // ----- Realising a shape -----

  const Length: seq<nat> -> nat := blk => |blk|

  function BlockSizes(a: Assignment): seq<nat> {
    Map(Length, Blocks(a))
  }

  function Repeat(x: nat, count: nat): (r: seq<nat>)
    ensures |r| == count && forall i :: 0 <= i < count ==> r[i] == x
  {
    seq(count, _ => x)
  }

  /** The block id of each position of a cut into consecutive blocks of the shape's sizes. */
  function CutLabels(shape: Partition, base: nat): (labels: seq<nat>)
    ensures |labels| == Total(shape)
  {
    if shape == [] then []
    else Repeat(base, shape[0]) + CutLabels(shape[1..], base + 1)
  }

  /** A position is in the block whose stretch of the shape it lies in. */
  lemma {:induction false} LabelsAreStretches(shape: Partition, base: nat, pos: nat, b: nat)
    requires pos < Total(shape) && b < |shape|
    ensures CutLabels(shape, base)[pos] == base + b <==> Total(shape[..b]) <= pos < Total(shape[..b + 1])
    ensures base <= CutLabels(shape, base)[pos] < base + |shape|
  {
    var tail := shape[1..];
    assert shape[..1] == [shape[0]] && [shape[0]][1..] == [] && shape[..0] == [];
    if b > 0 {
      assert shape[..b][1..] == tail[..b - 1] && shape[..b + 1][1..] == tail[..b];
    }
    if pos >= shape[0] {
      LabelsAreStretches(tail, base + 1, pos - shape[0], if b > 0 then b - 1 else 0);
    }
  }

  lemma {:induction false} RepeatMultiplicity(x: nat, count: nat, b: nat)
    ensures multiset(Repeat(x, count))[b] == if b == x then count else 0
  {
    if count > 0 {
      RepeatMultiplicity(x, count - 1, b);
      assert Repeat(x, count) == Repeat(x, count - 1) + [x];
    }
  }

  lemma {:induction false} CutMultiplicity(shape: Partition, base: nat, b: nat)
    ensures multiset(CutLabels(shape, base))[b] ==
            if base <= b < base + |shape| then shape[b - base] else 0
  {
    if shape != [] {
      hide Repeat;
      var head: seq<nat>, tail: seq<nat> := Repeat(base, shape[0]), CutLabels(shape[1..], base + 1);
      RepeatMultiplicity(base, shape[0], b);
      CutMultiplicity(shape[1..], base + 1, b);
      assert multiset(head + tail) == multiset(head) + multiset(tail);
    }
  }

  /** `a` puts the agent at position `pos` of `perm` into the block that position falls in. */
  ghost predicate IsCut(a: Assignment, perm: seq<nat>, shape: Partition) {
    |a| == |perm| == Total(shape) &&
    (forall i :: 0 <= i < |perm| ==> perm[i] < |a|) &&
    forall pos :: 0 <= pos < |perm| ==> a[perm[pos]] == CutLabels(shape, 0)[pos]
  }

  /** A cut along a permutation has as many agents of each id as the shape says. */
  lemma CutCounts(a: Assignment, perm: seq<nat>, shape: Partition, b: nat)
    requires IsCut(a, perm, shape) && multiset(perm) == multiset(Draws.Identity(|a|))
    ensures |Block(a, b)| == if b < |shape| then shape[b] else 0
  {
    var look := (i: nat) => if i < |a| then a[i] else 0;
    MapRearranged(look, perm, Draws.Identity(|a|));
    assert Map(look, perm) == CutLabels(shape, 0);
    assert Map(look, Draws.Identity(|a|)) == a;
    CutMultiplicity(shape, 0, b);
    BlockSize(a, b);
  }

  lemma {:induction false} SizesBelow(a: Assignment, shape: Partition, k: nat)
    requires k <= |shape| && Positive(shape)
    requires forall b :: 0 <= b < k ==> |Block(a, b)| == shape[b]
    ensures Map(Length, BlocksBelow(a, k)) == shape[..k]
  {
    if k > 0 {
      SizesBelow(a, shape, k - 1);
      assert shape[..k] == shape[..k - 1] + [shape[k - 1]];
    }
  }

  /** The block sizes of a cut are the shape itself. */
  lemma CutHasShape(a: Assignment, perm: seq<nat>, shape: Partition)
    requires IsCut(a, perm, shape) && multiset(perm) == multiset(Draws.Identity(|a|))
    requires Positive(shape)
    ensures BlockSizes(a) == shape
  {
    forall b: nat ensures |Block(a, b)| == if b < |shape| then shape[b] else 0 {
      CutCounts(a, perm, shape, b);
    }
    forall i | 0 <= i < |a| ensures a[i] < |shape| {
      BlockMembers(a, a[i], i);
    }
    if shape != [] {
      var last := |shape| - 1;
      BlockMembers(a, last, Block(a, last)[0]);
    }
    assert a == [] ==> shape == [] by {
      assert shape != [] ==> Total(shape) >= shape[0];
    }
    assert NextId(a) == |shape|;
    SizesBelow(a, shape, |shape|);
    assert shape[..|shape|] == shape;
  }

  /** Seeding realises the shape: the canonical form of a cut along any permutation is a
      canonical assignment whose block sizes are the shape's parts. */
  lemma SeedRealisesShape(a: Assignment, perm: seq<nat>, shape: Partition)
    requires IsCut(a, perm, shape) && multiset(perm) == multiset(Draws.Identity(|a|))
    requires Positive(shape)
    ensures IsCanonical(Canonical(a)) && SamePartition(a, Canonical(a))
    ensures multiset(BlockSizes(Canonical(a))) == multiset(shape)
  {
    CanonicalIsCanonical(a);
    SamePartitionSameBlocks(a, Canonical(a));
    MapRearranged(Length, Blocks(a), Blocks(Canonical(a)));
    CutHasShape(a, perm, shape);
  }

  // ----- The order of the blocks -----

  /** Each block has a first agent, and these agents' ids ascend. */
  ghost predicate Ascending(a: Assignment, blocks: seq<seq<nat>>) {
    (forall blk :: blk in blocks ==> blk != [] && blk[0] < |a|) &&
    forall i, j :: 0 <= i < j < |blocks| ==> IdOf(a, blocks[i]) < IdOf(a, blocks[j])
  }

  /** The id of a block, that of its first agent. */
  function IdOf(a: Assignment, blk: seq<nat>): nat {
    if blk != [] && blk[0] < |a| then a[blk[0]] else 0
  }

  lemma {:induction false} BlocksBelowAscend(a: Assignment, k: nat)
    ensures Ascending(a, BlocksBelow(a, k)) && forall blk :: blk in BlocksBelow(a, k) ==> IdOf(a, blk) < k
  {
    hide Block;
    if k > 0 {
      BlocksBelowAscend(a, k - 1);
      var last := Block(a, k - 1);
      if last != [] {
        BlockOfMember(a, k - 1, last[0]);
        OneMoreBlock(a, BlocksBelow(a, k - 1), last);
      }
    }
  }

  lemma OneMoreBlock(a: Assignment, blocks: seq<seq<nat>>, last: seq<nat>)
    requires Ascending(a, blocks) && last != [] && last[0] < |a|
    requires forall blk :: blk in blocks ==> IdOf(a, blk) < IdOf(a, last)
    ensures Ascending(a, blocks + [last])
  {
  }

  /** The blocks come in ascending order of their ids, so none twice. */
  lemma BlocksAscend(a: Assignment)
    ensures Ascending(a, Blocks(a))
  {
    BlocksBelowAscend(a, NextId(a));
  }
}
