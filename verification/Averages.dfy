/** The average bound against the structures it is about: over all labelled structures of a shape
    the mean fitness is the average bound, whatever the coalitions are worth. */
module Averages {
  import opened IntegerPartitions
  import opened PartitionBounds
  import opened Search
  import opened SetPartitions
  import opened Sorting
  import opened Sums
  import Draws

  // ----- Sums over lists -----

  function Kept<T>(p: T -> bool, s: seq<T>): seq<T> {
    if s == [] then [] else (if p(s[0]) then [s[0]] else []) + Kept(p, s[1..])
  }

  lemma {:induction false} KeptAre<T>(p: T -> bool, s: seq<T>, x: T)
    ensures x in Kept(p, s) <==> x in s && p(x)
  {
    if s != [] {
      KeptAre(p, s[1..], x);
      assert s == [s[0]] + s[1..];
    }
  }

  lemma {:induction false} KeptDistinct<T(!new)>(p: T -> bool, s: seq<T>)
    requires Distinct(s)
    ensures Distinct(Kept(p, s))
  {
    if s != [] {
      KeptDistinct(p, s[1..]);
      KeptAre(p, s[1..], s[0]);
    }
  }

  lemma {:induction false} SumSame<T>(f: T -> real, g: T -> real, s: seq<T>)
    requires forall x :: x in s ==> f(x) == g(x)
    ensures Sum(f, s) == Sum(g, s)
  {
    if s != [] {
      SumSame(f, g, s[1..]);
    }
  }

  lemma {:induction false} SumPlus<T>(f: T -> real, g: T -> real, h: T -> real, s: seq<T>)
    requires forall x :: x in s ==> h(x) == f(x) + g(x)
    ensures Sum(h, s) == Sum(f, s) + Sum(g, s)
  {
    if s != [] {
      SumPlus(f, g, h, s[1..]);
    }
  }

  lemma {:induction false} SumScaled<T>(f: T -> real, g: T -> real, c: real, s: seq<T>)
    requires forall x :: x in s ==> g(x) == f(x) * c
    ensures Sum(g, s) == Sum(f, s) * c
  {
    if s != [] {
      SumScaled(f, g, c, s[1..]);
    }
  }

  lemma {:induction false} SumConstant<T>(f: T -> real, m: real, s: seq<T>)
    requires forall x :: x in s ==> f(x) == m
    ensures Sum(f, s) == |s| as real * m
  {
    if s != [] {
      SumConstant(f, m, s[1..]);
      assert |s| as real == |s[1..]| as real + 1.0;
    }
  }

  function RowOf<S, T>(f: (S, T) -> real, x: S): T -> real {
    (y: T) => f(x, y)
  }

  function ColumnOf<S, T>(f: (S, T) -> real, y: T): S -> real {
    (x: S) => f(x, y)
  }

  function RowSums<S, T>(f: (S, T) -> real, t: seq<T>): S -> real {
    (x: S) => Sum(RowOf(f, x), t)
  }

  function ColumnSums<S, T>(f: (S, T) -> real, s: seq<S>): T -> real {
    (y: T) => Sum(ColumnOf(f, y), s)
  }

  /** Double sums can be taken in either order. */
  lemma {:induction false} SumsSwap<S, T>(f: (S, T) -> real, s: seq<S>, t: seq<T>)
    ensures Sum(RowSums(f, t), s) == Sum(ColumnSums(f, s), t)
  {
    if s == [] {
      SumConstant(ColumnSums(f, s), 0.0, t);
    } else {
      SumsSwap(f, s[1..], t);
      SumPlus(RowOf(f, s[0]), ColumnSums(f, s[1..]), ColumnSums(f, s), t);
    }
  }

  /** Of a duplicate-free list a sum that looks for one item finds it. */
  lemma {:induction false} SumPicks<T(!new)>(f: T -> real, g: T -> real, x: T, s: seq<T>)
    requires Distinct(s) && forall y :: y in s ==> g(y) == if x == y then f(y) else 0.0
    ensures Sum(g, s) == if x in s then f(x) else 0.0
  {
    if s != [] {
      SumPicks(f, g, x, s[1..]);
      assert s == [s[0]] + s[1..];
    }
  }

  lemma TailTimes<T>(s: seq<T>, m: real)
    requires |s| > 0
    ensures |s| as real * m == |s[1..]| as real * m + m
  {
    assert |s| as real == |s[1..]| as real + 1.0;
  }

  lemma {:induction false} SomeReachesMean<T>(f: T -> real, m: real, s: seq<T>) returns (x: T)
    requires |s| > 0 && Sum(f, s) >= |s| as real * m
    ensures x in s && f(x) >= m
  {
    TailTimes(s, m);
    if f(s[0]) >= m {
      x := s[0];
    } else {
      x := SomeReachesMean(f, m, s[1..]);
    }
  }

  /** A list whose items are all at least `m` and whose mean is no more is `m` throughout. */
  lemma {:induction false} AllAtMean<T>(f: T -> real, m: real, s: seq<T>)
    requires forall x :: x in s ==> f(x) >= m
    ensures Sum(f, s) >= |s| as real * m
    ensures Sum(f, s) <= |s| as real * m ==> forall x :: x in s ==> f(x) == m
  {
    if |s| > 0 {
      TailTimes(s, m);
      AllAtMean(f, m, s[1..]);
      assert s == [s[0]] + s[1..];
    }
  }

  // ----- All assignments, and all coalitions -----

  /** Every assignment of `ws` with one more agent, in a block below `m`. */
  function Extended(ws: seq<Assignment>, m: nat): seq<Assignment> {
    if m == 0 then [] else Extended(ws, m - 1) + Map((w: Assignment) => w + [m - 1], ws)
  }

  /** The assignments of `n` agents to blocks below `m`. */
  function AllAssignments(n: nat, m: nat): seq<Assignment> {
    if n == 0 then [[]] else Extended(AllAssignments(n - 1, m), m)
  }

  lemma {:induction false} ExtendedAre(ws: seq<Assignment>, m: nat, a: Assignment)
    ensures a in Extended(ws, m) <==> a != [] && a[|a| - 1] < m && a[..|a| - 1] in ws
  {
    if m > 0 {
      ExtendedAre(ws, m - 1, a);
      var last := Map((w: Assignment) => w + [m - 1], ws);
      assert a in Extended(ws, m) <==> a in Extended(ws, m - 1) || a in last;
      if a != [] && a[|a| - 1] == m - 1 && a[..|a| - 1] in ws {
        var k :| 0 <= k < |ws| && ws[k] == a[..|a| - 1];
        assert last[k] == a;
      }
      if a in last {
        var k :| 0 <= k < |ws| && last[k] == a;
        assert a[..|a| - 1] == ws[k];
      }
    }
  }

  lemma {:induction false} AllAssignmentsAre(n: nat, m: nat, a: Assignment)
    ensures a in AllAssignments(n, m) <==> |a| == n && forall i :: 0 <= i < n ==> a[i] < m
  {
    if n > 0 {
      ExtendedAre(AllAssignments(n - 1, m), m, a);
      if a != [] {
        AllAssignmentsAre(n - 1, m, a[..|a| - 1]);
      }
    }
  }

  lemma {:induction false} ExtendedDistinct(ws: seq<Assignment>, m: nat)
    requires Distinct(ws)
    ensures Distinct(Extended(ws, m))
  {
    if m > 0 {
      ExtendedDistinct(ws, m - 1);
      var head, last := Extended(ws, m - 1), Map((w: Assignment) => w + [m - 1], ws);
      forall i, j | 0 <= i < j < |ws| ensures last[i] != last[j] {
        assert last[i][..|ws[i]|] == ws[i] && last[j][..|ws[j]|] == ws[j];
      }
      forall i, j | 0 <= i < |head| && 0 <= j < |last| ensures head[i] != last[j] {
        ExtendedAre(ws, m - 1, head[i]);
        assert head[i] in head;
      }
    }
  }

  lemma {:induction false} AllAssignmentsDistinct(n: nat, m: nat)
    ensures Distinct(AllAssignments(n, m))
  {
    if n > 0 {
      AllAssignmentsDistinct(n - 1, m);
      ExtendedDistinct(AllAssignments(n - 1, m), m);
    }
  }

  /** A coalition as the assignment that puts its members in block one, all others in zero. */
  function CoalitionMarks(n: nat, k: nat): seq<Assignment> {
    Kept((w: Assignment) => |Block(w, 1)| == k, AllAssignments(n, 2))
  }

  const Marked: Assignment -> seq<nat> := w => Block(w, 1)

  /** The coalitions of `k` of `n` agents, each ascending. */
  function Coalitions(n: nat, k: nat): seq<seq<nat>> {
    Map(Marked, CoalitionMarks(n, k))
  }

  lemma MarksAre(n: nat, k: nat, w: Assignment)
    ensures w in CoalitionMarks(n, k) <==>
            |w| == n && |Block(w, 1)| == k && forall i :: 0 <= i < n ==> w[i] < 2
  {
    KeptAre((v: Assignment) => |Block(v, 1)| == k, AllAssignments(n, 2), w);
    AllAssignmentsAre(n, 2, w);
  }

  lemma MarksDistinct(n: nat, k: nat)
    ensures Distinct(CoalitionMarks(n, k))
  {
    AllAssignmentsDistinct(n, 2);
    KeptDistinct((v: Assignment) => |Block(v, 1)| == k, AllAssignments(n, 2));
  }

  /** Marks the agents of one block. */
  function Marks(a: Assignment, b: nat): (w: Assignment)
    ensures |w| == |a| && forall i :: 0 <= i < |a| ==> w[i] == if a[i] == b then 1 else 0
  {
    seq(|a|, i requires 0 <= i < |a| => if a[i] == b then 1 else 0)
  }

  lemma MarksKeepBlock(a: Assignment, b: nat)
    ensures Block(Marks(a, b), 1) == Block(a, b)
  {
    BlockOfSame(a, Marks(a, b), b, 1);
  }

  ghost predicate Rises(s: seq<nat>) {
    forall i, j :: 0 <= i < j < |s| ==> s[i] < s[j]
  }

  predicate Below(x: nat, y: nat) {
    x <= y
  }

  lemma RisingIsUnique(s: seq<nat>, t: seq<nat>)
    requires Rises(s) && Rises(t) && forall x :: x in s <==> x in t
    ensures s == t
  {
    DistinctSameElements(s, t);
    AscendingIsUnique(Below, s, t);
  }

  lemma CoalitionIs(n: nat, k: nat, blk: seq<nat>)
    requires blk in Coalitions(n, k)
    ensures |blk| == k && Rises(blk) && forall i :: i in blk ==> i < n
  {
    hide CoalitionMarks, Block;
    var marks := CoalitionMarks(n, k);
    var p :| 0 <= p < |marks| && Coalitions(n, k)[p] == blk;
    MarksAre(n, k, marks[p]);
    BlockAscends(marks[p], 1);
  }

  lemma MarksOf(n: nat, blk: seq<nat>)
    requires Rises(blk) && forall i :: i in blk ==> i < n
    ensures Block(seq(n, (i: nat) => if i in blk then 1 else 0), 1) == blk
  {
    hide Block;
    var w := seq(n, (i: nat) => if i in blk then 1 else 0);
    BlockAscends(w, 1);
    forall i: nat ensures i in Block(w, 1) <==> i in blk {
      BlockMembers(w, 1, i);
    }
    RisingIsUnique(Block(w, 1), blk);
  }

  lemma IsCoalition(n: nat, k: nat, blk: seq<nat>)
    requires |blk| == k && Rises(blk) && forall i :: i in blk ==> i < n
    ensures blk in Coalitions(n, k)
  {
    hide CoalitionMarks, Block;
    var marks, w := CoalitionMarks(n, k), seq(n, (i: nat) => if i in blk then 1 else 0);
    MarksOf(n, blk);
    MarksAre(n, k, w);
    var p :| 0 <= p < |marks| && marks[p] == w;
    assert Coalitions(n, k)[p] == blk;
  }

  lemma CoalitionsDistinct(n: nat, k: nat)
    ensures Distinct(Coalitions(n, k))
  {
    hide CoalitionMarks, Block;
    var marks := CoalitionMarks(n, k);
    MarksDistinct(n, k);
    forall p, q | 0 <= p < q < |marks| ensures Coalitions(n, k)[p] != Coalitions(n, k)[q] {
      MarksAre(n, k, marks[p]);
      MarksAre(n, k, marks[q]);
      MarksDiffer(marks[p], marks[q]);
    }
  }

  /** Exactly the ascending sequences of `k` agents below `n`, each once. */
  lemma CoalitionsAreExact(n: nat, k: nat, blk: seq<nat>)
    ensures blk in Coalitions(n, k) <==> |blk| == k && Rises(blk) && forall i :: i in blk ==> i < n
    ensures Distinct(Coalitions(n, k))
  {
    hide Coalitions;
    CoalitionsDistinct(n, k);
    if blk in Coalitions(n, k) {
      CoalitionIs(n, k, blk);
    }
    if |blk| == k && Rises(blk) && forall i :: i in blk ==> i < n {
      IsCoalition(n, k, blk);
    }
  }

  lemma MarksDiffer(v: Assignment, w: Assignment)
    requires |v| == |w| && v != w && forall i :: 0 <= i < |v| ==> v[i] < 2 && w[i] < 2
    ensures Block(v, 1) != Block(w, 1)
  {
    var i :| 0 <= i < |v| && v[i] != w[i];
    BlockMembers(v, 1, i);
    BlockMembers(w, 1, i);
  }

  // ----- The labelled structures of a shape -----

  /** Block `b` has the shape's `b`-th size. */
  predicate HasSizes(a: Assignment, shape: Partition) {
    forall b :: 0 <= b < |shape| ==> |Block(a, b)| == shape[b]
  }

  function Labelled(n: nat, shape: Partition): seq<Assignment> {
    Kept((a: Assignment) => HasSizes(a, shape), AllAssignments(n, |shape|))
  }

  lemma LabelledAre(n: nat, shape: Partition, a: Assignment)
    ensures a in Labelled(n, shape) <==>
            |a| == n && HasSizes(a, shape) && forall i :: 0 <= i < n ==> a[i] < |shape|
  {
    KeptAre((x: Assignment) => HasSizes(x, shape), AllAssignments(n, |shape|), a);
    AllAssignmentsAre(n, |shape|, a);
  }

  lemma LabelledDistinct(n: nat, shape: Partition)
    ensures Distinct(Labelled(n, shape))
  {
    AllAssignmentsDistinct(n, |shape|);
    KeptDistinct((x: Assignment) => HasSizes(x, shape), AllAssignments(n, |shape|));
  }

  /** Two agents exchanged. */
  function Exchanged(i: nat, j: nat): Assignment -> Assignment {
    (a: Assignment) => if i < |a| && j < |a| then Draws.Swap(a, i, j) else a
  }

  lemma ExchangedTwice(i: nat, j: nat, a: Assignment)
    ensures Exchanged(i, j)(Exchanged(i, j)(a)) == a
  {
  }

  lemma ExchangedStays(n: nat, shape: Partition, i: nat, j: nat, a: Assignment)
    requires i < n && j < n && a in Labelled(n, shape)
    ensures Exchanged(i, j)(a) in Labelled(n, shape)
  {
    hide Labelled, Block, Draws.Swap;
    LabelledAre(n, shape, a);
    var e := Draws.Swap(a, i, j);
    LabelledAre(n, shape, e);
    forall b: nat ensures |Block(e, b)| == |Block(a, b)| {
      BlockSize(e, b);
      BlockSize(a, b);
    }
    forall k | 0 <= k < n ensures e[k] < |shape| {
      assert e[k] in multiset(e);
      assert e[k] in a;
    }
  }

  /** Exchanging two agents permutes the labelled structures of a shape. */
  lemma ExchangePermutes(n: nat, shape: Partition, i: nat, j: nat)
    requires i < n && j < n
    ensures multiset(Map(Exchanged(i, j), Labelled(n, shape))) == multiset(Labelled(n, shape))
  {
    hide Labelled, Exchanged;
    var all := Labelled(n, shape);
    var image := Map(Exchanged(i, j), all);
    LabelledDistinct(n, shape);
    forall p, q | 0 <= p < q < |all| ensures image[p] != image[q] {
      ExchangedTwice(i, j, all[p]);
      ExchangedTwice(i, j, all[q]);
    }
    forall a ensures a in image <==> a in all {
      ExchangedTwice(i, j, a);
      if a in all {
        ExchangedStays(n, shape, i, j, a);
        var p :| 0 <= p < |all| && all[p] == Exchanged(i, j)(a);
        assert image[p] == a;
      }
      if a in image {
        var p :| 0 <= p < |all| && image[p] == a;
        assert all[p] in all;
        ExchangedStays(n, shape, i, j, all[p]);
      }
    }
    DistinctSameElements(image, all);
  }

  /** One for each structure whose block `b` is marked by `w`. */
  function Hit(b: nat, w: Assignment): Assignment -> real {
    (a: Assignment) => if Marks(a, b) == w then 1.0 else 0.0
  }

  /** How many labelled structures of the shape have the coalition `w` as block `b`. */
  function Hits(n: nat, shape: Partition, b: nat, w: Assignment): real {
    Sum(Hit(b, w), Labelled(n, shape))
  }

  lemma MarksExchanged(a: Assignment, b: nat, i: nat, j: nat)
    requires i < |a| && j < |a|
    ensures Marks(Draws.Swap(a, i, j), b) == Draws.Swap(Marks(a, b), i, j)
  {
  }

  lemma SwapTwice(w: Assignment, i: nat, j: nat)
    requires i < |w| && j < |w|
    ensures Draws.Swap(Draws.Swap(w, i, j), i, j) == w
  {
  }

  lemma ExchangeMarks(i: nat, j: nat, a: Assignment, b: nat, w: Assignment)
    requires i < |w| && j < |w|
    ensures Marks(Exchanged(i, j)(a), b) == Draws.Swap(w, i, j) <==> Marks(a, b) == w
  {
    hide Draws.Swap;
    if |a| == |w| {
      MarksExchanged(a, b, i, j);
      SwapTwice(Marks(a, b), i, j);
      SwapTwice(w, i, j);
    }
  }

  lemma HitsExchanged(n: nat, shape: Partition, b: nat, w: Assignment, i: nat, j: nat)
    requires |w| == n && i < n && j < n
    ensures Hits(n, shape, b, Draws.Swap(w, i, j)) == Hits(n, shape, b, w)
  {
    hide Labelled, Exchanged, Marks;
    var all, to := Labelled(n, shape), Draws.Swap(w, i, j);
    forall a ensures Hit(b, to)(Exchanged(i, j)(a)) == Hit(b, w)(a) {
      ExchangeMarks(i, j, a, b, w);
    }
    SumMapped(Hit(b, to), Exchanged(i, j), Hit(b, w), all);
    ExchangePermutes(n, shape, i, j);
    SumRearranged(Hit(b, to), Map(Exchanged(i, j), all), all);
  }

  lemma {:induction false} HitsShuffled(n: nat, shape: Partition, b: nat, w: Assignment, picks: seq<nat>)
    requires |w| == n && |picks| < n && Draws.ValidPicks(picks)
    ensures Hits(n, shape, b, Draws.Shuffle(w, picks)) == Hits(n, shape, b, w)
    decreases |picks|
  {
    hide Hits, Draws.Swap;
    if picks != [] {
      HitsExchanged(n, shape, b, w, |picks|, picks[0]);
      HitsShuffled(n, shape, b, Draws.Swap(w, |picks|, picks[0]), picks[1..]);
    }
  }

  lemma {:induction false} ZerosAndOnes(w: Assignment)
    requires forall i :: 0 <= i < |w| ==> w[i] < 2
    ensures multiset(w)[0] + multiset(w)[1] == |w| && forall x :: x >= 2 ==> multiset(w)[x] == 0
    decreases |w|
  {
    if w != [] {
      var init := w[..|w| - 1];
      ZerosAndOnes(init);
      assert w == init + [w[|w| - 1]];
    }
  }

  /** Every coalition of the block's size is the block of equally many structures. */
  lemma HitsAgree(n: nat, shape: Partition, b: nat, k: nat, v: Assignment, w: Assignment)
    requires v in CoalitionMarks(n, k) && w in CoalitionMarks(n, k)
    ensures Hits(n, shape, b, v) == Hits(n, shape, b, w)
  {
    hide Hits, Block, Draws.Shuffle;
    MarksAre(n, k, v);
    MarksAre(n, k, w);
    BlockSize(v, 1);
    BlockSize(w, 1);
    ZerosAndOnes(v);
    ZerosAndOnes(w);
    forall x: nat ensures multiset(v)[x] == multiset(w)[x] {
    }
    assert multiset(v) == multiset(w);
    if n == 0 {
      assert v == [] && w == [];
    } else {
      assert v[..n - 1 + 1] == v && w[..n - 1 + 1] == w;
      var picks := Draws.PicksExist(v, w, n - 1);
      HitsShuffled(n, shape, b, v, picks);
    }
  }

  // ----- The mean over the labelled structures -----

  /** The value of a marked coalition, where it is the block `b` of a structure. */
  function Where(b: nat, v: Assignment -> real): (Assignment, Assignment) -> real {
    (a: Assignment, w: Assignment) => if Marks(a, b) == w then v(w) else 0.0
  }

  function BlockWorth(b: nat, v: Assignment -> real): Assignment -> real {
    (a: Assignment) => v(Marks(a, b))
  }

  lemma BlockIsCoalition(n: nat, shape: Partition, b: nat, a: Assignment)
    requires a in Labelled(n, shape) && b < |shape|
    ensures Marks(a, b) in CoalitionMarks(n, shape[b])
  {
    LabelledAre(n, shape, a);
    MarksKeepBlock(a, b);
    MarksAre(n, shape[b], Marks(a, b));
  }

  /** Summed over the structures of a shape, a block's worth is summed over its coalitions. */
  lemma SumByCoalition(n: nat, shape: Partition, b: nat, v: Assignment -> real)
    requires b < |shape|
    ensures Sum(BlockWorth(b, v), Labelled(n, shape)) ==
            Sum(ColumnSums(Where(b, v), Labelled(n, shape)), CoalitionMarks(n, shape[b]))
  {
    hide Labelled, CoalitionMarks, Marks;
    var all, marks := Labelled(n, shape), CoalitionMarks(n, shape[b]);
    MarksDistinct(n, shape[b]);
    forall a | a in all ensures BlockWorth(b, v)(a) == RowSums(Where(b, v), marks)(a) {
      BlockIsCoalition(n, shape, b, a);
      SumPicks(v, RowOf(Where(b, v), a), Marks(a, b), marks);
    }
    SumSame(BlockWorth(b, v), RowSums(Where(b, v), marks), all);
    SumsSwap(Where(b, v), all, marks);
  }

  lemma CoalitionSum(n: nat, shape: Partition, b: nat, v: Assignment -> real, w: Assignment)
    ensures ColumnSums(Where(b, v), Labelled(n, shape))(w) == Hits(n, shape, b, w) * v(w)
  {
    hide Labelled, Marks;
    SumScaled(Hit(b, w), ColumnOf(Where(b, v), w), v(w), Labelled(n, shape));
  }

  lemma {:induction false} SumScaledBy<T>(f: T -> real, g: T -> real, c: real, s: seq<T>)
    requires forall x :: x in s ==> g(x) == c * f(x)
    ensures Sum(g, s) == c * Sum(f, s)
  {
    if s != [] {
      SumScaledBy(f, g, c, s[1..]);
    }
  }

  /** Every coalition counts for as many structures: `c` of them. */
  lemma SumByHits(n: nat, shape: Partition, b: nat, v: Assignment -> real, c: real)
    requires b < |shape|
    requires forall w :: w in CoalitionMarks(n, shape[b]) ==> Hits(n, shape, b, w) == c
    ensures Sum(BlockWorth(b, v), Labelled(n, shape)) == c * Sum(v, CoalitionMarks(n, shape[b]))
  {
    hide Labelled, CoalitionMarks, Hits, ColumnSums, Sum, BlockWorth;
    var all, marks := Labelled(n, shape), CoalitionMarks(n, shape[b]);
    SumByCoalition(n, shape, b, v);
    forall w | w in marks ensures ColumnSums(Where(b, v), all)(w) == c * v(w) {
      CoalitionSum(n, shape, b, v, w);
    }
    SumScaledBy(v, ColumnSums(Where(b, v), all), c, marks);
  }

  const Single: Assignment -> real := _ => 1.0

  lemma Regrouped(total: real, c: real, k: real, l: real)
    requires l == c * k
    ensures c * total * k == l * total
  {
  }

  /** The mean worth of block `b` over the structures is the mean worth of the coalitions of its
      size. */
  lemma BlockMean(n: nat, shape: Partition, b: nat, v: Assignment -> real)
    requires b < |shape|
    ensures var all, marks := Labelled(n, shape), CoalitionMarks(n, shape[b]);
            Sum(BlockWorth(b, v), all) * |marks| as real == |all| as real * Sum(v, marks)
  {
    hide Labelled, CoalitionMarks, Marks, Hits;
    var all, marks := Labelled(n, shape), CoalitionMarks(n, shape[b]);
    var c := if |marks| > 0 then Hits(n, shape, b, marks[0]) else 0.0;
    forall w | w in marks ensures Hits(n, shape, b, w) == c {
      HitsAgree(n, shape, b, shape[b], w, marks[0]);
    }
    SumByHits(n, shape, b, v, c);
    SumByHits(n, shape, b, Single, c);
    SumConstant(Single, 1.0, marks);
    SumConstant(BlockWorth(b, Single), 1.0, all);
    Regrouped(Sum(v, marks), c, |marks| as real, |all| as real);
  }

  // ----- The pool -----

  /** What a coalition is worth, by its marks. */
  function MarkedWorth<A>(agents: seq<A>, worth: seq<A> -> real): Assignment -> real {
    (w: Assignment) => BlockValue(agents, worth)(Block(w, 1))
  }

  /** The values of all coalitions of a size. */
  function CoalitionValues<A>(agents: seq<A>, worth: seq<A> -> real, k: nat): (r: seq<real>)
    ensures |r| == |CoalitionMarks(|agents|, k)|
  {
    Map(BlockValue(agents, worth), Coalitions(|agents|, k))
  }

  /** Each bucket holds the values of all the pool's coalitions of its size, in some order. */
  ghost predicate HoldsPool<A>(agents: seq<A>, worth: seq<A> -> real, values: Buckets) {
    forall k :: 1 <= k <= |agents| ==>
      k in values && multiset(values[k]) == multiset(CoalitionValues(agents, worth, k))
  }

  lemma ValuesByMarks<A>(agents: seq<A>, worth: seq<A> -> real, k: nat)
    ensures Sum(Itself, CoalitionValues(agents, worth, k)) ==
            Sum(MarkedWorth(agents, worth), CoalitionMarks(|agents|, k))
  {
    hide CoalitionMarks, BlockValue, Block;
    var value := BlockValue(agents, worth);
    SumMapped(Itself, value, value, Coalitions(|agents|, k));
    SumMapped(value, Marked, MarkedWorth(agents, worth), CoalitionMarks(|agents|, k));
  }

  lemma AverageTimes(s: seq<real>)
    requires s != []
    ensures Average(s) * |s| as real == Sum(Itself, s)
  {
    hide Sum;
  }

  lemma BucketTotals<A>(agents: seq<A>, worth: seq<A> -> real, values: Buckets, k: nat)
    requires HoldsPool(agents, worth, values) && 1 <= k <= |agents|
    ensures k in values
    ensures var marks := CoalitionMarks(|agents|, k);
            |marks| == |values[k]| > 0 &&
            Sum(MarkedWorth(agents, worth), marks) == Average(values[k]) * |marks| as real
  {
    var listed := CoalitionValues(agents, worth, k);
    hide CoalitionMarks, BlockValue, Block, Average, CoalitionValues, MarkedWorth;
    Draws.SameCardinality(values[k], listed);
    SumRearranged(Itself, values[k], listed);
    ValuesByMarks(agents, worth, k);
    AverageTimes(values[k]);
  }

  lemma MeanTimes(total: real, n: real, sum: real, l: real, mean: real)
    requires n > 0.0 && total * n == l * sum && sum == mean * n
    ensures total == mean * l
  {
    assert (total - mean * l) * n == 0.0;
  }

  /** The mean worth of block `b` is the mean of its size's bucket. */
  lemma BlockMeanIsBucketMean<A>(agents: seq<A>, worth: seq<A> -> real, values: Buckets, shape: Partition, b: nat)
    requires HoldsPool(agents, worth, values) && b < |shape| && 1 <= shape[b] <= |agents|
    ensures var all := Labelled(|agents|, shape);
            Sum(BlockWorth(b, MarkedWorth(agents, worth)), all) == MeanOf(values)(shape[b]) * |all| as real
  {
    hide Labelled, CoalitionMarks, HoldsPool, Average;
    var n, v := |agents|, MarkedWorth(agents, worth);
    BucketTotals(agents, worth, values, shape[b]);
    BlockMean(n, shape, b, v);
    var all, marks := Labelled(n, shape), CoalitionMarks(n, shape[b]);
    MeanTimes(Sum(BlockWorth(b, v), all), |marks| as real, Sum(v, marks), |all| as real, Average(values[shape[b]]));
  }

  // ----- The mean fitness of a shape -----

  lemma {:induction false} AllBlocks(a: Assignment, k: nat)
    requires forall b :: 0 <= b < k ==> Block(a, b) != []
    ensures BlocksBelow(a, k) == Map((b: nat) => Block(a, b), Draws.Identity(k))
  {
    if k > 0 {
      AllBlocks(a, k - 1);
    }
  }

  /** A labelled structure's blocks are its blocks zero, one and so on. */
  lemma LabelledBlocks(n: nat, shape: Partition, a: Assignment)
    requires a in Labelled(n, shape) && IsPartition(shape, n)
    ensures Blocks(a) == Map((b: nat) => Block(a, b), Draws.Identity(|shape|))
    ensures BlockSizes(a) == shape
  {
    hide Block, BlocksBelow;
    LabelledAre(n, shape, a);
    if shape != [] {
      BlockMembers(a, |shape| - 1, Block(a, |shape| - 1)[0]);
    }
    assert NextId(a) == |shape| by {
      EmptyShape(shape);
    }
    AllBlocks(a, |shape|);
    SizesBelow(a, shape, |shape|);
    assert shape[..|shape|] == shape;
  }

  lemma EmptyShape(shape: Partition)
    ensures shape != [] && Positive(shape) ==> Total(shape) > 0
    ensures shape == [] ==> Total(shape) == 0
  {
  }

  /** The worth of a structure's `b`-th block. */
  function LabelWorth(v: Assignment -> real): (Assignment, nat) -> real {
    (a: Assignment, b: nat) => v(Marks(a, b))
  }

  lemma FitnessByLabels<A>(agents: seq<A>, worth: seq<A> -> real, shape: Partition, a: Assignment)
    requires a in Labelled(|agents|, shape) && IsPartition(shape, |agents|)
    ensures Fitness(agents, worth, a) ==
            RowSums(LabelWorth(MarkedWorth(agents, worth)), Draws.Identity(|shape|))(a)
  {
    hide Labelled, Block, Blocks, BlockValue, Marks;
    LabelledBlocks(|agents|, shape, a);
    var blockOf, row := (b: nat) => Block(a, b), RowOf(LabelWorth(MarkedWorth(agents, worth)), a);
    forall b: nat ensures BlockValue(agents, worth)(blockOf(b)) == row(b) {
      MarksKeepBlock(a, b);
    }
    SumMapped(BlockValue(agents, worth), blockOf, row, Draws.Identity(|shape|));
  }

  lemma {:induction false} PartAtMostTotal(shape: Partition, b: nat)
    requires b < |shape|
    ensures shape[b] <= Total(shape)
  {
    if b > 0 {
      PartAtMostTotal(shape[1..], b - 1);
    }
  }

  function FitnessOf<A>(agents: seq<A>, worth: seq<A> -> real): Assignment -> real {
    (a: Assignment) => Fitness(agents, worth, a)
  }

  lemma FitnessByBlock<A>(agents: seq<A>, worth: seq<A> -> real, shape: Partition)
    requires IsPartition(shape, |agents|)
    ensures var all := Labelled(|agents|, shape);
            Sum(FitnessOf(agents, worth), all) ==
            Sum(ColumnSums(LabelWorth(MarkedWorth(agents, worth)), all), Draws.Identity(|shape|))
  {
    hide Labelled, Fitness, Marks, IsPartition;
    var ids, f := Draws.Identity(|shape|), LabelWorth(MarkedWorth(agents, worth));
    var all := Labelled(|agents|, shape);
    forall a | a in all ensures FitnessOf(agents, worth)(a) == RowSums(f, ids)(a) {
      FitnessByLabels(agents, worth, shape, a);
    }
    SumSame(FitnessOf(agents, worth), RowSums(f, ids), all);
    SumsSwap(f, all, ids);
  }

  /** The size a shape gives block `b`. */
  function SizeAt(shape: Partition): nat -> nat {
    (b: nat) => if b < |shape| then shape[b] else 0
  }

  function MeanAt(values: Buckets, shape: Partition): nat -> real {
    (b: nat) => MeanOf(values)(SizeAt(shape)(b))
  }

  lemma BoundByBlock(values: Buckets, shape: Partition)
    ensures Sum(MeanAt(values, shape), Draws.Identity(|shape|)) == AverageBound(shape, values)
  {
    hide MeanOf;
    var ids := Draws.Identity(|shape|);
    assert Map(SizeAt(shape), ids) == shape;
    SumMapped(MeanOf(values), SizeAt(shape), MeanAt(values, shape), ids);
  }

  lemma ColumnIsBlock(v: Assignment -> real, all: seq<Assignment>, b: nat)
    ensures ColumnSums(LabelWorth(v), all)(b) == Sum(BlockWorth(b, v), all)
  {
    hide Marks;
    SumSame(ColumnOf(LabelWorth(v), b), BlockWorth(b, v), all);
  }

  lemma ColumnIsMean<A>(agents: seq<A>, worth: seq<A> -> real, values: Buckets, shape: Partition, b: nat)
    requires HoldsPool(agents, worth, values) && IsPartition(shape, |agents|) && b < |shape|
    ensures var all := Labelled(|agents|, shape);
            ColumnSums(LabelWorth(MarkedWorth(agents, worth)), all)(b) == MeanAt(values, shape)(b) * |all| as real
  {
    hide Labelled, HoldsPool, MeanOf, MarkedWorth, ColumnSums, BlockWorth, Sum;
    PartAtMostTotal(shape, b);
    BlockMeanIsBucketMean(agents, worth, values, shape, b);
    ColumnIsBlock(MarkedWorth(agents, worth), Labelled(|agents|, shape), b);
    assert SizeAt(shape)(b) == shape[b];
  }

  /** Over all labelled structures of a shape the mean fitness is the average bound. */
  lemma MeanIsAverageBound<A>(agents: seq<A>, worth: seq<A> -> real, values: Buckets, shape: Partition)
    requires HoldsPool(agents, worth, values) && IsPartition(shape, |agents|)
    ensures var all := Labelled(|agents|, shape);
            Sum(FitnessOf(agents, worth), all) == |all| as real * AverageBound(shape, values)
  {
    hide Labelled, HoldsPool, Fitness, Marks, IsPartition, MeanAt, ColumnSums, AverageBound;
    var ids, f := Draws.Identity(|shape|), LabelWorth(MarkedWorth(agents, worth));
    var all := Labelled(|agents|, shape);
    FitnessByBlock(agents, worth, shape);
    forall b | b in ids ensures ColumnSums(f, all)(b) == MeanAt(values, shape)(b) * |all| as real {
      ColumnIsMean(agents, worth, values, shape, b);
    }
    SumScaled(MeanAt(values, shape), ColumnSums(f, all), |all| as real, ids);
    BoundByBlock(values, shape);
  }

  // ----- All structures of a shape -----

  /** A set-partition of `n` agents with the shape's block sizes, whatever its block ids. */
  ghost predicate OfShape(a: Assignment, n: nat, shape: Partition) {
    |a| == n && multiset(BlockSizes(a)) == multiset(shape)
  }

  lemma CutIsLabelled(n: nat, shape: Partition)
    requires IsPartition(shape, n)
    ensures CutLabels(shape, 0) in Labelled(n, shape)
  {
    hide Labelled, CutLabels, Block;
    var a := CutLabels(shape, 0);
    LabelledAre(n, shape, a);
    forall b: nat ensures |Block(a, b)| == if b < |shape| then shape[b] else 0 {
      CutMultiplicity(shape, 0, b);
      BlockSize(a, b);
    }
    forall i | 0 <= i < n ensures a[i] < |shape| {
      BlockMembers(a, a[i], i);
    }
  }

  lemma SizesTakenOut(blocks: seq<seq<nat>>, k: nat)
    requires k < |blocks|
    ensures var sizes := Map(Length, blocks);
            Map(Length, blocks[..k] + blocks[k + 1..]) == sizes[..k] + sizes[k + 1..]
    ensures multiset([blocks[k]] + (blocks[..k] + blocks[k + 1..])) == multiset(blocks)
  {
    TakenOut(blocks, k);
  }

  /** The blocks in an order that matches the shape's sizes. */
  lemma {:induction false} Matched(blocks: seq<seq<nat>>, shape: Partition) returns (bs: seq<seq<nat>>)
    requires multiset(Map(Length, blocks)) == multiset(shape)
    ensures multiset(bs) == multiset(blocks) && |bs| == |shape|
    ensures forall b :: 0 <= b < |bs| ==> |bs[b]| == shape[b]
    decreases |shape|
  {
    var sizes := Map(Length, blocks);
    Draws.SameCardinality(sizes, shape);
    if shape == [] {
      bs := [];
      assert blocks == [];
    } else {
      var k := Locate(shape, sizes);
      var rest := blocks[..k] + blocks[k + 1..];
      SizesTakenOut(blocks, k);
      hide Map;
      var others := Matched(rest, shape[1..]);
      assert multiset([blocks[k]] + others) == multiset([blocks[k]] + rest);
      bs := [blocks[k]] + others;
    }
  }

  lemma SameMembers<T>(s: seq<T>, t: seq<T>, x: T)
    requires multiset(s) == multiset(t)
    ensures x in s <==> x in t
  {
    assert x in s <==> x in multiset(s);
    assert x in t <==> x in multiset(t);
  }

  function IndexOf<T(==)>(s: seq<T>, x: T): (j: nat)
    ensures j <= |s|
    ensures x in s ==> j < |s| && s[j] == x
  {
    if s == [] || s[0] == x then 0 else 1 + IndexOf(s[1..], x)
  }

  /** Every structure of a shape has a labelled one that induces the same partition. */
  lemma Relabelled(a: Assignment, n: nat, shape: Partition) returns (r: Assignment)
    requires OfShape(a, n, shape)
    ensures r in Labelled(n, shape) && SamePartition(a, r)
  {
    hide Block, Blocks, Labelled, IndexOf;
    var bs := Matched(Blocks(a), shape);
    r := seq(n, (i: nat) => if i < |a| then IndexOf(bs, Block(a, a[i])) else 0);
    forall i | 0 <= i < n ensures r[i] < |bs| && bs[r[i]] == Block(a, a[i]) {
      BlocksPartitionAgents(a, Block(a, a[i]));
      SameMembers(bs, Blocks(a), Block(a, a[i]));
    }
    BlocksDistinct(a);
    DistinctRearranged(Blocks(a), bs);
    forall i, j | 0 <= i < n && 0 <= j < n ensures a[i] == a[j] <==> r[i] == r[j] {
      BlockMembers(a, a[i], i);
      BlockMembers(a, a[j], i);
      assert Block(a, a[i]) == Block(a, a[j]) <==> a[i] == a[j];
    }
    forall b | 0 <= b < |shape| ensures |Block(r, b)| == shape[b] {
      LabelOf(a, r, bs, b);
    }
    LabelledAre(n, shape, r);
  }

  /** The agents relabelled `b` are those of the `b`-th matched block. */
  lemma LabelOf(a: Assignment, r: Assignment, bs: seq<seq<nat>>, b: nat)
    requires |a| == |r| && multiset(bs) == multiset(Blocks(a)) && b < |bs| && Distinct(bs)
    requires forall i :: 0 <= i < |a| ==> r[i] < |bs| && bs[r[i]] == Block(a, a[i])
    ensures Block(r, b) == bs[b]
  {
    hide Block, Blocks;
    SameMembers(bs, Blocks(a), bs[b]);
    BlocksPartitionAgents(a, bs[b]);
    var k :| 0 <= k < |a| && bs[b] == Block(a, a[k]);
    forall i | 0 <= i < |a| ensures r[i] == b <==> a[i] == a[k] {
      BlockMembers(a, a[k], i);
      BlockMembers(a, a[i], i);
    }
    BlockOfSame(r, a, b, a[k]);
  }

  lemma SamePartitionSameFitness<A>(agents: seq<A>, worth: seq<A> -> real, a: Assignment, b: Assignment)
    requires SamePartition(a, b)
    ensures Fitness(agents, worth, a) == Fitness(agents, worth, b)
  {
    SamePartitionSameBlocks(a, b);
    SumRearranged(BlockValue(agents, worth), Blocks(a), Blocks(b));
  }

  lemma LabelledIsOfShape(n: nat, shape: Partition, a: Assignment)
    requires a in Labelled(n, shape) && IsPartition(shape, n)
    ensures OfShape(a, n, shape)
  {
    hide Labelled, BlockSizes;
    LabelledAre(n, shape, a);
    LabelledBlocks(n, shape, a);
  }

  lemma CanonicalOfShape<A>(agents: seq<A>, worth: seq<A> -> real, n: nat, shape: Partition, a: Assignment)
    requires OfShape(a, n, shape)
    ensures var c := Canonical(a);
            IsCanonical(c) && OfShape(c, n, shape) && Fitness(agents, worth, c) == Fitness(agents, worth, a)
  {
    hide Canonical, IsCanonical, SamePartition, Blocks, Fitness;
    CanonicalIsCanonical(a);
    SamePartitionSameBlocks(a, Canonical(a));
    MapRearranged(Length, Blocks(a), Blocks(Canonical(a)));
    SamePartitionSameFitness(agents, worth, a, Canonical(a));
  }

  // ----- What the average bound promises -----

  /** Every shape has a structure worth at least its average bound. */
  lemma SomeStructureReachesAverage<A>(agents: seq<A>, worth: seq<A> -> real, values: Buckets, shape: Partition)
    returns (a: Assignment)
    requires HoldsPool(agents, worth, values) && IsPartition(shape, |agents|)
    ensures IsCanonical(a) && OfShape(a, |agents|, shape)
    ensures Fitness(agents, worth, a) >= AverageBound(shape, values)
  {
    hide Labelled, HoldsPool, Fitness, IsCanonical, OfShape, AverageBound;
    var n := |agents|;
    MeanIsAverageBound(agents, worth, values, shape);
    CutIsLabelled(n, shape);
    var l := SomeReachesMean(FitnessOf(agents, worth), AverageBound(shape, values), Labelled(n, shape));
    LabelledIsOfShape(n, shape, l);
    CanonicalOfShape(agents, worth, n, shape, l);
    a := Canonical(l);
  }

  /** The average bound lies at or below every structure of a shape. */
  ghost predicate AverageIsLowerBound<A>(agents: seq<A>, worth: seq<A> -> real, values: Buckets, shape: Partition) {
    forall a :: OfShape(a, |agents|, shape) ==> AverageBound(shape, values) <= Fitness(agents, worth, a)
  }

  ghost predicate AllWorthTheSame<A>(agents: seq<A>, worth: seq<A> -> real, shape: Partition) {
    forall a, b :: OfShape(a, |agents|, shape) && OfShape(b, |agents|, shape) ==>
      Fitness(agents, worth, a) == Fitness(agents, worth, b)
  }

  lemma LowerBoundIsEquality<A>(agents: seq<A>, worth: seq<A> -> real, values: Buckets, shape: Partition, a: Assignment)
    requires HoldsPool(agents, worth, values) && IsPartition(shape, |agents|)
    requires AverageIsLowerBound(agents, worth, values, shape) && OfShape(a, |agents|, shape)
    ensures Fitness(agents, worth, a) == AverageBound(shape, values)
  {
    hide Labelled, HoldsPool, Fitness, OfShape, AverageBound, IsPartition, SamePartition, Sum;
    var n, f, mean := |agents|, FitnessOf(agents, worth), AverageBound(shape, values);
    MeanIsAverageBound(agents, worth, values, shape);
    forall l | l in Labelled(n, shape) ensures f(l) >= mean {
      LabelledIsOfShape(n, shape, l);
    }
    AllAtMean(f, mean, Labelled(n, shape));
    var r := Relabelled(a, n, shape);
    SamePartitionSameFitness(agents, worth, a, r);
    assert f(r) == mean;
  }

  lemma EqualityIsMean<A>(agents: seq<A>, worth: seq<A> -> real, values: Buckets, shape: Partition, a: Assignment)
    requires HoldsPool(agents, worth, values) && IsPartition(shape, |agents|)
    requires AllWorthTheSame(agents, worth, shape) && OfShape(a, |agents|, shape)
    ensures Fitness(agents, worth, a) == AverageBound(shape, values)
  {
    hide Labelled, HoldsPool, Fitness, OfShape, AverageBound, IsPartition, CutLabels, Sum;
    var n, f, all := |agents|, FitnessOf(agents, worth), Labelled(|agents|, shape);
    MeanIsAverageBound(agents, worth, values, shape);
    CutIsLabelled(n, shape);
    forall l | l in all ensures f(l) == Fitness(agents, worth, a) {
      LabelledIsOfShape(n, shape, l);
    }
    EqualsMean(f, Fitness(agents, worth, a), AverageBound(shape, values), all);
  }

  /** Reported as a lower bound, the average is one exactly for the shapes whose structures are
      all worth the same. */
  lemma AverageIsLowerBoundExactly<A>(agents: seq<A>, worth: seq<A> -> real, values: Buckets, shape: Partition)
    requires HoldsPool(agents, worth, values) && IsPartition(shape, |agents|)
    ensures AverageIsLowerBound(agents, worth, values, shape) <==> AllWorthTheSame(agents, worth, shape)
  {
    hide HoldsPool, Fitness, OfShape, AverageBound, IsPartition;
    forall a | OfShape(a, |agents|, shape)
      ensures AverageIsLowerBound(agents, worth, values, shape) || AllWorthTheSame(agents, worth, shape) ==>
                Fitness(agents, worth, a) == AverageBound(shape, values)
    {
      if AverageIsLowerBound(agents, worth, values, shape) {
        LowerBoundIsEquality(agents, worth, values, shape, a);
      } else if AllWorthTheSame(agents, worth, shape) {
        EqualityIsMean(agents, worth, values, shape, a);
      }
    }
  }

  lemma EqualsMean<T>(f: T -> real, v: real, mean: real, s: seq<T>)
    requires |s| > 0 && Sum(f, s) == |s| as real * mean && forall x :: x in s ==> f(x) == v
    ensures v == mean
  {
    SumConstant(f, v, s);
    Cancelled(|s| as real, v, mean);
  }

  lemma Cancelled(n: real, a: real, b: real)
    requires n > 0.0 && n * a == n * b
    ensures a == b
  {
    assert n * (a - b) == 0.0;
  }

  lemma CoalitionsExist(n: nat, k: nat)
    requires k <= n
    ensures CoalitionMarks(n, k) != []
  {
    CoalitionsAreExact(n, k, Draws.Identity(k));
    assert Draws.Identity(k) in Coalitions(n, k);
  }

  /** Every pool has such buckets. */
  function PoolBuckets<A>(agents: seq<A>, worth: seq<A> -> real): (values: Buckets)
    ensures HoldsPool(agents, worth, values)
  {
    assert forall k | 1 <= k <= |agents| :: CoalitionValues(agents, worth, k) != [] by {
      forall k | 1 <= k <= |agents| ensures CoalitionValues(agents, worth, k) != [] {
        CoalitionsExist(|agents|, k);
      }
    }
    map k: nat | 1 <= k <= |agents| :: CoalitionValues(agents, worth, k)
  }

  const Trio: seq<nat> := [0, 1, 2]

  /** Only the first two of three agents together are worth anything. */
  const PairWorth: seq<nat> -> real := views => if views == [0, 1] then 1.0 else 0.0

  lemma OneMoreAgent(a: Assignment, x: nat, b: nat)
    ensures Block([], b) == []
    ensures Block(a + [x], b) == Block(a, b) + if x == b then [|a|] else []
  {
    assert (a + [x])[..|a|] == a;
  }

  lemma TrioBlock(x: nat, y: nat, z: nat, b: nat)
    ensures Block([x, y, z], b) ==
            (if x == b then [0] else []) + (if y == b then [1] else []) + (if z == b then [2] else [])
  {
    hide Block;
    OneMoreAgent([], x, b);
    OneMoreAgent([x], y, b);
    OneMoreAgent([x, y], z, b);
    assert [] + [x] == [x] && [x] + [y] == [x, y] && [x, y] + [z] == [x, y, z];
  }

  lemma TwoBlocks(a: Assignment)
    requires NextId(a) == 2 && Block(a, 0) != [] && Block(a, 1) != []
    ensures Blocks(a) == [Block(a, 0), Block(a, 1)]
  {
    assert BlocksBelow(a, 1) == [Block(a, 0)];
  }

  lemma TrioIds()
    ensures NextId([0, 1, 0]) == 2 && NextId([0, 0, 1]) == 2
  {
    assert forall i :: 0 <= i < 3 ==> [0, 1, 0][i] <= 1 && [0, 0, 1][i] <= 1;
    assert [0, 1, 0][1] == 1 && [0, 0, 1][2] == 1;
  }

  lemma TrioBlocks()
    ensures Blocks([0, 1, 0]) == [[0, 2], [1]] && Blocks([0, 0, 1]) == [[0, 1], [2]]
  {
    hide Block, Blocks, BlocksBelow, NextId;
    TrioIds();
    TrioBlock(0, 1, 0, 0);
    TrioBlock(0, 1, 0, 1);
    TrioBlock(0, 0, 1, 0);
    TrioBlock(0, 0, 1, 1);
    assert Block([0, 1, 0], 0) == [0, 2] && Block([0, 1, 0], 1) == [1];
    assert Block([0, 0, 1], 0) == [0, 1] && Block([0, 0, 1], 1) == [2];
    TwoBlocks([0, 1, 0]);
    TwoBlocks([0, 0, 1]);
  }

  lemma TrioFitness()
    ensures Fitness(Trio, PairWorth, [0, 1, 0]) == 0.0 && Fitness(Trio, PairWorth, [0, 0, 1]) == 1.0
  {
    hide Blocks;
    TrioBlocks();
    var value := BlockValue(Trio, PairWorth);
    assert Views(Trio, [2]) == [2] && Views(Trio, [1]) == [1];
    assert [0, 2][1..] == [2] && [0, 1][1..] == [1];
    assert Views(Trio, [0, 2]) == [0, 2] && Views(Trio, [0, 1]) == [0, 1];
    assert value([0, 2]) == 0.0 && value([1]) == 0.0 && value([0, 1]) == 1.0 && value([2]) == 0.0;
    assert [[0, 2], [1]][1..] == [[1]] && [[0, 1], [2]][1..] == [[2]];
    assert Sum(value, [[1]]) == 0.0 && Sum(value, [[2]]) == 0.0;
  }

  lemma PairWorthIsNoLoss(a: Assignment)
    ensures Fitness(Trio, PairWorth, a) >= 0.0
  {
    hide Blocks;
    SumConstant((blk: seq<nat>) => 0.0, 0.0, Blocks(a));
    SumAtMost((blk: seq<nat>) => 0.0, BlockValue(Trio, PairWorth), Blocks(a));
  }

  lemma TrioShape(a: Assignment)
    requires a == [0, 1, 0] || a == [0, 0, 1]
    ensures OfShape(a, 3, [2, 1])
  {
    hide Blocks;
    TrioBlocks();
    assert BlockSizes(a) == [2, 1];
  }

  lemma TwoAndOne()
    ensures IsPartition([2, 1], 3)
  {
    assert [2, 1][1..] == [1] && Total([1]) == 1 + Total([]);
  }

  /** A structure below the average bound: of three agents the first and the last together, when
      only the first two are worth anything together. */
  lemma AverageIsNoLowerBound(values: Buckets)
    requires HoldsPool(Trio, PairWorth, values)
    ensures OfShape([0, 1, 0], 3, [2, 1]) && Fitness(Trio, PairWorth, [0, 1, 0]) < AverageBound([2, 1], values)
  {
    hide HoldsPool, Fitness, AverageBound, OfShape, IsPartition;
    var shape: Partition := [2, 1];
    TrioFitness();
    TrioShape([0, 1, 0]);
    TrioShape([0, 0, 1]);
    TwoAndOne();
    AverageIsLowerBoundExactly(Trio, PairWorth, values, shape);
    var a :| OfShape(a, 3, shape) && AverageBound(shape, values) > Fitness(Trio, PairWorth, a);
    PairWorthIsNoLoss(a);
  }
}
