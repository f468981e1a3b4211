/** Value bounds per integer partition, and the search for the partition with the highest
    upper bound. Values are exact reals. */
module PartitionBounds {
  import opened IntegerPartitions
  import opened Sorting
  import opened Sums
  import opened Wrappers

  /** Coalition values by coalition size; every bucket present holds a value. */
  type Buckets = m: map<nat, seq<real>> | forall k :: k in m ==> m[k] != []

  datatype Bounds = Bounds(partition: Partition, upper: real, lower: real)

  function Max(s: seq<real>): (r: real)
    requires s != []
    ensures r in s
    ensures forall x :: x in s ==> x <= r
  {
    if |s| == 1 then s[0]
    else
      var rest := Max(s[1..]);
      assert forall x :: x in s ==> x == s[0] || x in s[1..];
      if s[0] >= rest then s[0] else rest
  }

  function Min(s: seq<real>): (r: real)
    requires s != []
    ensures r in s
    ensures forall x :: x in s ==> x >= r
  {
    if |s| == 1 then s[0]
    else
      var rest := Min(s[1..]);
      assert forall x :: x in s ==> x == s[0] || x in s[1..];
      if s[0] <= rest then s[0] else rest
  }

  const Itself: real -> real := x => x

  function Average(s: seq<real>): real
    requires s != []
  {
    Sum(Itself, s) / |s| as real
  }

  lemma {:induction false} SumBounded(s: seq<real>, top: real)
    requires forall x :: x in s ==> x <= top
    ensures Sum(Itself, s) <= |s| as real * top
  {
    if s != [] {
      var rest := s[1..];
      assert s[0] in s;
      assert forall x :: x in rest ==> x in s;
      SumBounded(rest, top);
      assert |s| as real * top == |rest| as real * top + top by {
        assert |s| as real == |rest| as real + 1.0;
      }
    }
  }

  lemma MeanBelow(total: real, n: real, top: real)
    requires n > 0.0 && total <= n * top
    ensures total / n <= top
  {
    var q := total / n;
    assert (top - q) * n == n * top - total;
  }

  lemma AverageAtMostMax(s: seq<real>)
    requires s != []
    ensures Average(s) <= Max(s)
  {
    hide Sum;
    SumBounded(s, Max(s));
    MeanBelow(Sum(Itself, s), |s| as real, Max(s));
  }

  // ----- One partition at a time -----

  /** A size's best value; a size with no bucket adds nothing. */
  function TopOf(values: Buckets): nat -> real {
    size => if size in values then Max(values[size]) else 0.0
  }

  function MeanOf(values: Buckets): nat -> real {
    size => if size in values then Average(values[size]) else 0.0
  }

  function LeastOf(values: Buckets): nat -> real {
    size => if size in values then Min(values[size]) else 0.0
  }

  function MinBound(p: Partition, values: Buckets): real {
    Sum(LeastOf(values), p)
  }

  function UpperBound(p: Partition, values: Buckets): real {
    Sum(TopOf(values), p)
  }

  function AverageBound(p: Partition, values: Buckets): real {
    Sum(MeanOf(values), p)
  }

  lemma AverageAtMostUpper(p: Partition, values: Buckets)
    ensures AverageBound(p, values) <= UpperBound(p, values)
  {
    forall size | size in p ensures MeanOf(values)(size) <= TopOf(values)(size) {
      if size in values {
        AverageAtMostMax(values[size]);
      }
    }
    SumAtMost(MeanOf(values), TopOf(values), p);
  }

  // ----- All partitions, from per-size aggregates -----

  /** Best and mean value of each size, computed once. */
  function AggregatePerSize(values: Buckets): (map<nat, real>, map<nat, real>) {
    (map size | size in values :: Max(values[size]),
     map size | size in values :: Average(values[size]))
  }

  function SumForPartition(p: Partition, perSize: map<nat, real>): real {
    if p == [] then 0.0
    else (if p[0] in perSize then perSize[p[0]] else 0.0) + SumForPartition(p[1..], perSize)
  }

  lemma {:induction false} AggregatesAgree(p: Partition, values: Buckets)
    ensures SumForPartition(p, AggregatePerSize(values).0) == UpperBound(p, values)
    ensures SumForPartition(p, AggregatePerSize(values).1) == AverageBound(p, values)
  {
    if p != [] {
      AggregatesAgree(p[1..], values);
    }
  }

  /** The bounds of every partition, in enumeration order. */
  function AllBounds(n: nat, values: Buckets): (r: seq<Bounds>)
    ensures |r| == |Generated(n)|
    ensures forall k :: 0 <= k < |r| ==> r[k].partition == Generated(n)[k]
  {
    var (top, mean) := AggregatePerSize(values);
    Map(p => Bounds(p, SumForPartition(p, top), SumForPartition(p, mean)), Generated(n))
  }

  lemma AllBoundsAre(n: nat, values: Buckets, k: nat)
    requires k < |AllBounds(n, values)|
    ensures var b := AllBounds(n, values)[k];
            b == Bounds(Generated(n)[k], UpperBound(b.partition, values), AverageBound(b.partition, values))
  {
    AggregatesAgree(Generated(n)[k], values);
  }

  // ----- Sorting by upper bound, descending and stable -----

  predicate AtLeastAsHigh(a: Bounds, b: Bounds) {
    a.upper >= b.upper
  }

  function SortDescending(s: seq<Bounds>): seq<Bounds> {
    Sorted(AtLeastAsHigh, s)
  }

  ghost predicate Descending(s: seq<Bounds>) {
    forall i, j :: 0 <= i < j < |s| ==> s[i].upper >= s[j].upper
  }

  lemma SortSorts(s: seq<Bounds>)
    ensures Descending(SortDescending(s))
    ensures multiset(SortDescending(s)) == multiset(s)
  {
    SortedAscends(AtLeastAsHigh, s);
  }

  function ComputeAllPartitionBounds(n: nat, values: Buckets): seq<Bounds> {
    SortDescending(AllBounds(n, values))
  }

  // ----- The streaming maximum -----

  /** `Iterator::max_by`: of several maximal elements the last wins. */
  function LastMax(s: seq<Bounds>): Option<Bounds> {
    if s == [] then None
    else
      match LastMax(s[1..])
      case None => Some(s[0])
      case Some(rest) => Some(if s[0].upper > rest.upper then s[0] else rest)
  }

  function FindBestPartition(n: nat, values: Buckets): Option<Bounds> {
    LastMax(AllBounds(n, values))
  }

  /** The first element of `s` that attains its maximal upper bound is the head of the
      sorted list, the last such element is the streaming maximum. */
  lemma {:induction false} HeadAndLast(s: seq<Bounds>) returns (first: nat, last: nat)
    requires s != []
    ensures first <= last < |s|
    ensures LastMax(s) == Some(s[last]) && SortDescending(s) != [] && SortDescending(s)[0] == s[first]
    ensures forall k :: 0 <= k < |s| ==> s[k].upper <= s[first].upper == s[last].upper
    ensures forall k :: 0 <= k < first || last < k < |s| ==> s[k].upper < s[first].upper
  {
    if |s| == 1 {
      first, last := 0, 0;
      assert SortDescending(s[1..]) == [];
      assert s[1..] == [];
      assert LastMax(s[1..]) == None;
    } else {
      var f, l := HeadAndLast(s[1..]);
      assert forall k :: 1 <= k < |s| ==> s[k] == s[1..][k - 1];
      if s[0].upper > s[1..][f].upper {
        first, last := 0, 0;
      } else if s[0].upper == s[1..][f].upper {
        first, last := 0, l + 1;
      } else {
        first, last := f + 1, l + 1;
      }
    }
  }

  // ----- What the bounds promise -----

  /** The streaming search and the head of the sorted list always agree on the bound, and
      agree on the partition exactly when one partition alone attains it. */
  lemma StreamingMaximumIsSortedHead(n: nat, values: Buckets)
    ensures var best, all := FindBestPartition(n, values), ComputeAllPartitionBounds(n, values);
            best.Some? && all != [] && best.value.upper == all[0].upper &&
            (best.value == all[0] <==>
             forall p, q | IsPartition(p, n) && IsPartition(q, n) ::
               UpperBound(p, values) == UpperBound(q, values) == best.value.upper ==> p == q)
  {
    EnumerationIsExact(n);
    PartitionsExist(n);
    var s := AllBounds(n, values);
    var first, last := HeadAndLast(s);
    var best := s[last].upper;
    AllBoundsAre(n, values, first);
    AllBoundsAre(n, values, last);
    forall p, q | IsPartition(p, n) && IsPartition(q, n) &&
                  UpperBound(p, values) == UpperBound(q, values) == best && s[first] == s[last]
      ensures p == q
    {
      var i :| 0 <= i < |s| && Generated(n)[i] == p;
      var j :| 0 <= j < |s| && Generated(n)[j] == q;
      AllBoundsAre(n, values, i);
      AllBoundsAre(n, values, j);
      assert first == last;
    }
  }

  /** The search's bound dominates the bound of every partition of `n`. */
  lemma BestDominates(n: nat, values: Buckets, p: Partition)
    requires IsPartition(p, n)
    ensures FindBestPartition(n, values).Some?
    ensures UpperBound(p, values) <= FindBestPartition(n, values).value.upper
    ensures IsPartition(FindBestPartition(n, values).value.partition, n)
  {
    EnumerationIsExact(n);
    PartitionsExist(n);
    var s := AllBounds(n, values);
    var _, last := HeadAndLast(s);
    var i :| 0 <= i < |s| && Generated(n)[i] == p;
    AllBoundsAre(n, values, i);
    AllBoundsAre(n, values, last);
    assert Generated(n)[last] in Generated(n);
  }

  predicate AtLeast(x: nat, y: nat) {
    x >= y
  }

  /** The sizes in non-increasing order. */
  function Shape(sizes: seq<nat>): Partition {
    Sorted(AtLeast, sizes)
  }

  lemma ShapeSorts(sizes: seq<nat>)
    ensures NonIncreasing(Shape(sizes)) && multiset(Shape(sizes)) == multiset(sizes)
  {
    SortedAscends(AtLeast, sizes);
  }

  /** Soundness: a collection of blocks whose values all sit in the buckets of their sizes is
      worth at least the minimum bound of its shape, at most its upper bound, and at most the
      search's bound. */
  lemma StructureWithinBounds<B(!new)>(blocks: seq<B>, size: B -> nat, worth: B -> real,
                                       n: nat, values: Buckets)
    requires Total(Map(size, blocks)) == n
    requires forall b :: b in blocks ==> size(b) > 0 && size(b) in values && worth(b) in values[size(b)]
    ensures var shape := Shape(Map(size, blocks));
            IsPartition(shape, n) &&
            MinBound(shape, values) <= Sum(worth, blocks) <= UpperBound(shape, values) &&
            FindBestPartition(n, values).Some? &&
            UpperBound(shape, values) <= FindBestPartition(n, values).value.upper
  {
    var sizes := Map(size, blocks);
    var shape := Shape(sizes);
    ShapeSorts(sizes);
    TotalRearranged(sizes, shape);
    forall i | 0 <= i < |shape| ensures shape[i] > 0 {
      assert shape[i] in multiset(sizes);
      var j :| 0 <= j < |sizes| && sizes[j] == shape[i];
      assert blocks[j] in blocks;
    }
    var top: B -> real := b => TopOf(values)(size(b));
    SumAtMost(worth, top, blocks);
    SumMapped(TopOf(values), size, top, blocks);
    SumRearranged(TopOf(values), sizes, shape);
    var least: B -> real := b => LeastOf(values)(size(b));
    SumAtMost(least, worth, blocks);
    SumMapped(LeastOf(values), size, least, blocks);
    SumRearranged(LeastOf(values), sizes, shape);
    BestDominates(n, values, shape);
  }

  lemma {:induction false} TotalAsSum(p: Partition)
    ensures Total(p) as real == Sum((x: nat) => x as real, p)
  {
    if p != [] {
      TotalAsSum(p[1..]);
    }
  }

  lemma TotalRearranged(p: Partition, q: Partition)
    requires multiset(p) == multiset(q)
    ensures Total(p) == Total(q)
  {
    TotalAsSum(p);
    TotalAsSum(q);
    SumRearranged((x: nat) => x as real, p, q);
  }

  // ----- Sizes without a bucket -----

  /** The parts that have values. */
  function Priced(p: Partition, values: Buckets): Partition {
    if p == [] then [] else (if p[0] in values then [p[0]] else []) + Priced(p[1..], values)
  }

  lemma {:induction false} SumOfPriced(f: nat -> real, p: Partition, values: Buckets)
    requires forall size :: size !in values ==> f(size) == 0.0
    ensures Sum(f, p) == Sum(f, Priced(p, values))
  {
    if p != [] {
      SumOfPriced(f, p[1..], values);
      if p[0] in values {
        assert Priced(p, values)[1..] == Priced(p[1..], values);
      } else {
        assert Priced(p, values) == Priced(p[1..], values);
      }
    }
  }

  /** The bounds of a partition are those of its priced parts alone, and a partition none of whose
      sizes has values is bounded by zero. */
  lemma UnpricedSizesAddNothing(p: Partition, values: Buckets)
    ensures var kept := Priced(p, values);
            UpperBound(p, values) == UpperBound(kept, values) &&
            AverageBound(p, values) == AverageBound(kept, values) &&
            (kept == [] ==> UpperBound(p, values) == AverageBound(p, values) == 0.0)
  {
    SumOfPriced(TopOf(values), p, values);
    SumOfPriced(MeanOf(values), p, values);
  }
}
