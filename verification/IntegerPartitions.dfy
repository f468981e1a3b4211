/** Integer partitions: the backtracking enumerator, the counting recurrence computed in
    place, and the validity check. */
module IntegerPartitions {
  import opened Words

  type Partition = seq<nat>

  function Total(p: Partition): nat {
    if p == [] then 0 else p[0] + Total(p[1..])
  }

  predicate NonIncreasing(p: Partition) {
    forall i :: 1 <= i < |p| ==> p[i] <= p[i - 1]
  }

  predicate Positive(p: Partition) {
    forall i :: 0 <= i < |p| ==> p[i] > 0
  }

  predicate IsPartition(p: Partition, n: nat) {
    Total(p) == n && Positive(p) && NonIncreasing(p)
  }

  // ----- What the enumerator lists -----

  function Prefixed(c: Partition, ps: seq<Partition>): (r: seq<Partition>)
    ensures |r| == |ps| && forall k :: 0 <= k < |ps| ==> r[k] == c + ps[k]
  {
    seq(|ps|, k requires 0 <= k < |ps| => c + ps[k])
  }

  /** The partitions of `n` into parts of at most `max`, in the enumerator's order. */
  function Parts(n: nat, max: nat): seq<Partition>
    decreases n, n + 1
  {
    if n == 0 then [[]]
    else HeadAtMost(n, if max < n then max else n)
  }

  /** Those whose first part is at most `i`, largest first part first. */
  function HeadAtMost(n: nat, i: nat): seq<Partition>
    requires i <= n
    decreases n, i
  {
    if i == 0 then []
    else Prefixed([i], Parts(n - i, i)) + HeadAtMost(n, i - 1)
  }

  /** `p` precedes `q` in decreasing lexicographic order. */
  predicate LexGreater(p: Partition, q: Partition) {
    p != [] && q != [] && (p[0] > q[0] || (p[0] == q[0] && LexGreater(p[1..], q[1..])))
  }

  lemma TailOfPartition(p: Partition, n: nat)
    requires p != []
    ensures IsPartition(p, n) <==>
            p[0] > 0 && p[0] <= n && IsPartition(p[1..], n - p[0]) && (|p| > 1 ==> p[1] <= p[0])
  {
    var t := p[1..];
    assert p == [p[0]] + t;
    if p[0] > 0 && p[0] <= n && IsPartition(t, n - p[0]) && (|p| > 1 ==> p[1] <= p[0]) {
      forall i | 2 <= i < |p| ensures p[i] <= p[i - 1] {
        assert t[i - 1] <= t[i - 2];
      }
    }
  }

  /** Sound and complete: exactly the partitions of `n` with parts at most `max` are listed. */
  lemma {:induction false} PartsAreExact(n: nat, max: nat, p: Partition)
    ensures p in Parts(n, max) <==> IsPartition(p, n) && (p != [] ==> p[0] <= max)
    decreases n, n + 1
  {
    if n == 0 {
      assert p != [] && Positive(p) ==> p[0] > 0;
    } else {
      HeadAtMostIsExact(n, if max < n then max else n, p);
      if p != [] {
        TailOfPartition(p, n);
      }
    }
  }

  lemma {:induction false} HeadAtMostIsExact(n: nat, i: nat, p: Partition)
    requires 0 < n && i <= n
    ensures p in HeadAtMost(n, i) <==> p != [] && IsPartition(p, n) && p[0] <= i
    decreases n, i
  {
    if p != [] {
      TailOfPartition(p, n);
    }
    if i > 0 {
      HeadAtMostIsExact(n, i - 1, p);
      var ps := Parts(n - i, i);
      if p != [] && p[0] == i {
        PartsAreExact(n - i, i, p[1..]);
        if p[1..] in ps {
          var k :| 0 <= k < |ps| && ps[k] == p[1..];
          assert Prefixed([i], ps)[k] == p;
        }
      }
      if p in Prefixed([i], ps) {
        var k :| 0 <= k < |ps| && Prefixed([i], ps)[k] == p;
        assert p == [i] + ps[k];
        assert p[1..] == ps[k];
      }
    }
  }

  ghost predicate LexDecreasing(ps: seq<Partition>) {
    forall a, b :: 0 <= a < b < |ps| ==> LexGreater(ps[a], ps[b])
  }

  lemma {:induction false} PartsDecrease(n: nat, max: nat)
    ensures LexDecreasing(Parts(n, max))
    decreases n, n + 1
  {
    if n > 0 {
      HeadAtMostDecrease(n, if max < n then max else n);
    }
  }

  lemma {:induction false} HeadAtMostDecrease(n: nat, i: nat)
    requires 0 < n && i <= n
    ensures LexDecreasing(HeadAtMost(n, i))
    decreases n, i
  {
    if i > 0 {
      var ps, rest := Parts(n - i, i), HeadAtMost(n, i - 1);
      PartsDecrease(n - i, i);
      HeadAtMostDecrease(n, i - 1);
      forall b | 0 <= b < |rest| ensures rest[b] != [] && rest[b][0] < i {
        HeadAtMostIsExact(n, i - 1, rest[b]);
      }
      PrefixedDecrease(i, ps, rest);
    }
  }

  /** Partitions with a head go before those with smaller heads. */
  lemma PrefixedDecrease(i: nat, ps: seq<Partition>, rest: seq<Partition>)
    requires LexDecreasing(ps) && LexDecreasing(rest)
    requires forall b :: 0 <= b < |rest| ==> rest[b] != [] && rest[b][0] < i
    ensures LexDecreasing(Prefixed([i], ps) + rest)
  {
    var all := Prefixed([i], ps) + rest;
    forall a, b | 0 <= a < b < |all| ensures LexGreater(all[a], all[b]) {
      if b < |ps| {
        assert all[a][1..] == ps[a] && all[b][1..] == ps[b];
      } else if a >= |ps| {
        assert all[a] == rest[a - |ps|] && all[b] == rest[b - |ps|];
      }
    }
  }

  lemma {:induction false} LexGreaterIsStrict(p: Partition)
    ensures !LexGreater(p, p)
  {
    if p != [] {
      LexGreaterIsStrict(p[1..]);
    }
  }

  // ----- How many there are -----

  /** The recurrence: partitions of `n` with parts at most `k` either avoid the part `k`
      or contain it. */
  function Count(n: nat, k: nat): nat {
    if n == 0 then 1
    else if k == 0 then 0
    else Count(n, k - 1) + if n >= k then Count(n - k, k) else 0
  }

  lemma {:induction false} PartsCounted(n: nat, max: nat)
    ensures |Parts(n, max)| == Count(n, max)
    decreases n, n + 1
  {
    if n > 0 {
      if max < n {
        HeadAtMostCounted(n, max);
      } else {
        HeadAtMostCounted(n, n);
        CountSaturates(n, max);
      }
    }
  }

  lemma {:induction false} HeadAtMostCounted(n: nat, i: nat)
    requires 0 < n && i <= n
    ensures |HeadAtMost(n, i)| == Count(n, i)
    decreases n, i
  {
    if i > 0 {
      PartsCounted(n - i, i);
      HeadAtMostCounted(n, i - 1);
    }
  }

  lemma {:induction false} CountSaturates(n: nat, k: nat)
    requires k >= n
    ensures Count(n, k) == Count(n, n)
  {
    if k > n > 0 {
      CountSaturates(n, k - 1);
    }
  }

  // ----- The enumerator -----

  /** The two vectors the recursion shares: the prefix under construction and the output. */
  class Enumerator {
    var current: Partition
    var result: seq<Partition>

    constructor ()
      ensures current == [] && result == []
    {
      current, result := [], [];
    }

    /** Appends, in order, the prefix extended by each partition of `n` into parts of at
        most `maxValue`, and gives the prefix back as it found it. */
    method Generate(n: nat, maxValue: nat)
      modifies this
      ensures current == old(current)
      ensures result == old(result) + Prefixed(old(current), Parts(n, maxValue))
      decreases n
    {
      hide Prefixed, Parts, HeadAtMost;
      PartsUnfold(current, n, maxValue);
      if n == 0 {
        result := result + [current];
        return;
      }
      var top := if maxValue < n then maxValue else n;
      ghost var c := current;
      var i := top;
      while i > 0
        invariant 0 <= i <= top
        invariant current == c
        invariant result + Prefixed(c, HeadAtMost(n, i)) == old(result) + Prefixed(c, Parts(n, maxValue))
      {
        HeadUnfold(c, n, i);
        current := current + [i];
        Generate(n - i, i);
        current := current[..|current| - 1];
        i := i - 1;
      }
      HeadUnfold(c, n, 0);
    }
  }

  lemma PartsUnfold(c: Partition, n: nat, max: nat)
    ensures n == 0 ==> Prefixed(c, Parts(n, max)) == [c]
    ensures n > 0 ==> Parts(n, max) == HeadAtMost(n, if max < n then max else n)
  {
    if n == 0 {
      assert c + [] == c;
    }
  }

  lemma HeadUnfold(c: Partition, n: nat, i: nat)
    requires i <= n && n > 0
    ensures i == 0 ==> Prefixed(c, HeadAtMost(n, i)) == []
    ensures i > 0 ==> Prefixed(c, HeadAtMost(n, i)) ==
                      Prefixed(c + [i], Parts(n - i, i)) + Prefixed(c, HeadAtMost(n, i - 1))
  {
    if i > 0 {
      PrefixedTwice(c, i, Parts(n - i, i), HeadAtMost(n, i - 1));
    }
  }

  lemma PrefixedTwice(c: Partition, i: nat, ps: seq<Partition>, rest: seq<Partition>)
    ensures Prefixed(c, Prefixed([i], ps) + rest) == Prefixed(c + [i], ps) + Prefixed(c, rest)
  {
    forall k | 0 <= k < |ps|
      ensures Prefixed(c + [i], ps)[k] == Prefixed(c, Prefixed([i], ps))[k]
    {
      assert (c + [i]) + ps[k] == c + ([i] + ps[k]);
    }
  }

  /** All integer partitions of `n`. */
  function Generated(n: nat): seq<Partition> {
    Parts(n, n)
  }

  method GenerateIntegerPartitions(n: nat) returns (partitions: seq<Partition>)
    ensures partitions == Generated(n)
  {
    if n == 0 {
      return [[]];
    }
    var e := new Enumerator();
    e.Generate(n, n);
    forall k | 0 <= k < |Parts(n, n)| ensures Prefixed([], Parts(n, n))[k] == Parts(n, n)[k] {
      assert [] + Parts(n, n)[k] == Parts(n, n)[k];
    }
    partitions := e.result;
  }

  /** The enumeration theorem: every partition of `n` is listed, nothing else is, the list
      strictly decreases lexicographically (so nothing is listed twice), and its length is
      the value of the counting recurrence. */
  lemma EnumerationIsExact(n: nat)
    ensures forall p :: p in Generated(n) <==> IsPartition(p, n)
    ensures LexDecreasing(Generated(n))
    ensures forall a, b :: 0 <= a < b < |Generated(n)| ==> Generated(n)[a] != Generated(n)[b]
    ensures |Generated(n)| == Count(n, n)
  {
    forall p ensures p in Generated(n) <==> IsPartition(p, n) {
      PartsAreExact(n, n, p);
      if p != [] {
        TailOfPartition(p, n);
      }
    }
    PartsDecrease(n, n);
    forall a, b | 0 <= a < b < |Generated(n)| ensures Generated(n)[a] != Generated(n)[b] {
      LexGreaterIsStrict(Generated(n)[a]);
    }
    PartsCounted(n, n);
  }

  /** Every number has a partition. */
  lemma PartitionsExist(n: nat)
    ensures Generated(n) != []
  {
    var p: Partition := if n == 0 then [] else [n];
    assert IsPartition(p, n);
    PartsAreExact(n, n, p);
  }

  lemma CountUnfold(n: nat, k: nat)
    ensures Count(0, k) == 1
    ensures n > 0 ==> Count(n, 0) == 0
    ensures k > n ==> Count(n, k) == Count(n, if k == 0 then 0 else k - 1)
    ensures 0 < k <= n ==> Count(n, k) == Count(n, k - 1) + Count(n - k, k)
  {
  }

  lemma AddRemainders(a: nat, b: nat)
    ensures WrappingAdd(a % WORD, b % WORD) == (a + b) % WORD
  {
    var x, y := a / WORD, b / WORD;
    var sum := a % WORD + b % WORD;
    RemainderIs(a + b, x + y + sum / WORD, sum % WORD);
  }

  /** The count without the list: the recurrence in one array of machine words, updated in
      place. The additions wrap, so the answer is the number of partitions modulo 2^64:
      exact precisely while that number fits in a word. */
  method PartitionCount(n: nat) returns (count: U64)
    ensures count == |Generated(n)| % WORD
    ensures count == |Generated(n)| <==> |Generated(n)| < WORD
  {
    hide WrappingAdd, Count;
    EnumerationIsExact(n);
    CountUnfold(0, 0);
    if n == 0 {
      return 1;
    }
    var p := new U64[n + 1](_ => 0);
    p[0] := 1;
    forall j | 0 <= j <= n ensures Count(j, 0) == if j == 0 then 1 else 0 {
      CountUnfold(j, 0);
    }
    for k := 1 to n + 1
      invariant p.Length == n + 1
      invariant forall i :: 0 <= i <= n ==> p[i] == Count(i, k - 1) % WORD
    {
      forall j | 0 <= j < k ensures Count(j, k) == Count(j, k - 1) {
        CountUnfold(j, k);
      }
      for i := k to n + 1
        invariant forall j :: 0 <= j < i ==> p[j] == Count(j, k) % WORD
        invariant forall j :: i <= j <= n ==> p[j] == Count(j, k - 1) % WORD
      {
        CountUnfold(i, k);
        AddRemainders(Count(i, k - 1), Count(i - k, k));
        p[i] := WrappingAdd(p[i], p[i - k]);
      }
    }
    count := p[n];
  }

  /** The validity check decides `IsPartition`. */
  method VerifyPartition(p: Partition, n: nat) returns (valid: bool)
    ensures valid <==> IsPartition(p, n)
  {
    if p == [] && n == 0 {
      return true;
    }
    if p == [] {
      return false;
    }
    if 0 in p {
      return false;
    }
    if Total(p) != n {
      return false;
    }
    for i := 1 to |p|
      invariant forall j :: 1 <= j < i ==> p[j] <= p[j - 1]
    {
      if p[i] > p[i - 1] {
        return false;
      }
    }
    return true;
  }
}
