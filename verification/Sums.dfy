/** Sums over sequences, and rearrangements of sequences. */
module Sums {

  function Map<S, T>(f: S -> T, s: seq<S>): (r: seq<T>)
    ensures |r| == |s|
    ensures forall i :: 0 <= i < |s| ==> r[i] == f(s[i])
  {
    seq(|s|, i requires 0 <= i < |s| => f(s[i]))
  }

  function Sum<T>(f: T -> real, s: seq<T>): real {
    if s == [] then 0.0 else f(s[0]) + Sum(f, s[1..])
  }

  lemma {:induction false} SumConcat<T>(f: T -> real, s: seq<T>, t: seq<T>)
    ensures Sum(f, s + t) == Sum(f, s) + Sum(f, t)
  {
    if s == [] {
      assert s + t == t;
    } else {
      assert (s + t)[1..] == s[1..] + t;
      SumConcat(f, s[1..], t);
    }
  }

  lemma SumLast<T>(f: T -> real, s: seq<T>, x: T)
    ensures Sum(f, s + [x]) == Sum(f, s) + f(x)
  {
    SumConcat(f, s, [x]);
    assert Sum(f, [x]) == f(x) + Sum(f, []);
  }

  lemma MultisetCancel<T(!new)>(a: multiset<T>, b: multiset<T>, x: T)
    requires a + multiset{x} == b + multiset{x}
    ensures a == b
  {
    forall e ensures a[e] == b[e] {
      assert (a + multiset{x})[e] == (b + multiset{x})[e];
    }
  }

  /** A sum does not depend on the order of its terms. */
  lemma {:induction false} SumRearranged<T(!new)>(f: T -> real, s: seq<T>, t: seq<T>)
    requires multiset(s) == multiset(t)
    ensures Sum(f, s) == Sum(f, t)
    decreases |s|
  {
    if s == [] {
      assert multiset(t) == multiset{};
      assert t == [];
    } else {
      var k := Locate(s, t);
      SumConcat(f, t[..k], t[k + 1..]);
      SumConcat(f, t[..k], [t[k]] + t[k + 1..]);
      assert t == t[..k] + ([t[k]] + t[k + 1..]);
      SumRearranged(f, s[1..], t[..k] + t[k + 1..]);
    }
  }

  lemma TakenOut<T>(t: seq<T>, k: nat)
    requires k < |t|
    ensures multiset(t[..k] + t[k + 1..]) == multiset(t) - multiset{t[k]}
  {
    assert t == t[..k] + ([t[k]] + t[k + 1..]);
  }

  lemma TailTakenOut<T>(s: seq<T>)
    requires s != []
    ensures multiset(s[1..]) == multiset(s) - multiset{s[0]}
  {
    assert s == [s[0]] + s[1..];
  }

  lemma IndexIn<T>(t: seq<T>, x: T) returns (k: nat)
    requires x in multiset(t)
    ensures k < |t| && t[k] == x
  {
    k :| 0 <= k < |t| && t[k] == x;
  }

  /** Where the head of `s` is in a rearrangement `t`; taking it out of both leaves
      rearrangements. */
  lemma Locate<T(!new)>(s: seq<T>, t: seq<T>) returns (k: nat)
    requires s != [] && multiset(s) == multiset(t)
    ensures k < |t| && t[k] == s[0]
    ensures multiset(s[1..]) == multiset(t[..k] + t[k + 1..])
  {
    assert s[0] in multiset(s);
    k := IndexIn(t, s[0]);
    TailTakenOut(s);
    TakenOut(t, k);
  }

  /** Mapping rearranged sequences gives rearranged sequences. */
  lemma {:induction false} MapRearranged<S(!new), T>(f: S -> T, s: seq<S>, t: seq<S>)
    requires multiset(s) == multiset(t)
    ensures multiset(Map(f, s)) == multiset(Map(f, t))
    decreases |s|
  {
    if s == [] {
      assert multiset(t) == multiset{};
      assert t == [];
    } else {
      var k := Locate(s, t);
      MapRearranged(f, s[1..], t[..k] + t[k + 1..]);
      assert Map(f, s) == [f(s[0])] + Map(f, s[1..]);
      assert Map(f, t) == Map(f, t[..k]) + [f(t[k])] + Map(f, t[k + 1..]);
      assert Map(f, t[..k] + t[k + 1..]) == Map(f, t[..k]) + Map(f, t[k + 1..]);
    }
  }

  lemma {:induction false} SumAtMost<T>(f: T -> real, g: T -> real, s: seq<T>)
    requires forall x :: x in s ==> f(x) <= g(x)
    ensures Sum(f, s) <= Sum(g, s)
  {
    if s != [] {
      SumAtMost(f, g, s[1..]);
    }
  }

  lemma {:induction false} SumMapped<S, T>(f: T -> real, g: S -> T, h: S -> real, s: seq<S>)
    requires forall x :: x in s ==> f(g(x)) == h(x)
    ensures Sum(f, Map(g, s)) == Sum(h, s)
  {
    if s != [] {
      assert Map(g, s)[1..] == Map(g, s[1..]);
      SumMapped(f, g, h, s[1..]);
    }
  }

  ghost predicate Distinct<T(!new)>(s: seq<T>) {
    forall i, j :: 0 <= i < j < |s| ==> s[i] != s[j]
  }

  lemma {:induction false} DistinctMultiplicity<T(!new)>(s: seq<T>, x: T)
    requires Distinct(s)
    ensures multiset(s)[x] == if x in s then 1 else 0
  {
    if s != [] {
      assert s == [s[0]] + s[1..];
      DistinctMultiplicity(s[1..], x);
    }
  }

  /** Duplicate-free sequences with the same elements are rearrangements of each other. */
  lemma DistinctSameElements<T(!new)>(s: seq<T>, t: seq<T>)
    requires Distinct(s) && Distinct(t)
    requires forall x :: x in s <==> x in t
    ensures multiset(s) == multiset(t)
  {
    forall x ensures multiset(s)[x] == multiset(t)[x] {
      DistinctMultiplicity(s, x);
      DistinctMultiplicity(t, x);
    }
  }

  lemma TwiceInMultiset<T>(s: seq<T>, i: nat, j: nat)
    requires i < j < |s| && s[i] == s[j]
    ensures multiset(s)[s[i]] >= 2
  {
    assert s == s[..j] + [s[j]] + s[j + 1..];
    assert s[i] in s[..j];
    assert s[i] in multiset(s[..j]);
  }

  lemma DistinctRearranged<T(!new)>(s: seq<T>, t: seq<T>)
    requires Distinct(s) && multiset(s) == multiset(t)
    ensures Distinct(t)
  {
    forall i, j | 0 <= i < j < |t| ensures t[i] != t[j] {
      if t[i] == t[j] {
        DistinctMultiplicity(s, t[i]);
        TwiceInMultiset(t, i, j);
      }
    }
  }
}
