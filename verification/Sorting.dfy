/** A stable insertion sort by a comparator, for the source's calls of the library's stable sort. */
module Sorting {
  import opened Sums

  function Inserted<T>(atMost: (T, T) -> bool, x: T, s: seq<T>): seq<T> {
    if s == [] || atMost(x, s[0]) then [x] + s else [s[0]] + Inserted(atMost, x, s[1..])
  }

  /** Ascending by `atMost`; items that compare equal keep their order. */
  function Sorted<T>(atMost: (T, T) -> bool, s: seq<T>): seq<T> {
    if s == [] then [] else Inserted(atMost, s[0], Sorted(atMost, s[1..]))
  }

  ghost predicate TotalPreorder<T(!new)>(atMost: (T, T) -> bool) {
    (forall x, y :: atMost(x, y) || atMost(y, x)) &&
    forall x, y, z :: atMost(x, y) && atMost(y, z) ==> atMost(x, z)
  }

  ghost predicate Antisymmetric<T(!new)>(atMost: (T, T) -> bool) {
    forall x, y :: atMost(x, y) && atMost(y, x) ==> x == y
  }

  ghost predicate Ascending<T>(atMost: (T, T) -> bool, s: seq<T>) {
    forall i, j :: 0 <= i < j < |s| ==> atMost(s[i], s[j])
  }

  lemma {:induction false} InsertedItems<T>(atMost: (T, T) -> bool, x: T, s: seq<T>)
    ensures multiset(Inserted(atMost, x, s)) == multiset(s) + multiset{x}
    ensures |Inserted(atMost, x, s)| == |s| + 1
  {
    if !(s == [] || atMost(x, s[0])) {
      InsertedItems(atMost, x, s[1..]);
      assert s == [s[0]] + s[1..];
    }
  }

  lemma {:induction false} SortedItems<T>(atMost: (T, T) -> bool, s: seq<T>)
    ensures multiset(Sorted(atMost, s)) == multiset(s)
    ensures |Sorted(atMost, s)| == |s|
  {
    if s != [] {
      SortedItems(atMost, s[1..]);
      InsertedItems(atMost, s[0], Sorted(atMost, s[1..]));
      assert s == [s[0]] + s[1..];
    }
  }

  lemma {:induction false} InsertedAscends<T(!new)>(atMost: (T, T) -> bool, x: T, s: seq<T>)
    requires TotalPreorder(atMost) && Ascending(atMost, s)
    ensures Ascending(atMost, Inserted(atMost, x, s))
  {
    if !(s == [] || atMost(x, s[0])) {
      var rest := Inserted(atMost, x, s[1..]);
      InsertedAscends(atMost, x, s[1..]);
      InsertedItems(atMost, x, s[1..]);
      forall k | 0 <= k < |rest| ensures atMost(s[0], rest[k]) {
        assert rest[k] in multiset(rest);
        assert rest[k] == x || rest[k] in s[1..];
      }
    }
  }

  /** A sort ascends and rearranges. */
  lemma {:induction false} SortedAscends<T(!new)>(atMost: (T, T) -> bool, s: seq<T>)
    requires TotalPreorder(atMost)
    ensures Ascending(atMost, Sorted(atMost, s))
    ensures multiset(Sorted(atMost, s)) == multiset(s)
  {
    hide TotalPreorder, Ascending;
    SortedItems(atMost, s);
    if s == [] {
      NothingAscends(atMost);
    } else {
      SortedAscends(atMost, s[1..]);
      InsertedAscends(atMost, s[0], Sorted(atMost, s[1..]));
    }
  }

  lemma NothingAscends<T>(atMost: (T, T) -> bool)
    ensures Ascending(atMost, [])
  {
  }

  /** Under a total order the ascending rearrangement is unique. */
  lemma {:induction false} AscendingIsUnique<T(!new)>(atMost: (T, T) -> bool, s: seq<T>, t: seq<T>)
    requires Antisymmetric(atMost) && TotalPreorder(atMost)
    requires Ascending(atMost, s) && Ascending(atMost, t) && multiset(s) == multiset(t)
    ensures s == t
    decreases |s|
  {
    if s == [] {
      assert multiset(t) == multiset{};
      assert t == [];
    } else {
      HeadIsLeast(atMost, s, t);
      TailTakenOut(s);
      TailTakenOut(t);
      TailAscends(atMost, s);
      TailAscends(atMost, t);
      hide TotalPreorder, Antisymmetric, Ascending;
      AscendingIsUnique(atMost, s[1..], t[1..]);
      assert s == [s[0]] + s[1..] && t == [t[0]] + t[1..];
    }
  }

  lemma TailAscends<T>(atMost: (T, T) -> bool, s: seq<T>)
    requires s != [] && Ascending(atMost, s)
    ensures Ascending(atMost, s[1..])
  {
  }

  lemma HeadIsLeast<T(!new)>(atMost: (T, T) -> bool, s: seq<T>, t: seq<T>)
    requires Antisymmetric(atMost) && TotalPreorder(atMost) && s != []
    requires Ascending(atMost, s) && Ascending(atMost, t) && multiset(s) == multiset(t)
    ensures t != [] && s[0] == t[0]
  {
    assert s[0] in multiset(t);
    assert t[0] in multiset(s);
    var i :| 0 <= i < |s| && s[i] == t[0];
    var j :| 0 <= j < |t| && t[j] == s[0];
    assert atMost(s[0], s[i]) && atMost(t[0], t[j]);
  }

  /** Rearranged sequences sort alike. */
  lemma SortedRearranged<T(!new)>(atMost: (T, T) -> bool, s: seq<T>, t: seq<T>)
    requires Antisymmetric(atMost) && TotalPreorder(atMost) && multiset(s) == multiset(t)
    ensures Sorted(atMost, s) == Sorted(atMost, t)
  {
    hide TotalPreorder, Antisymmetric, Ascending;
    SortedAscends(atMost, s);
    SortedAscends(atMost, t);
    AscendingIsUnique(atMost, Sorted(atMost, s), Sorted(atMost, t));
  }
}
