/** Vote routing by the candidate star: the routing matrix, what a confidence-weighted mixture
    over it decides, and how far candidate-sensitive outputs reach. Probabilities and weights
    are exact reals; an output is its probability of the action "act". */
module Routing {
  import opened Wrappers

  type Matrix = seq<seq<real>>

  // ----- The routing matrix -----

  function Weight(centre: Option<nat>, lambda: real, i: nat, j: nat): real {
    match centre
    case Some(c) =>
      if i != c && j == c then lambda
      else if i != c && j == i then 1.0 - lambda
      else if i == j then 1.0
      else 0.0
    case None => if i == j then 1.0 else 0.0
  }

  function Row(n: nat, centre: Option<nat>, lambda: real, i: nat): (row: seq<real>)
    ensures |row| == n && forall j :: 0 <= j < n ==> row[j] == Weight(centre, lambda, i, j)
  {
    seq(n, (j: nat) => Weight(centre, lambda, i, j))
  }

  function Star(n: nat, centre: Option<nat>, lambda: real): (m: Matrix)
    ensures |m| == n && forall i :: 0 <= i < n ==> m[i] == Row(n, centre, lambda, i)
  {
    seq(n, (i: nat) => Row(n, centre, lambda, i))
  }

  /** The matrix and whether it is meant to route anything; an empty roster has no topology. */
  function CandidateStar(n: nat, centre: Option<nat>, lambda: real): Option<(Matrix, bool)> {
    if n == 0 then None
    else Some((Star(n, centre, lambda), centre.Some? && n >= 2 && lambda > 0.0))
  }

  // ----- Products of reals -----

  /** A product by name, so that sums of products can be reasoned about as plain sums. */
  function Times(a: real, b: real): real {
    a * b
  }

  lemma Distributes(a: real, b: real, c: real)
    ensures Times(a, b - c) == Times(a, b) - Times(a, c)
    ensures Times(a, b + c) == Times(a, b) + Times(a, c)
  {
  }

  lemma ProductSign(a: real, b: real)
    ensures a >= 0.0 && b >= 0.0 ==> Times(a, b) >= 0.0
    ensures a > 0.0 && b > 0.0 ==> Times(a, b) > 0.0
  {
  }

  /** Scaling by a positive weight keeps the order. */
  lemma Scales(w: real, a: real, b: real)
    requires w > 0.0
    ensures a <= b ==> Times(w, a) <= Times(w, b)
    ensures a < b ==> Times(w, a) < Times(w, b)
  {
    hide Times;
    Distributes(w, b, a);
    ProductSign(w, b - a);
  }

  lemma Fraction(a: real, x: real)
    requires a >= 0.0 && 0.0 <= x <= 1.0
    ensures 0.0 <= Times(a, x) <= a
  {
    Distributes(a, 1.0, x);
    ProductSign(a, x);
    ProductSign(a, 1.0 - x);
  }

  // ----- Sums of products -----

  function Dot(w: seq<real>, x: seq<real>): real
    requires |w| == |x|
  {
    if w == [] then 0.0 else Times(w[0], x[0]) + Dot(w[1..], x[1..])
  }

  function Ones(n: nat): (ones: seq<real>)
    ensures |ones| == n && forall i :: 0 <= i < n ==> ones[i] == 1.0
  {
    seq(n, _ => 1.0)
  }

  lemma {:induction false} DotZero(w: seq<real>, x: seq<real>)
    requires |w| == |x| && forall k :: 0 <= k < |w| ==> w[k] == 0.0
    ensures Dot(w, x) == 0.0
  {
    if w != [] {
      DotZero(w[1..], x[1..]);
    }
  }

  /** A row with one entry picks it. */
  lemma {:induction false} DotOne(w: seq<real>, x: seq<real>, a: nat)
    requires |w| == |x| && a < |w| && forall k :: 0 <= k < |w| && k != a ==> w[k] == 0.0
    ensures Dot(w, x) == Times(w[a], x[a])
  {
    if a == 0 {
      DotZero(w[1..], x[1..]);
    } else {
      DotOne(w[1..], x[1..], a - 1);
    }
  }

  /** A row with two entries adds them. */
  lemma {:induction false} DotTwo(w: seq<real>, x: seq<real>, a: nat, b: nat)
    requires |w| == |x| && a < b < |w| && forall k :: 0 <= k < |w| && k != a && k != b ==> w[k] == 0.0
    ensures Dot(w, x) == Times(w[a], x[a]) + Times(w[b], x[b])
  {
    if a == 0 {
      DotOne(w[1..], x[1..], b - 1);
    } else {
      DotTwo(w[1..], x[1..], a - 1, b - 1);
    }
  }

  /** What a row of the star reads: its own output off the centre's path, else the blend. */
  lemma RowReads(n: nat, centre: Option<nat>, lambda: real, i: nat, x: seq<real>)
    requires |x| == n && i < n && (centre.Some? ==> centre.value < n)
    ensures Dot(Row(n, centre, lambda, i), x) ==
            if centre.Some? && i != centre.value then Times(lambda, x[centre.value]) + Times(1.0 - lambda, x[i])
            else x[i]
  {
    hide Dot;
    var row := Row(n, centre, lambda, i);
    if centre.Some? && i != centre.value {
      if i < centre.value {
        DotTwo(row, x, i, centre.value);
      } else {
        DotTwo(row, x, centre.value, i);
      }
    } else {
      DotOne(row, x, i);
    }
  }

  /** Every row is a probability distribution over the roster. */
  lemma StarIsStochastic(n: nat, centre: Option<nat>, lambda: real, i: nat)
    requires 0.0 <= lambda <= 1.0 && i < n && (centre.Some? ==> centre.value < n)
    ensures var row := Star(n, centre, lambda)[i];
            (forall j :: 0 <= j < n ==> 0.0 <= row[j] <= 1.0) && Dot(row, Ones(n)) == 1.0
  {
    RowReads(n, centre, lambda, i, Ones(n));
  }

  /** The outputs routed through a matrix, row by row. */
  function Route(m: Matrix, x: seq<real>): (r: seq<real>)
    requires forall i :: 0 <= i < |m| ==> |m[i]| == |x|
    ensures |r| == |m| && forall i :: 0 <= i < |m| ==> r[i] == Dot(m[i], x)
  {
    seq(|m|, i requires 0 <= i < |m| => Dot(m[i], x))
  }

  /** The routed flag says exactly whether the matrix differs from the identity, and the
      identity routes every output to itself. */
  lemma RoutedMeansNotIdentity(n: nat, centre: Option<nat>, lambda: real, x: seq<real>)
    requires 0.0 <= lambda <= 1.0 && 0 < n == |x| && (centre.Some? ==> centre.value < n)
    ensures var built := CandidateStar(n, centre, lambda);
            built.Some? && (!built.value.1 <==> built.value.0 == Star(n, None, 0.0)) &&
            (!built.value.1 ==> Route(built.value.0, x) == x)
  {
    var star, id := Star(n, centre, lambda), Star(n, None, 0.0);
    if centre.Some? && n >= 2 && lambda > 0.0 {
      var c := centre.value;
      var i := if c == 0 then 1 else 0;
      assert star[i][c] == lambda && id[i][c] == 0.0;
    } else {
      forall i | 0 <= i < n ensures star[i] == id[i] {
        assert forall j :: 0 <= j < n ==> star[i][j] == id[i][j];
      }
      assert star == id;
      forall i | 0 <= i < n ensures Route(star, x)[i] == x[i] {
        RowReads(n, None, 0.0, i, x);
      }
    }
  }

  // ----- What the mixture decides -----

  /** Outputs in `[0, 1]` and positive confidence weights, one per roster position. */
  ghost predicate Votes(n: nat, x: seq<real>, w: seq<real>) {
    |x| == |w| == n &&
    (forall i :: 0 <= i < n ==> 0.0 <= x[i] <= 1.0) &&
    forall i :: 0 <= i < n ==> w[i] > 0.0
  }

  /** The weighted mean of the rows read out. */
  function Mixture(w: seq<real>, rows: seq<real>): real
    requires |w| == |rows| && Dot(w, Ones(|w|)) != 0.0
  {
    Dot(w, rows) / Dot(w, Ones(|w|))
  }

  lemma {:induction false} WeightsArePositive(w: seq<real>)
    requires w != [] && forall i :: 0 <= i < |w| ==> w[i] > 0.0
    ensures Dot(w, Ones(|w|)) > 0.0
  {
    assert Ones(|w|)[1..] == Ones(|w| - 1);
    if |w| > 1 {
      WeightsArePositive(w[1..]);
    }
  }

  lemma AddOrders(a: real, b: real, c: real, d: real)
    ensures a <= b && c <= d ==> a + c <= b + d
    ensures (a < b && c <= d) || (a <= b && c < d) ==> a + c < b + d
  {
  }

  lemma EmptyDot(w: seq<real>, rows: seq<real>)
    requires w == [] && rows == []
    ensures Dot(w, rows) == 0.0 && Dot(w, Ones(0)) == 0.0
  {
  }

  lemma OneMoreTerm(w: seq<real>, rows: seq<real>, h: real)
    requires |w| == |rows| && w != []
    ensures Dot(w, rows) == Times(w[0], rows[0]) + Dot(w[1..], rows[1..])
    ensures Dot(w, Ones(|w|)) == w[0] + Dot(w[1..], Ones(|w| - 1))
    ensures Times(h, Dot(w, Ones(|w|))) == Times(w[0], h) + Times(h, Dot(w[1..], Ones(|w| - 1)))
  {
    assert Ones(|w|)[1..] == Ones(|w| - 1);
    Distributes(h, w[0], Dot(w[1..], Ones(|w| - 1)));
    Commutes(h, w[0]);
  }

  lemma Commutes(a: real, b: real)
    ensures Times(a, b) == Times(b, a)
    ensures Times(a, 1.0) == a && Times(a, 0.0) == 0.0
  {
  }

  /** Comparing a weighted sum with a bound that each term respects, one of them strictly. */
  lemma {:induction false} DotAbove(w: seq<real>, rows: seq<real>, h: real, k: nat)
    requires |w| == |rows| && k <= |w| && forall i :: 0 <= i < |w| ==> w[i] > 0.0 && rows[i] >= h
    requires k < |w| ==> rows[k] > h
    ensures Dot(w, rows) >= Times(h, Dot(w, Ones(|w|)))
    ensures k < |w| ==> Dot(w, rows) > Times(h, Dot(w, Ones(|w|)))
  {
    hide Dot, Ones, Times;
    if w == [] {
      EmptyDot(w, rows);
      Commutes(h, 0.0);
    } else {
      assert |w[1..]| == |w| - 1;
      DotAbove(w[1..], rows[1..], h, if k == 0 then |w| - 1 else k - 1);
      Scales(w[0], h, rows[0]);
      OneMoreTerm(w, rows, h);
      AddOrders(Times(w[0], h), Times(w[0], rows[0]), Times(h, Dot(w[1..], Ones(|w| - 1))), Dot(w[1..], rows[1..]));
    }
  }

  lemma {:induction false} DotBelow(w: seq<real>, rows: seq<real>, h: real)
    requires |w| == |rows| && forall i :: 0 <= i < |w| ==> w[i] > 0.0 && rows[i] <= h
    ensures Dot(w, rows) <= Times(h, Dot(w, Ones(|w|)))
  {
    hide Dot, Ones, Times;
    if w == [] {
      EmptyDot(w, rows);
      Commutes(h, 0.0);
    } else {
      DotBelow(w[1..], rows[1..], h);
      Scales(w[0], rows[0], h);
      OneMoreTerm(w, rows, h);
    }
  }

  lemma MeanExceeds(w: seq<real>, rows: seq<real>, h: real)
    requires |w| == |rows| && Dot(w, Ones(|w|)) > 0.0
    ensures Mixture(w, rows) > h <==> Dot(w, rows) > Times(h, Dot(w, Ones(|w|)))
  {
    var t, d := Dot(w, Ones(|w|)), Dot(w, rows);
    assert d == Times(t, Mixture(w, rows));
    Commutes(t, h);
    Scales(t, h, Mixture(w, rows));
    Scales(t, Mixture(w, rows), h);
  }

  /** The act of a read: the mixture of the routed outputs is above one half. */
  ghost predicate Acts(n: nat, c: nat, lambda: real, x: seq<real>, w: seq<real>)
    requires c < n && Votes(n, x, w)
  {
    WeightsArePositive(w);
    Mixture(w, Route(Star(n, Some(c), lambda), x)) > 0.5
  }

  /** From one half on the centre's decided vote carries, whatever the positive weights are. */
  lemma HalfIsEnough(n: nat, c: nat, lambda: real, x: seq<real>, w: seq<real>)
    requires c < n && (n == 1 || 0.5 <= lambda) && lambda <= 1.0
    requires Votes(n, x, w) && (x[c] == 0.0 || x[c] == 1.0)
    ensures Acts(n, c, lambda, x, w) <==> x[c] == 1.0
  {
    hide Dot, Star, Times;
    var rows := Route(Star(n, Some(c), lambda), x);
    WeightsArePositive(w);
    MeanExceeds(w, rows, 0.5);
    forall i | 0 <= i < n
      ensures i == c ==> rows[i] == x[c]
      ensures x[c] == 1.0 ==> rows[i] >= 0.5
      ensures x[c] == 0.0 ==> rows[i] <= 0.5
    {
      RowReads(n, Some(c), lambda, i, x);
      if i != c {
        Fraction(1.0 - lambda, x[i]);
        Commutes(lambda, x[c]);
      }
    }
    if x[c] == 1.0 {
      DotAbove(w, rows, 0.5, c);
    } else {
      DotBelow(w, rows, 0.5);
    }
  }

  // ----- The threshold under confidence weights -----

  /** What a confidence weight is, for the probability of one of two actions: between one half
      and one, blind to which action it is, one for a certain output, and such that a more
      certain output pulls harder. */
  ghost predicate Confidence(g: real -> real) {
    (forall p: real :: 0.0 <= p <= 1.0 ==> 0.5 <= g(p) <= 1.0 && g(p) == g(1.0 - p)) &&
    g(0.0) == 1.0 &&
    forall p: real, q: real :: 0.5 <= p <= q <= 1.0 ==> Pull(g, p) <= Pull(g, q)
  }

  /** An output's weighted distance from one half. */
  function Pull(g: real -> real, p: real): real {
    Times(g(p), p - 0.5)
  }

  const Leaning: real -> real := p => if p < 0.5 then 1.0 - p else p

  /** There are such weights. */
  lemma LeaningIsConfidence()
    ensures Confidence(Leaning)
  {
    forall p: real, q: real | 0.5 <= p <= q <= 1.0 ensures Pull(Leaning, p) <= Pull(Leaning, q) {
      ProductSign(q - p, p + q - 0.5);
      assert Times(q, q - 0.5) - Times(p, p - 0.5) == Times(q - p, p + q - 0.5);
    }
  }

  lemma PullIsOdd(g: real -> real, p: real)
    requires Confidence(g) && 0.0 <= p <= 1.0
    ensures Pull(g, 1.0 - p) == -Pull(g, p)
    ensures p <= 0.5 ==> Pull(g, p) <= 0.0
    ensures p >= 0.5 ==> Pull(g, p) >= 0.0
    ensures Pull(g, 1.0) == 0.5 && Pull(g, 0.0) == -0.5
  {
    assert g(1.0 - 0.0) == g(0.0);
    if p >= 0.5 {
      ProductSign(g(p), p - 0.5);
    } else {
      ProductSign(g(p), 0.5 - p);
    }
  }

  lemma PullGrows(g: real -> real, p: real, q: real)
    requires Confidence(g) && 0.0 <= p <= q <= 1.0
    ensures Pull(g, p) <= Pull(g, q)
  {
    hide Pull;
    PullIsOdd(g, p);
    PullIsOdd(g, q);
    if q < 0.5 {
      assert Pull(g, 1.0 - q) <= Pull(g, 1.0 - p);
    }
  }

  function Weights(g: real -> real, rows: seq<real>): (w: seq<real>)
    ensures |w| == |rows| && forall i :: 0 <= i < |rows| ==> w[i] == g(rows[i])
  {
    seq(|rows|, i requires 0 <= i < |rows| => g(rows[i]))
  }

  function TotalPull(g: real -> real, rows: seq<real>): real {
    if rows == [] then 0.0 else Pull(g, rows[0]) + TotalPull(g, rows[1..])
  }

  /** A mixture is above one half exactly when the pulls add up to more than nothing. */
  lemma {:induction false} PullIsMargin(g: real -> real, rows: seq<real>)
    ensures var w := Weights(g, rows);
            Dot(w, rows) - Times(0.5, Dot(w, Ones(|w|))) == TotalPull(g, rows)
  {
    hide Dot, Ones, Times;
    var w := Weights(g, rows);
    if rows == [] {
      EmptyDot(w, rows);
      Commutes(0.5, 0.0);
    } else {
      assert w[1..] == Weights(g, rows[1..]);
      PullIsMargin(g, rows[1..]);
      OneMoreTerm(w, rows, 0.5);
      Distributes(w[0], rows[0], 0.5);
    }
  }

  /** The pulls of a centre's row and of others that pull at least, or at most, so much. */
  lemma {:induction false} PullAtLeast(g: real -> real, rows: seq<real>, c: nat, others: real)
    requires forall i :: 0 <= i < |rows| && i != c ==> Pull(g, rows[i]) >= others
    ensures c < |rows| ==> TotalPull(g, rows) >= Pull(g, rows[c]) + Times((|rows| - 1) as real, others)
    ensures c >= |rows| ==> TotalPull(g, rows) >= Times(|rows| as real, others)
  {
    hide Pull, Times;
    if rows == [] {
      Commutes(others, 0.0);
    } else {
      PullAtLeast(g, rows[1..], if c == 0 then |rows| else c - 1, others);
      OneMore(|rows| - 1, others);
      if 0 < c < |rows| {
        OneMore(|rows| - 2, others);
      }
    }
  }

  lemma {:induction false} PullAtMost(g: real -> real, rows: seq<real>, c: nat, others: real)
    requires forall i :: 0 <= i < |rows| && i != c ==> Pull(g, rows[i]) <= others
    ensures c < |rows| ==> TotalPull(g, rows) <= Pull(g, rows[c]) + Times((|rows| - 1) as real, others)
    ensures c >= |rows| ==> TotalPull(g, rows) <= Times(|rows| as real, others)
  {
    hide Pull, Times;
    if rows == [] {
      Commutes(others, 0.0);
    } else {
      PullAtMost(g, rows[1..], if c == 0 then |rows| else c - 1, others);
      OneMore(|rows| - 1, others);
      if 0 < c < |rows| {
        OneMore(|rows| - 2, others);
      }
    }
  }

  lemma OneMore(k: nat, a: real)
    ensures Times((k + 1) as real, a) == Times(k as real, a) + a
  {
    assert (k + 1) as real == k as real + 1.0;
  }

  ghost predicate Outputs(n: nat, x: seq<real>) {
    |x| == n && forall i :: 0 <= i < n ==> 0.0 <= x[i] <= 1.0
  }

  /** The act of a read through the star: the rows are weighted by their own confidence. */
  ghost predicate ReadActs(n: nat, c: nat, lambda: real, g: real -> real, x: seq<real>)
    requires c < n && Outputs(n, x) && 0.0 <= lambda <= 1.0 && Confidence(g)
  {
    var rows := Route(Star(n, Some(c), lambda), x);
    RowsAreOutputs(n, c, lambda, x);
    WeightsArePositive(Weights(g, rows));
    Mixture(Weights(g, rows), rows) > 0.5
  }

  lemma RowsAreOutputs(n: nat, c: nat, lambda: real, x: seq<real>)
    requires c < n && Outputs(n, x) && 0.0 <= lambda <= 1.0
    ensures Outputs(n, Route(Star(n, Some(c), lambda), x))
  {
    hide Dot, Star, Times;
    forall i | 0 <= i < n ensures 0.0 <= Route(Star(n, Some(c), lambda), x)[i] <= 1.0 {
      RowReads(n, Some(c), lambda, i, x);
      Fraction(lambda, x[c]);
      Fraction(1.0 - lambda, x[i]);
    }
  }

  lemma ActsIfPulled(n: nat, c: nat, lambda: real, g: real -> real, x: seq<real>)
    requires c < n && Outputs(n, x) && 0.0 <= lambda <= 1.0 && Confidence(g)
    ensures ReadActs(n, c, lambda, g, x) <==> TotalPull(g, Route(Star(n, Some(c), lambda), x)) > 0.0
  {
    hide Dot, Star, Times, TotalPull;
    var rows := Route(Star(n, Some(c), lambda), x);
    var w := Weights(g, rows);
    RowsAreOutputs(n, c, lambda, x);
    WeightsArePositive(w);
    MeanExceeds(w, rows, 0.5);
    PullIsMargin(g, rows);
  }

  /** Every read of `n` members with a decided centre acts as the centre votes. */
  ghost predicate CentreDecides(n: nat, c: nat, lambda: real, g: real -> real)
    requires c < n && 0.0 <= lambda <= 1.0 && Confidence(g)
  {
    forall x :: Outputs(n, x) && (x[c] == 0.0 || x[c] == 1.0) ==>
      (ReadActs(n, c, lambda, g, x) <==> x[c] == 1.0)
  }

  /** With a decided centre the others' rows pull at most `Pull(1 - lambda)` against it. */
  lemma RowsPull(n: nat, c: nat, lambda: real, g: real -> real, x: seq<real>)
    requires c < n && Outputs(n, x) && 0.0 <= lambda <= 1.0 && Confidence(g)
    requires x[c] == 0.0 || x[c] == 1.0
    ensures var pull := TotalPull(g, Route(Star(n, Some(c), lambda), x));
            if x[c] == 1.0 then pull >= 0.5 + Times((n - 1) as real, Pull(g, lambda))
            else pull <= -0.5 - Times((n - 1) as real, Pull(g, lambda))
  {
    hide Dot, Star, Times, Pull, TotalPull;
    var rows := Route(Star(n, Some(c), lambda), x);
    RowsAreOutputs(n, c, lambda, x);
    PullIsOdd(g, lambda);
    forall i | 0 <= i < n
      ensures i == c ==> rows[i] == x[c]
      ensures i != c && x[c] == 1.0 ==> Pull(g, rows[i]) >= Pull(g, lambda)
      ensures i != c && x[c] == 0.0 ==> Pull(g, rows[i]) <= -Pull(g, lambda)
    {
      RowReads(n, Some(c), lambda, i, x);
      if i != c {
        Fraction(1.0 - lambda, x[i]);
        Commutes(lambda, x[c]);
        if x[c] == 1.0 {
          PullGrows(g, lambda, rows[i]);
        } else {
          PullGrows(g, rows[i], 1.0 - lambda);
        }
      }
    }
    if x[c] == 1.0 {
      PullAtLeast(g, rows, c, Pull(g, lambda));
    } else {
      PullAtMost(g, rows, c, -Pull(g, lambda));
      Negates((n - 1) as real, Pull(g, lambda));
    }
  }

  lemma Negates(a: real, b: real)
    ensures Times(a, -b) == -Times(a, b)
  {
  }

  /** The worst case: the centre acts and every other output is a certain decline. */
  lemma LoneCentrePulls(n: nat, c: nat, lambda: real, g: real -> real, x: seq<real>)
    requires c < n && Outputs(n, x) && 0.0 <= lambda <= 1.0 && Confidence(g)
    requires forall i :: 0 <= i < n ==> x[i] == if i == c then 1.0 else 0.0
    ensures TotalPull(g, Route(Star(n, Some(c), lambda), x)) == 0.5 + Times((n - 1) as real, Pull(g, lambda))
  {
    hide Dot, Star, Times, Pull, TotalPull;
    var rows := Route(Star(n, Some(c), lambda), x);
    PullIsOdd(g, lambda);
    forall i | 0 <= i < n ensures rows[i] == if i == c then 1.0 else lambda {
      RowReads(n, Some(c), lambda, i, x);
      Commutes(lambda, 1.0);
      Commutes(1.0 - lambda, 0.0);
    }
    PullAtLeast(g, rows, c, Pull(g, lambda));
    PullAtMost(g, rows, c, Pull(g, lambda));
  }

  /** The weight the others can put against the centre, in units of its own. */
  function Opposition(n: nat, lambda: real, g: real -> real): real
    requires n > 0
  {
    Times((n - 1) as real, Times(g(lambda), 1.0 - 2.0 * lambda))
  }

  lemma OppositionIs(n: nat, lambda: real, g: real -> real)
    requires n > 0
    ensures 0.5 + Times((n - 1) as real, Pull(g, lambda)) == 0.5 - 0.5 * Opposition(n, lambda, g)
  {
    var k, a := (n - 1) as real, g(lambda);
    assert Times(a, lambda - 0.5) == -0.5 * Times(a, 1.0 - 2.0 * lambda);
    HalfOf(k, Times(a, 1.0 - 2.0 * lambda));
  }

  lemma HalfOf(a: real, b: real)
    ensures Times(a, -0.5 * b) == -0.5 * Times(a, b)
  {
  }

  /** The routing threshold, for every roster and every confidence weight: the centre's decided
      vote carries whatever the others' outputs are exactly when the others, each a certain
      opponent blended with the centre, weigh less than the centre does. */
  lemma ThresholdIsOpposition(n: nat, c: nat, lambda: real, g: real -> real)
    requires c < n && 0.0 <= lambda <= 1.0 && Confidence(g)
    ensures CentreDecides(n, c, lambda, g) <==> Opposition(n, lambda, g) < 1.0
  {
    hide Dot, Star, Times, Pull, TotalPull, Opposition, ReadActs, Confidence;
    OppositionIs(n, lambda, g);
    forall x | Outputs(n, x) && (x[c] == 0.0 || x[c] == 1.0)
      ensures Opposition(n, lambda, g) < 1.0 ==> (ReadActs(n, c, lambda, g, x) <==> x[c] == 1.0)
    {
      RowsPull(n, c, lambda, g, x);
      ActsIfPulled(n, c, lambda, g, x);
    }
    var alone := seq(n, (i: nat) => if i == c then 1.0 else 0.0);
    assert Outputs(n, alone) && alone[c] == 1.0;
    LoneCentrePulls(n, c, lambda, g, alone);
    ActsIfPulled(n, c, lambda, g, alone);
  }

  /** The threshold needs no logarithm to be bracketed: below `1 / (n - 1)` the gap `1 - 2 lambda`
      leaves the centre in charge, from twice that on it does not; one half always does, and on
      two members every positive lambda. */
  lemma ThresholdBracket(n: nat, c: nat, lambda: real, g: real -> real)
    requires c < n && 0.0 <= lambda <= 1.0 && Confidence(g)
    ensures Times((n - 1) as real, 1.0 - 2.0 * lambda) < 1.0 ==> CentreDecides(n, c, lambda, g)
    ensures Times((n - 1) as real, 1.0 - 2.0 * lambda) >= 2.0 ==> !CentreDecides(n, c, lambda, g)
    ensures lambda >= 0.5 ==> CentreDecides(n, c, lambda, g)
    ensures n == 2 ==> (CentreDecides(n, c, lambda, g) <==> lambda > 0.0)
  {
    hide Dot, Star, Times, CentreDecides;
    ThresholdIsOpposition(n, c, lambda, g);
    OppositionBounds(n, lambda, g);
  }

  lemma OppositionBounds(n: nat, lambda: real, g: real -> real)
    requires n > 0 && 0.0 <= lambda <= 1.0 && Confidence(g)
    ensures var flat := Times((n - 1) as real, 1.0 - 2.0 * lambda);
            (lambda >= 0.5 ==> flat <= 0.0 && Opposition(n, lambda, g) <= 0.0) &&
            (lambda <= 0.5 ==> 0.5 * flat <= Opposition(n, lambda, g) <= flat) &&
            (n == 2 ==> flat == 1.0 - 2.0 * lambda && (lambda == 0.0 ==> Opposition(n, lambda, g) == 1.0))
  {
    hide Confidence, Times;
    var k, a, gap := (n - 1) as real, g(lambda), 1.0 - 2.0 * lambda;
    ConfidenceAt(g, lambda);
    Commutes(gap, 1.0);
    Commutes(a, 1.0);
    if lambda >= 0.5 {
      OpposesNothing(k, a, -gap);
    }
    if lambda <= 0.5 {
      OpposesAtMost(k, a, gap);
    }
    if n == 2 {
      Commutes(k, gap);
      Commutes(k, Times(a, gap));
    }
  }

  lemma OpposesNothing(k: real, a: real, surplus: real)
    requires k >= 0.0 && a >= 0.0 && surplus >= 0.0
    ensures Times(k, -surplus) <= 0.0 && Times(k, Times(a, -surplus)) <= 0.0
  {
    ProductSign(a, surplus);
    ProductSign(k, Times(a, surplus));
    ProductSign(k, surplus);
    Negates(a, surplus);
    hide Times;
    Negates(k, surplus);
    Negates(k, Times(a, surplus));
  }

  lemma OpposesAtMost(k: real, a: real, gap: real)
    requires k >= 0.0 && 0.5 <= a <= 1.0 && gap >= 0.0
    ensures 0.5 * Times(k, gap) <= Times(k, Times(a, gap)) <= Times(k, gap)
  {
    assert 0.5 * gap <= Times(a, gap) <= gap by {
      ProductSign(a - 0.5, gap);
      ProductSign(1.0 - a, gap);
    }
    assert Times(k, 0.5 * gap) == 0.5 * Times(k, gap);
    hide Times;
    ProductSign(k, Times(a, gap) - 0.5 * gap);
    ProductSign(k, gap - Times(a, gap));
    Distributes(k, Times(a, gap), 0.5 * gap);
    Distributes(k, gap, Times(a, gap));
  }

  lemma ConfidenceAt(g: real -> real, p: real)
    requires Confidence(g) && 0.0 <= p <= 1.0
    ensures 0.5 <= g(p) <= 1.0 && (p == 0.0 ==> g(p) == 1.0)
  {
  }

  // ----- How far the sensitive outputs reach -----

  /** A member's last read: whether its masks carried the candidate, and its distribution's
      probability of acting; a failed read left none. */
  datatype Member = Member(sensitive: bool, last: Option<real>)

  datatype Reach = Reach(sensitiveRows: nat, blindShare: real) | MissingDistribution

  /** The mass of row `i` on the blind members among the first `k`. */
  function BlindMass(members: seq<Member>, row: seq<real>, k: nat): real
    requires k <= |members| == |row|
  {
    if k == 0 then 0.0
    else BlindMass(members, row, k - 1) + if members[k - 1].sensitive then 0.0 else row[k - 1]
  }

  /** Row `i` puts positive weight on a sensitive member. */
  predicate Reaches(members: seq<Member>, row: seq<real>)
    requires |members| == |row|
  {
    exists j :: 0 <= j < |members| && members[j].sensitive && row[j] > 0.0
  }

  function Reached(members: seq<Member>, m: Matrix, k: nat): nat
    requires k <= |m| && forall i :: 0 <= i < |m| ==> |m[i]| == |members|
  {
    if k == 0 then 0 else Reached(members, m, k - 1) + if Reaches(members, m[k - 1]) then 1 else 0
  }

  function BlindMasses(members: seq<Member>, m: Matrix): (b: seq<real>)
    requires forall i :: 0 <= i < |m| ==> |m[i]| == |members|
    ensures |b| == |m|
  {
    seq(|m|, i requires 0 <= i < |m| => BlindMass(members, m[i], |members|))
  }

  function Share(w: seq<real>, blind: seq<real>): real
    requires |w| == |blind|
  {
    if Dot(w, Ones(|w|)) > 0.0 then Dot(w, blind) / Dot(w, Ones(|w|)) else 0.0
  }

  lemma {:induction false} DotLast(w: seq<real>, x: seq<real>, a: real, b: real)
    requires |w| == |x|
    ensures Dot(w + [a], x + [b]) == Dot(w, x) + Times(a, b)
  {
    if w == [] {
      assert [a][1..] == [] && [b][1..] == [];
    } else {
      assert (w + [a])[1..] == w[1..] + [a] && (x + [b])[1..] == x[1..] + [b];
      DotLast(w[1..], x[1..], a, b);
    }
  }

  /** One row: its mass on blind members and whether it reaches a sensitive one. */
  method RowReach(members: seq<Member>, row: seq<real>) returns (rowBlind: real, reaches: bool)
    requires |row| == |members|
    ensures rowBlind == BlindMass(members, row, |members|) && (reaches <==> Reaches(members, row))
  {
    rowBlind, reaches := 0.0, false;
    for j := 0 to |members|
      invariant rowBlind == BlindMass(members, row, j)
      invariant reaches <==> exists q :: 0 <= q < j && members[q].sensitive && row[q] > 0.0
    {
      if members[j].sensitive {
        reaches := reaches || row[j] > 0.0;
      } else {
        rowBlind := rowBlind + row[j];
      }
    }
  }

  lemma OneMoreRow(w: seq<real>, blind: seq<real>, i: nat)
    requires |w| == |blind| && i < |w|
    ensures Dot(w[..i + 1], blind[..i + 1]) == Dot(w[..i], blind[..i]) + Times(w[i], blind[i])
    ensures Dot(w[..i + 1], Ones(i + 1)) == Dot(w[..i], Ones(i)) + w[i]
  {
    DotLast(w[..i], blind[..i], w[i], blind[i]);
    DotLast(w[..i], Ones(i), w[i], 1.0);
    assert w[..i + 1] == w[..i] + [w[i]] && blind[..i + 1] == blind[..i] + [blind[i]];
    assert Ones(i + 1) == Ones(i) + [1.0];
  }

  /** Without a topology every row is a member's own output. */
  function Effective(n: nat, topology: Option<Matrix>): Matrix {
    if topology.Some? then topology.value else Star(n, None, 0.0)
  }

  ghost predicate Fits(n: nat, topology: Option<Matrix>) {
    topology.Some? ==> |topology.value| == n && forall i :: 0 <= i < n ==> |topology.value[i]| == n
  }

  function LastOutputs(members: seq<Member>): (x: seq<real>)
    requires forall j :: 0 <= j < |members| ==> members[j].last.Some?
    ensures |x| == |members| && forall j :: 0 <= j < |x| ==> x[j] == members[j].last.value
  {
    seq(|members|, j requires 0 <= j < |members| => members[j].last.value)
  }

  /** Whether the read has every distribution it needs. */
  predicate Readable(members: seq<Member>, topology: Option<Matrix>) {
    topology.None? || forall j :: 0 <= j < |members| ==> members[j].last.Some?
  }

  /** The confidence weight of each row read out; a member without a distribution weighs
      nothing where no topology routes it. */
  function RowWeights(members: seq<Member>, topology: Option<Matrix>, g: real -> real): (w: seq<real>)
    requires Fits(|members|, topology) && Readable(members, topology)
    ensures |w| == |members|
  {
    match topology
    case Some(m) => Weights(g, Route(m, LastOutputs(members)))
    case None =>
      seq(|members|, j requires 0 <= j < |members| =>
        if members[j].last.Some? then g(members[j].last.value) else 0.0)
  }

  /** The two measures of a read: the rows that reach a sensitive member, and the weight of
      blind origin. Only a routed read fails for a member without a distribution. */
  method OriginReach(members: seq<Member>, topology: Option<Matrix>, g: real -> real) returns (r: Reach)
    requires Fits(|members|, topology)
    ensures r.Reach? <==> Readable(members, topology)
    ensures r.Reach? ==>
              var m := Effective(|members|, topology);
              r.sensitiveRows == Reached(members, m, |m|) &&
              r.blindShare == Share(RowWeights(members, topology, g), BlindMasses(members, m))
  {
    hide Dot, Ones, BlindMass, Reaches, Times, RowWeights;
    if topology.Some? {
      for j := 0 to |members|
        invariant forall q :: 0 <= q < j ==> members[q].last.Some?
      {
        if members[j].last.None? {
          return MissingDistribution;
        }
      }
    }
    var m, w := Effective(|members|, topology), RowWeights(members, topology, g);
    var sensitiveRows: nat, blindMass: real, total: real := 0, 0.0, 0.0;
    ghost var blind := BlindMasses(members, m);
    EmptyDot([], []);
    for i := 0 to |m|
      invariant sensitiveRows == Reached(members, m, i)
      invariant blindMass == Dot(w[..i], blind[..i]) && total == Dot(w[..i], Ones(i))
    {
      var rowBlind, reaches := RowReach(members, m[i]);
      OneMoreRow(w, blind, i);
      sensitiveRows := sensitiveRows + if reaches then 1 else 0;
      blindMass := blindMass + Times(w[i], rowBlind);
      total := total + w[i];
    }
    assert w[..|w|] == w && blind[..|m|] == blind;
    r := Reach(sensitiveRows, if total > 0.0 then blindMass / total else 0.0);
  }

  function SensitiveCount(members: seq<Member>, k: nat): nat
    requires k <= |members|
  {
    if k == 0 then 0 else SensitiveCount(members, k - 1) + if members[k - 1].sensitive then 1 else 0
  }

  lemma {:induction false} OwnBlindMass(members: seq<Member>, i: nat, k: nat)
    requires i < |members| && k <= |members|
    ensures BlindMass(members, Row(|members|, None, 0.0, i), k) ==
            if i < k && !members[i].sensitive then 1.0 else 0.0
  {
    if k > 0 {
      OwnBlindMass(members, i, k - 1);
    }
  }

  /** Without a topology the measures are the members' own: the rows reached are the sensitive
      members, and a row is blind exactly when its member is. */
  lemma {:induction false} UnroutedReach(members: seq<Member>, k: nat)
    requires k <= |members|
    ensures var m := Effective(|members|, None);
            Reached(members, m, k) == SensitiveCount(members, k) &&
            forall i :: 0 <= i < k ==> BlindMasses(members, m)[i] == if members[i].sensitive then 0.0 else 1.0
  {
    hide BlindMass;
    if k > 0 {
      UnroutedReach(members, k - 1);
      OwnBlindMass(members, k - 1, |members|);
      var row := Effective(|members|, None)[k - 1];
      assert row[k - 1] == 1.0;
      assert Reaches(members, row) <==> members[k - 1].sensitive;
    }
  }

  /** Only the member at the centre carries the candidate. */
  ghost predicate OnlyCentre(members: seq<Member>, c: nat) {
    c < |members| && forall j :: 0 <= j < |members| ==> (members[j].sensitive <==> j == c)
  }

  lemma {:induction false} BlindMassOfRow(members: seq<Member>, lambda: real, c: nat, i: nat, k: nat)
    requires OnlyCentre(members, c) && i < |members| && k <= |members|
    ensures BlindMass(members, Row(|members|, Some(c), lambda, i), k) ==
            if i == c || k <= i then 0.0 else 1.0 - lambda
  {
    if k > 0 {
      BlindMassOfRow(members, lambda, c, i, k - 1);
    }
  }

  lemma {:induction false} ReachedRows(members: seq<Member>, lambda: real, c: nat, k: nat)
    requires OnlyCentre(members, c) && 0.0 <= lambda <= 1.0 && k <= |members|
    ensures Reached(members, Star(|members|, Some(c), lambda), k) ==
            if lambda > 0.0 then k else if k > c then 1 else 0
  {
    if k > 0 {
      ReachedRows(members, lambda, c, k - 1);
      var row := Star(|members|, Some(c), lambda)[k - 1];
      assert row[c] == if k - 1 == c then 1.0 else lambda;
      assert Reaches(members, row) <==> row[c] > 0.0;
    }
  }

  lemma {:induction false} DotConstant(w: seq<real>, x: seq<real>, c: nat, v: real)
    requires |w| == |x| && forall i :: 0 <= i < |w| ==> x[i] == if i == c then 0.0 else v
    ensures Dot(w, x) == Times(v, Dot(w, Ones(|w|)) - if c < |w| then w[c] else 0.0)
  {
    hide Dot, Ones, Times;
    if w == [] {
      EmptyDot(w, x);
      Commutes(v, 0.0);
    } else {
      var tail := Dot(w[1..], Ones(|w| - 1));
      OneMoreTerm(w, x, 1.0);
      DotConstant(w[1..], x[1..], if c == 0 then |w| else c - 1, v);
      Commutes(w[0], v);
      Distributes(v, w[0], tail - if c < |w| then w[c] else 0.0);
      Commutes(w[0], 0.0);
    }
  }

  /** Reach of the star when only the centre is sensitive: any positive lambda makes every row
      sensitive, and of the total weight less the centre's the fraction `1 - lambda` is blind. */
  lemma StarReach(members: seq<Member>, lambda: real, c: nat, w: seq<real>)
    requires OnlyCentre(members, c) && 0.0 <= lambda <= 1.0
    requires |w| == |members| && forall i :: 0 <= i < |w| ==> w[i] > 0.0
    ensures var m := Star(|members|, Some(c), lambda);
            Reached(members, m, |m|) == (if lambda > 0.0 then |members| else 1) &&
            Times(Share(w, BlindMasses(members, m)), Dot(w, Ones(|w|))) ==
            Times(1.0 - lambda, Dot(w, Ones(|w|)) - w[c])
  {
    hide Dot, BlindMass, BlindMasses, Reached, Share, Star;
    var n := |members|;
    var blind := BlindMasses(members, Star(n, Some(c), lambda));
    BlindRows(members, lambda, c);
    ReachedRows(members, lambda, c, n);
    WeightsArePositive(w);
    DotConstant(w, blind, c, 1.0 - lambda);
    ShareTimes(w, blind);
  }

  lemma BlindRows(members: seq<Member>, lambda: real, c: nat)
    requires OnlyCentre(members, c)
    ensures var blind := BlindMasses(members, Star(|members|, Some(c), lambda));
            forall i :: 0 <= i < |members| ==> blind[i] == if i == c then 0.0 else 1.0 - lambda
  {
    hide BlindMass;
    forall i | 0 <= i < |members|
      ensures BlindMasses(members, Star(|members|, Some(c), lambda))[i] == if i == c then 0.0 else 1.0 - lambda
    {
      BlindMassOfRow(members, lambda, c, i, |members|);
    }
  }

  lemma ShareTimes(w: seq<real>, blind: seq<real>)
    requires |w| == |blind| && Dot(w, Ones(|w|)) > 0.0
    ensures Times(Share(w, blind), Dot(w, Ones(|w|))) == Dot(w, blind)
  {
    hide Dot;
  }

  lemma ZeroProduct(a: real, b: real)
    requires Times(a, b) == 0.0 && b > 0.0
    ensures a == 0.0
  {
    ProductSign(a, b);
    ProductSign(-a, b);
  }

  /** At lambda one every row is sensitive and nothing blind is left. */
  lemma FullRoutingLeavesNothingBlind(members: seq<Member>, c: nat, w: seq<real>)
    requires OnlyCentre(members, c)
    requires |w| == |members| && forall i :: 0 <= i < |w| ==> w[i] > 0.0
    ensures var m := Star(|members|, Some(c), 1.0);
            Reached(members, m, |m|) == |members| && Share(w, BlindMasses(members, m)) == 0.0
  {
    hide Dot, BlindMass, Reached, Share, Star;
    StarReach(members, 1.0, c, w);
    WeightsArePositive(w);
    Commutes(Dot(w, Ones(|w|)) - w[c], 0.0);
    ZeroProduct(Share(w, BlindMasses(members, Star(|members|, Some(c), 1.0))), Dot(w, Ones(|w|)));
  }

  // ----- The blind share without a topology -----

  /** The confidence weight of those of the first `k` members that have a distribution, and of the
      blind ones among them. */
  function WeightOf(members: seq<Member>, g: real -> real, k: nat): real
    requires k <= |members|
  {
    if k == 0 then 0.0
    else WeightOf(members, g, k - 1) + if members[k - 1].last.Some? then g(members[k - 1].last.value) else 0.0
  }

  function BlindWeightOf(members: seq<Member>, g: real -> real, k: nat): real
    requires k <= |members|
  {
    if k == 0 then 0.0
    else
      BlindWeightOf(members, g, k - 1) +
      if members[k - 1].last.Some? && !members[k - 1].sensitive then g(members[k - 1].last.value) else 0.0
  }

  lemma {:induction false} UnroutedSums(members: seq<Member>, g: real -> real, k: nat)
    requires k <= |members|
    ensures var w, blind := RowWeights(members, None, g), BlindMasses(members, Effective(|members|, None));
            Dot(w[..k], Ones(k)) == WeightOf(members, g, k) && Dot(w[..k], blind[..k]) == BlindWeightOf(members, g, k)
  {
    hide Dot, Ones, Times, BlindMass;
    var w, blind := RowWeights(members, None, g), BlindMasses(members, Effective(|members|, None));
    if k == 0 {
      EmptyDot(w[..0], blind[..0]);
      assert Ones(0) == [] && w[..0] == [];
    } else {
      UnroutedSums(members, g, k - 1);
      OneMoreRow(w, blind, k - 1);
      UnroutedReach(members, |members|);
      Commutes(w[k - 1], 1.0);
      Commutes(w[k - 1], 0.0);
      Commutes(0.0, blind[k - 1]);
    }
  }

  /** Without a topology the blind share is the blind members' part of the weight of all members that
      have a distribution, and zero when these weigh nothing. */
  lemma UnroutedShare(members: seq<Member>, g: real -> real)
    ensures var share := Share(RowWeights(members, None, g), BlindMasses(members, Effective(|members|, None)));
            var total := WeightOf(members, g, |members|);
            if total > 0.0 then Times(share, total) == BlindWeightOf(members, g, |members|) else share == 0.0
  {
    hide Dot, BlindMass, RowWeights;
    var w, blind := RowWeights(members, None, g), BlindMasses(members, Effective(|members|, None));
    UnroutedSums(members, g, |members|);
    assert w[..|members|] == w && blind[..|members|] == blind;
    if Dot(w, Ones(|w|)) > 0.0 {
      ShareTimes(w, blind);
    }
  }
}
