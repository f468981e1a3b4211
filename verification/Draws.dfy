/** Deterministic draws: the SplitMix64 stream, the Fisher-Yates permutation and the
    rejection sampler for distinct bits. */
module Draws {
  import opened Agents
  import opened Sums
  import opened Words

  // ----- The generator's arithmetic -----

  const GAMMA: U64 := 0x9E37_79B9_7F4A_7C15
  const MUL1: U64 := 0xBF58_476D_1CE4_E5B9
  const MUL2: U64 := 0x94D0_49BB_1331_11EB
  /** The inverses of the three odd constants modulo 2^64. */
  const GAMMA_INVERSE: U64 := 0xF1DE_83E1_9937_733D
  const MUL1_INVERSE: U64 := 0x96DE_1B17_3F11_9089
  const MUL2_INVERSE: U64 := 0x3196_42B2_D24D_8EC3

  /** One step of the state: the golden-ratio increment. */
  function Advance(s: U64): U64 {
    WrappingAdd(s, GAMMA)
  }

  /** The output mixer: two multiply-xorshift rounds and a final xorshift. */
  function Mix(z: U64): U64 {
    var a := WrappingMul(XorShift(z, 30), MUL1);
    var b := WrappingMul(XorShift(a, 27), MUL2);
    XorShift(b, 31)
  }

  /** The mixer run backwards. */
  function Unmix(y: U64): U64 {
    var b := WrappingMul(UnXorShift(y, 31), MUL2_INVERSE);
    var a := WrappingMul(UnXorShift(b, 27), MUL1_INVERSE);
    UnXorShift(a, 30)
  }

  /** The mixer is a bijection on 64-bit words, with `Unmix` its two-sided inverse. */
  lemma MixIsBijective(z: U64)
    ensures Unmix(Mix(z)) == z
    ensures Mix(Unmix(z)) == z
  {
    var x := XorShift(z, 30);
    var a := WrappingMul(x, MUL1);
    var y := XorShift(a, 27);
    var b := WrappingMul(y, MUL2);
    XorShiftInverse(b, 31);
    MultiplierInverse(y, MUL2, MUL2_INVERSE, 0x1CD3_36ED_A85F_1453);
    XorShiftInverse(a, 27);
    MultiplierInverse(x, MUL1, MUL1_INVERSE, 0x70C3_BCA7_8F27_F46C);
    XorShiftInverse(z, 30);
    var b' := UnXorShift(z, 31);
    var y' := WrappingMul(b', MUL2_INVERSE);
    var a' := UnXorShift(y', 27);
    var x' := WrappingMul(a', MUL1_INVERSE);
    XorShiftInverse(x', 30);
    MultiplierInverse(a', MUL1_INVERSE, MUL1, 0x70C3_BCA7_8F27_F46C);
    XorShiftInverse(y', 27);
    MultiplierInverse(b', MUL2_INVERSE, MUL2, 0x1CD3_36ED_A85F_1453);
    XorShiftInverse(z, 31);
  }

  /** How many further steps after the next one the state needs to reach `target`. */
  function Distance(s: U64, target: U64): U64 {
    ((target - s - GAMMA) * GAMMA_INVERSE) % 0x1_0000_0000_0000_0000
  }

  /** Every step brings the state one closer to every target it does not hit. */
  lemma StepApproaches(s: U64, target: U64)
    ensures Distance(s, target) == 0 <==> Advance(s) == target
    ensures Distance(s, target) > 0 ==> Distance(Advance(s), target) == Distance(s, target) - 1
  {
    var x := target - s - GAMMA;
    var d := Distance(s, target);
    var q := (x * GAMMA_INVERSE) / WORD;
    assert x * GAMMA_INVERSE == q * WORD + d;
    var c := (s + GAMMA) / WORD;
    var x' := target - Advance(s) - GAMMA;
    assert x' == x - GAMMA + c * WORD;
    assert GAMMA * GAMMA_INVERSE == 0x957B_BF35_006E_D677 * WORD + 1;
    if d > 0 {
      RemainderIs(x' * GAMMA_INVERSE, q - 0x957B_BF35_006E_D677 + c * GAMMA_INVERSE, d - 1);
    }
    if d == 0 {
      calc {
        x;
        x * GAMMA_INVERSE * GAMMA - x * 0x957B_BF35_006E_D677 * WORD;
        (q * GAMMA - x * 0x957B_BF35_006E_D677) * WORD;
      }
      RemainderIs(s + GAMMA, -(q * GAMMA - x * 0x957B_BF35_006E_D677), target);
    }
    if Advance(s) == target {
      assert x == -c * WORD;
      RemainderIs(x * GAMMA_INVERSE, -c * GAMMA_INVERSE, 0);
    }
  }

  /** The state after `n` steps. */
  function StateAfter(s: U64, n: nat): U64 {
    if n == 0 then s else Advance(StateAfter(s, n - 1))
  }

  /** Output number `j` of a stream in state `s`, from zero. */
  function Output(s: U64, j: nat): U64 {
    Mix(StateAfter(s, j + 1))
  }

  lemma {:induction false} StepsAdd(s: U64, m: nat, n: nat)
    ensures StateAfter(StateAfter(s, m), n) == StateAfter(s, m + n)
  {
    hide Advance;
    if n > 0 {
      StepsAdd(s, m, n - 1);
    }
  }

  lemma OutputsShift(s: U64, m: nat, j: nat)
    ensures Output(StateAfter(s, m), j) == Output(s, m + j)
  {
    hide Mix, StateAfter, Output;
    StepsAdd(s, m, j + 1);
    OutputIs(StateAfter(s, m), j);
    OutputIs(s, m + j);
    assert m + (j + 1) == (m + j) + 1;
  }

  lemma OutputIs(s: U64, j: nat)
    ensures Output(s, j) == Mix(StateAfter(s, j + 1))
  {
    hide Mix, StateAfter;
  }

  lemma {:induction false} FirstStep(s: U64, n: nat)
    ensures StateAfter(s, n + 1) == StateAfter(Advance(s), n)
  {
    if n > 0 {
      FirstStep(s, n - 1);
    }
  }

  /** Full period: from every state, every word is reached, in at most 2^64 steps. */
  lemma {:induction false} EveryStateIsReached(s: U64, target: U64, d: nat)
    requires d == Distance(s, target)
    ensures StateAfter(s, d + 1) == target
    decreases d
  {
    hide Distance, Advance;
    StepApproaches(s, target);
    FirstStep(s, d);
    if d > 0 {
      EveryStateIsReached(Advance(s), target, d - 1);
    }
  }

  /** From every state, every word is the output of one of the next 2^64 draws. */
  lemma EveryOutputOccurs(s: U64, word: U64)
    ensures exists n: nat | 1 <= n <= WORD :: Mix(StateAfter(s, n)) == word
  {
    hide Mix, Unmix, Advance;
    EveryStateIsReached(s, Unmix(word), Distance(s, Unmix(word)));
    MixIsBijective(word);
  }

  // ----- The stream -----

  /** A word's top 53 bits over 2^53. */
  function Unit(x: U64): (u: real)
    ensures 0.0 <= u < 1.0
  {
    (x / 2048) as real / 9007199254740992.0
  }

  /** It is the word over 2^64, rounded down to a multiple of 2^-53. */
  lemma UnitRoundsDown(x: U64)
    ensures (Unit(x) * 9007199254740992.0).Floor as real == Unit(x) * 9007199254740992.0
    ensures var word := x as real / 18446744073709551616.0;
            Unit(x) <= word < Unit(x) + 1.0 / 9007199254740992.0
  {
    var top, low := x / 2048, x % 2048;
    assert x as real == top as real * 2048.0 + low as real;
    ScaledBack(top as real, 9007199254740992.0);
  }

  lemma ScaledBack(a: real, b: real)
    requires b > 0.0
    ensures a / b * b == a
  {
  }

  class SplitMix64 {
    var state: U64

    constructor (seed: U64)
      ensures state == seed
    {
      state := seed;
    }

    method NextU64() returns (x: U64)
      modifies this
      ensures state == Advance(old(state))
      ensures x == Mix(state)
    {
      state := WrappingAdd(state, 0x9E37_79B9_7F4A_7C15);
      var z := state;
      z := WrappingMul(XorShift(z, 30), 0xBF58_476D_1CE4_E5B9);
      z := WrappingMul(XorShift(z, 27), 0x94D0_49BB_1331_11EB);
      x := XorShift(z, 31);
    }

    /** The next output modulo `bound`; a zero bound panics in the source. */
    method Below(bound: nat) returns (r: nat)
      requires bound > 0
      modifies this
      ensures state == Advance(old(state))
      ensures r == Mix(state) % bound
      ensures r < bound
    {
      var x := NextU64();
      r := x % bound;
    }

    /** The top 53 bits of the next output as a fraction of 2^53. */
    method NextUnit() returns (u: real)
      modifies this
      ensures state == Advance(old(state))
      ensures u == Unit(Mix(state))
      ensures 0.0 <= u < 1.0
    {
      var x := NextU64();
      u := Unit(x);
    }
  }

  // ----- Fisher-Yates -----

  function Swap<T>(s: seq<T>, i: nat, j: nat): (r: seq<T>)
    requires i < |s| && j < |s|
    ensures |r| == |s|
    ensures multiset(r) == multiset(s)
  {
    var r := s[i := s[j]][j := s[i]];
    assert multiset(r) == multiset(s);
    r
  }

  function Identity(n: nat): seq<nat> {
    seq(n, i => i)
  }

  /** Pick `k` of a shuffle of positions `|picks|` down to 1 lies at or below its position. */
  ghost predicate ValidPicks(picks: seq<nat>) {
    forall k :: 0 <= k < |picks| ==> picks[k] <= |picks| - k
  }

  /** The swaps of a shuffle: position `|picks|` first, position 1 last. */
  ghost function Shuffle<T>(s: seq<T>, picks: seq<nat>): (r: seq<T>)
    requires |picks| < |s| && ValidPicks(picks)
    ensures |r| == |s| && multiset(r) == multiset(s)
    ensures forall k :: |picks| < k < |s| ==> r[k] == s[k]
    decreases |picks|
  {
    if picks == [] then s
    else Shuffle(Swap(s, |picks|, picks[0]), picks[1..])
  }

  lemma DistinctAt<T(!new)>(s: seq<T>, i: nat, j: nat)
    requires Distinct(s) && i < |s| && j < |s| && s[i] == s[j]
    ensures i == j
  {
  }

  /** The first pick decides which element ends at the highest shuffled position. */
  lemma FirstPickIsLast<T>(s: seq<T>, picks: seq<nat>)
    requires picks != [] && |picks| < |s| && ValidPicks(picks)
    ensures Shuffle(s, picks)[|picks|] == s[picks[0]]
  {
    assert Shuffle(s, picks)[|picks|] == Swap(s, |picks|, picks[0])[|picks|];
  }

  /** Two pick sequences that shuffle a duplicate-free sequence alike are the same. */
  lemma {:induction false} PicksAreDetermined<T(!new)>(s: seq<T>, p: seq<nat>, q: seq<nat>)
    requires Distinct(s) && |p| == |q| < |s| && ValidPicks(p) && ValidPicks(q)
    requires Shuffle(s, p) == Shuffle(s, q)
    ensures p == q
    decreases |p|
  {
    hide Swap, Distinct;
    if p != [] {
      var i := |p|;
      FirstPickIsLast(s, p);
      FirstPickIsLast(s, q);
      DistinctAt(s, p[0], q[0]);
      DistinctSwap(s, i, p[0]);
      PicksAreDetermined(Swap(s, i, p[0]), p[1..], q[1..]);
      assert p == [p[0]] + p[1..] && q == [q[0]] + q[1..];
    }
  }

  lemma DistinctSwap<T(!new)>(s: seq<T>, i: nat, j: nat)
    requires Distinct(s) && i < |s| && j < |s|
    ensures Distinct(Swap(s, i, j))
  {
  }

  lemma MultisetOfPrefix<T>(s: seq<T>, m: nat)
    requires m < |s|
    ensures multiset(s[..m + 1]) == multiset(s[..m]) + multiset{s[m]}
  {
    assert s[..m + 1] == s[..m] + [s[m]];
  }

  lemma SwapKeepsPrefixMultiset<T>(s: seq<T>, m: nat, j: nat)
    requires j <= m < |s|
    ensures multiset(Swap(s, m, j)[..m + 1]) == multiset(s[..m + 1])
    ensures Swap(s, m, j)[m + 1..] == s[m + 1..]
  {
    assert Swap(s, m, j)[..m + 1] == Swap(s[..m + 1], m, j);
  }

  lemma FindInPrefix<T(!new)>(s: seq<T>, t: seq<T>, m: nat) returns (j: nat)
    requires m < |s| == |t| && multiset(s[..m + 1]) == multiset(t[..m + 1])
    ensures j <= m && s[j] == t[m]
  {
    MultisetOfPrefix(t, m);
    assert t[m] in multiset(s[..m + 1]);
    assert t[m] in s[..m + 1];
    j :| 0 <= j < m + 1 && s[..m + 1][j] == t[m];
  }

  /** The picks whose shuffle turns `s` into `t`, for `t` a rearrangement of the first
      `m + 1` elements of `s`. */
  lemma {:induction false} PicksExist<T(!new)>(s: seq<T>, t: seq<T>, m: nat) returns (picks: seq<nat>)
    requires m < |s| == |t|
    requires multiset(s[..m + 1]) == multiset(t[..m + 1]) && s[m + 1..] == t[m + 1..]
    ensures |picks| == m && ValidPicks(picks)
    ensures Shuffle(s, picks) == t
    decreases m
  {
    hide Swap;
    var j := FindInPrefix(s, t, m);
    if m == 0 {
      assert s == [s[0]] + s[1..] && t == [t[0]] + t[1..];
      picks := [];
    } else {
      var s' := Swap(s, m, j);
      SwapMatchesLast(s, t, m, j);
      var rest := PicksExist(s', t, m - 1);
      picks := [j] + rest;
      assert picks[1..] == rest;
    }
  }

  /** Swapping the element wanted last into place leaves a rearrangement one shorter. */
  lemma SwapMatchesLast<T(!new)>(s: seq<T>, t: seq<T>, m: nat, j: nat)
    requires j <= m < |s| == |t| && s[j] == t[m]
    requires multiset(s[..m + 1]) == multiset(t[..m + 1]) && s[m + 1..] == t[m + 1..]
    ensures var s' := Swap(s, m, j);
            multiset(s'[..m]) == multiset(t[..m]) && s'[m..] == t[m..]
  {
    var s' := Swap(s, m, j);
    SwapKeepsPrefixMultiset(s, m, j);
    MultisetOfPrefix(s', m);
    MultisetOfPrefix(t, m);
    MultisetCancel(multiset(s'[..m]), multiset(t[..m]), t[m]);
    assert s'[m..] == [t[m]] + s'[m + 1..] && t[m..] == [t[m]] + t[m + 1..];
  }

  /** `picks` shuffles all of `s` into `t`. */
  ghost predicate PicksFor<T(!new)>(s: seq<T>, t: seq<T>, picks: seq<nat>)
    requires s != []
  {
    |picks| == |s| - 1 && ValidPicks(picks) && Shuffle(s, picks) == t
  }

  /** Fisher-Yates is a bijection between valid pick sequences and rearrangements: every
      permutation of a duplicate-free sequence comes from exactly one pick sequence. */
  lemma EachPermutationHasOnePickSequence<T(!new)>(s: seq<T>, t: seq<T>)
    requires s != [] && Distinct(s) && multiset(t) == multiset(s)
    ensures exists picks :: PicksFor(s, t, picks)
    ensures forall p, q | PicksFor(s, t, p) && PicksFor(s, t, q) :: p == q
  {
    SameCardinality(s, t);
    assert s[..|s| - 1 + 1] == s && t[..|s| - 1 + 1] == t;
    var picks := PicksExist(s, t, |s| - 1);
    assert PicksFor(s, t, picks);
    forall p, q | PicksFor(s, t, p) && PicksFor(s, t, q) ensures p == q
    {
      PicksAreDetermined(s, p, q);
    }
  }

  lemma SameCardinality<T>(s: seq<T>, t: seq<T>)
    requires multiset(s) == multiset(t)
    ensures |s| == |t|
  {
    assert |s| == |multiset(s)| && |t| == |multiset(t)|;
  }

  /** The picks a stream in state `s` supplies to a shuffle of positions `m` down to 1. */
  ghost function DrawnPicks(s: U64, m: nat): (picks: seq<nat>)
    ensures |picks| == m && ValidPicks(picks)
    decreases m
  {
    if m == 0 then []
    else
      var rest := DrawnPicks(Advance(s), m - 1);
      var picks := [Mix(Advance(s)) % (m + 1)] + rest;
      assert forall k :: 1 <= k < m ==> picks[k] == rest[k - 1];
      picks
  }

  /** The picks are the stream's next outputs, each reduced to the positions still open. */
  lemma {:induction false} PicksAreOutputs(s: U64, m: nat, k: nat)
    requires k < m
    ensures DrawnPicks(s, m)[k] == Output(s, k) % (m - k + 1)
    decreases m
  {
    hide Mix, Advance;
    FirstStep(s, k);
    if k > 0 {
      PicksAreOutputs(Advance(s), m - 1, k - 1);
      assert DrawnPicks(s, m)[k] == DrawnPicks(Advance(s), m - 1)[k - 1];
    }
  }

  lemma PermutationOfIdentity(n: nat, p: seq<nat>)
    requires multiset(p) == multiset(Identity(n))
    ensures |p| == n && Distinct(p)
    ensures forall i :: 0 <= i < n ==> p[i] < n
    ensures forall v: nat :: v < n ==> v in p
  {
    SameCardinality(p, Identity(n));
    forall i | 0 <= i < n ensures p[i] < n {
      assert p[i] in multiset(p);
      assert p[i] in Identity(n);
    }
    forall v: nat | v < n ensures v in p {
      assert Identity(n)[v] in multiset(p);
    }
    forall i, j | 0 <= i < j < n ensures p[i] != p[j] {
      if p[i] == p[j] {
        assert p == p[..j] + [p[j]] + p[j + 1..];
        assert p[i] in p[..j];
        assert multiset(p) == multiset(p[..j]) + multiset{p[j]} + multiset(p[j + 1..]);
        assert multiset(p)[p[i]] >= 2;
        IdentityMultiplicity(n, p[i]);
      }
    }
  }

  lemma {:induction false} IdentityMultiplicity(n: nat, v: nat)
    ensures multiset(Identity(n))[v] <= 1
    ensures v >= n ==> multiset(Identity(n))[v] == 0
  {
    if n > 0 {
      assert Identity(n) == Identity(n - 1) + [n - 1];
      IdentityMultiplicity(n - 1, v);
    }
  }

  /** One iteration of the shuffle: draw the pick of position `i`, swap, go on below. */
  lemma ShuffleStep(out: seq<nat>, s: U64, i: nat)
    requires 1 <= i < |out|
    ensures var j := Mix(Advance(s)) % (i + 1);
            j <= i &&
            Shuffle(out, DrawnPicks(s, i)) == Shuffle(Swap(out, i, j), DrawnPicks(Advance(s), i - 1))
  {
    hide Mix, Advance;
    var picks := DrawnPicks(s, i);
    assert picks[1..] == DrawnPicks(Advance(s), i - 1);
  }

  /** A permutation of `0..n`: the shuffle of the identity by the picks the stream holds. */
  method Permutation(rng: SplitMix64, n: nat) returns (out: seq<nat>)
    modifies rng
    ensures n >= 1 ==> out == Shuffle(Identity(n), DrawnPicks(old(rng.state), n - 1))
    ensures rng.state == StateAfter(old(rng.state), if n == 0 then 0 else n - 1)
    ensures multiset(out) == multiset(Identity(n))
    ensures |out| == n && Distinct(out)
    ensures forall i :: 0 <= i < n ==> out[i] < n
  {
    hide Mix, Advance, Shuffle, DrawnPicks, Swap;
    out := Identity(n);
    var i := n - 1;
    while i >= 1
      invariant i == n - 1 || 0 <= i < n
      invariant |out| == n && multiset(out) == multiset(Identity(n))
      invariant n >= 1 ==> Shuffle(out, DrawnPicks(rng.state, i)) ==
                           Shuffle(Identity(n), DrawnPicks(old(rng.state), n - 1))
      invariant rng.state == StateAfter(old(rng.state), if n == 0 then 0 else n - 1 - i)
    {
      ShuffleStep(out, rng.state, i);
      var j := rng.Below(i + 1);
      out := Swap(out, i, j);
      i := i - 1;
    }
    NoPicks(out, rng.state);
    PermutationOfIdentity(n, out);
  }

  lemma NoPicks(out: seq<nat>, s: U64)
    ensures out != [] ==> Shuffle(out, DrawnPicks(s, 0)) == out
  {
  }

  // ----- Distinct bits -----

  function Range(n: nat): (r: set<nat>)
    ensures forall p :: p in r <==> 0 <= p < n
    ensures |r| == n
  {
    if n == 0 then {} else Range(n - 1) + {n - 1}
  }

  /** Some bit below `universe` is not held while fewer than `universe` bits are. */
  lemma MissingBit(held: set<nat>, universe: nat)
    requires |held| < universe
    ensures exists p :: 0 <= p < universe && p !in held
  {
    if forall p :: 0 <= p < universe ==> p in held {
      assert Range(universe) <= held;
      SubsetCardinality(Range(universe), held);
    }
  }

  lemma {:induction false} SubsetCardinality<T>(a: set<T>, b: set<T>)
    requires a <= b
    ensures |a| <= |b|
  {
    if a != {} {
      var x :| x in a;
      SubsetCardinality(a - {x}, b - {x});
    }
  }

  /** The distinct bits among the first `n` draws below `universe` from state `s`. */
  ghost function DrawnBits(s: U64, n: nat, universe: nat): set<nat>
    requires universe > 0
  {
    if n == 0 then {}
    else DrawnBits(s, n - 1, universe) + {Mix(StateAfter(s, n)) % universe}
  }

  lemma NoDraws(s: U64, universe: nat)
    ensures StateAfter(s, 0) == s
    ensures universe > 0 ==> DrawnBits(s, 0, universe) == {}
  {
  }

  lemma NextDraw(s: U64, n: nat, universe: nat)
    requires universe > 0
    ensures var t := Advance(StateAfter(s, n));
            StateAfter(s, n + 1) == t &&
            DrawnBits(s, n + 1, universe) == DrawnBits(s, n, universe) + {Mix(t) % universe}
  {
    hide Mix, Advance;
  }

  lemma AddBit(held: set<nat>, p: nat)
    ensures p in held ==> held + {p} == held
    ensures p !in held ==> |held + {p}| == |held| + 1
  {
    if p in held {
      assert held + {p} == held;
    }
  }

  /** Exactly `k` distinct bits below `universe`, by rejection: the distinct bits of as
      few draws as hold `k` of them. The loop ends for every state of the stream: `needed`
      is always a bit not yet held, and either it is drawn next or the state is one step
      nearer to drawing it. */
  method DistinctBits(rng: SplitMix64, k: nat, universe: nat)
    returns (held: Mask, ghost draws: nat)
    requires k <= universe <= 32
    modifies rng
    ensures |held| == k
    ensures forall b :: b in held ==> b < universe
    ensures rng.state == StateAfter(old(rng.state), draws)
    ensures universe > 0 ==> held == DrawnBits(old(rng.state), draws, universe)
    ensures draws > 0 ==> universe > 0 && |DrawnBits(old(rng.state), draws - 1, universe)| < k
    ensures k == 0 ==> draws == 0
  {
    hide Mix, Unmix, Advance, Distance, StateAfter, DrawnBits;
    NoDraws(rng.state, universe);
    held := {};
    draws := 0;
    ghost var needed: U64 := 0;
    while |held| < k
      invariant |held| <= k
      invariant forall b :: b in held ==> b < universe
      invariant |held| < k ==> needed < universe && needed !in held
      invariant rng.state == StateAfter(old(rng.state), draws)
      invariant universe > 0 ==> held == DrawnBits(old(rng.state), draws, universe)
      invariant draws > 0 ==> universe > 0 && |DrawnBits(old(rng.state), draws - 1, universe)| < k
      invariant k == 0 ==> draws == 0
      decreases k - |held|, Distance(rng.state, Unmix(needed))
    {
      NeededBitApproaches(rng.state, needed, universe);
      NextDraw(old(rng.state), draws, universe);
      var p := rng.Below(universe);
      AddBit(held, p);
      held := held + {p};
      draws := draws + 1;
      if |held| < k && needed in held {
        MissingBit(held, universe);
        needed :| 0 <= needed < universe && needed !in held;
      }
    }
  }

  /** The next draw yields the bit `needed`, or the state comes nearer to drawing it. */
  lemma NeededBitApproaches(s: U64, needed: U64, universe: nat)
    requires needed < universe
    ensures Mix(Advance(s)) % universe == needed ||
            Distance(Advance(s), Unmix(needed)) < Distance(s, Unmix(needed))
  {
    hide Mix, Unmix, Advance, Distance;
    StepApproaches(s, Unmix(needed));
    MixIsBijective(needed);
  }
}
