/** 64-bit words as naturals below 2^64: exclusive or, right shift, wrapping addition and
    multiplication, and when the last two can be undone. */
module Words {
  const WORD: nat := 0x1_0000_0000_0000_0000

  type U64 = x: nat | x < 0x1_0000_0000_0000_0000

  // ----- Exclusive or and right shift, bit by bit -----

  function Xor(a: nat, b: nat): nat {
    if a == 0 && b == 0 then 0
    else (if a % 2 == b % 2 then 0 else 1) + 2 * Xor(a / 2, b / 2)
  }

  function Shr(a: nat, k: nat): nat {
    if k == 0 then a else Shr(a / 2, k - 1)
  }

  lemma {:induction false} XorStep(a: nat, b: nat)
    ensures Xor(a, b) % 2 == if a % 2 == b % 2 then 0 else 1
    ensures Xor(a, b) / 2 == Xor(a / 2, b / 2)
  {
  }

  lemma {:induction false} XorCommutes(a: nat, b: nat)
    ensures Xor(a, b) == Xor(b, a)
  {
    if a != 0 || b != 0 {
      XorCommutes(a / 2, b / 2);
    }
  }

  lemma {:induction false} XorAssociates(a: nat, b: nat, c: nat)
    ensures Xor(Xor(a, b), c) == Xor(a, Xor(b, c))
    decreases a + b + c
  {
    if a != 0 || b != 0 || c != 0 {
      var l, r := Xor(Xor(a, b), c), Xor(a, Xor(b, c));
      XorAssociates(a / 2, b / 2, c / 2);
      assert l % 2 == r % 2 && l / 2 == r / 2 by {
        XorStep(a, b);
        XorStep(b, c);
        XorStep(Xor(a, b), c);
        XorStep(a, Xor(b, c));
      }
    }
  }

  lemma {:induction false} XorCancels(a: nat)
    ensures Xor(a, a) == 0
    ensures Xor(a, 0) == a
  {
    if a != 0 {
      XorCancels(a / 2);
    }
  }

  lemma {:induction false} ShrXor(a: nat, b: nat, k: nat)
    ensures Shr(Xor(a, b), k) == Xor(Shr(a, k), Shr(b, k))
  {
    if k > 0 {
      XorStep(a, b);
      ShrXor(a / 2, b / 2, k - 1);
    }
  }

  function Pow2(k: nat): nat {
    if k == 0 then 1 else 2 * Pow2(k - 1)
  }

  lemma {:induction false} ShrVanishes(a: nat, k: nat)
    ensures Shr(a, k) == 0 <==> a < Pow2(k)
  {
    if k > 0 {
      ShrVanishes(a / 2, k - 1);
    }
  }

  lemma Pow2Byte(k: nat)
    ensures Pow2(k + 8) == 256 * Pow2(k)
  {
    assert Pow2(k + 2) == 4 * Pow2(k);
    assert Pow2(k + 4) == 4 * Pow2(k + 2);
    assert Pow2(k + 6) == 4 * Pow2(k + 4);
  }

  lemma Pow2Word()
    ensures Pow2(64) == 0x1_0000_0000_0000_0000
  {
    assert Pow2(8) == 0x100 by { Pow2Byte(0); }
    assert Pow2(16) == 0x1_0000 by { Pow2Byte(8); }
    assert Pow2(24) == 0x100_0000 by { Pow2Byte(16); }
    assert Pow2(32) == 0x1_0000_0000 by { Pow2Byte(24); }
    assert Pow2(40) == 0x100_0000_0000 by { Pow2Byte(32); }
    assert Pow2(48) == 0x1_0000_0000_0000 by { Pow2Byte(40); }
    assert Pow2(56) == 0x100_0000_0000_0000 by { Pow2Byte(48); }
    Pow2Byte(56);
  }

  lemma WordBound(a: nat)
    ensures Shr(a, 64) == 0 <==> a < WORD
  {
    hide Pow2, Shr;
    ShrVanishes(a, 64);
    Pow2Word();
  }

  /** A xorshift keeps a word a word. */
  lemma XorIsWord(a: U64, b: U64)
    ensures Xor(a, b) < WORD
  {
    WordBound(a);
    WordBound(b);
    ShrXor(a, b, 64);
    WordBound(Xor(a, b));
  }

  lemma {:induction false} ShrShrinks(a: nat, k: nat)
    ensures Shr(a, k) <= a
  {
    if k > 0 {
      ShrShrinks(a / 2, k - 1);
    }
  }

  function XorShift(z: U64, k: nat): U64 {
    ShrShrinks(z, k);
    XorIsWord(z, Shr(z, k));
    Xor(z, Shr(z, k))
  }

  lemma ShrDescends(a: nat, k: nat)
    requires a > 0 && k > 0
    ensures Shr(a, k) < a
  {
    ShrShrinks(a / 2, k - 1);
  }

  /** The exclusive or of a word with its shifts by every multiple of `k`. */
  function UnXorShift(y: U64, k: nat): U64
    requires k > 0
    decreases y
  {
    if y == 0 then 0
    else
      ShrDescends(y, k);
      var rest := UnXorShift(Shr(y, k), k);
      XorIsWord(y, rest);
      Xor(y, rest)
  }

  lemma {:induction false} ShrZero(k: nat)
    ensures Shr(0, k) == 0
  {
    if k > 0 {
      ShrZero(k - 1);
    }
  }

  lemma XorTwice(a: nat, b: nat)
    ensures Xor(Xor(a, b), b) == a
  {
    XorAssociates(a, b, b);
    XorCancels(b);
    XorCancels(a);
  }

  /** Shifting commutes with the xorshift and with its inverse. */
  lemma ShrXorShift(z: U64, k: nat)
    ensures Shr(z, k) <= z
    ensures Shr(XorShift(z, k), k) == XorShift(Shr(z, k), k)
  {
    ShrShrinks(z, k);
    ShrXor(z, Shr(z, k), k);
  }

  lemma {:induction false} ShrUnXorShift(y: U64, k: nat)
    requires k > 0
    ensures Shr(y, k) <= y
    ensures Shr(UnXorShift(y, k), k) == UnXorShift(Shr(y, k), k)
    decreases y
  {
    hide Xor, Shr;
    ShrShrinks(y, k);
    ShrZero(k);
    if y > 0 {
      ShrDescends(y, k);
      var s: U64 := Shr(y, k);
      ShrUnXorShift(s, k);
      ShrXor(y, UnXorShift(s, k), k);
      UnXorShiftStep(s, k);
    }
  }

  /** The defining equation, at zero too. */
  lemma UnXorShiftStep(y: U64, k: nat)
    requires k > 0
    ensures Shr(y, k) <= y && UnXorShift(y, k) == Xor(y, UnXorShift(Shr(y, k), k))
  {
    ShrShrinks(y, k);
    ShrZero(k);
    XorCancels(0);
  }

  /** Both directions: the xorshift by any positive amount is a bijection on words. */
  lemma {:induction false} XorShiftInverse(z: U64, k: nat)
    requires k > 0
    ensures UnXorShift(XorShift(z, k), k) == z
    ensures XorShift(UnXorShift(z, k), k) == z
    decreases z
  {
    hide Xor, Shr, UnXorShift;
    ShrShrinks(z, k);
    ShrZero(k);
    ShrXorShift(z, k);
    ShrUnXorShift(z, k);
    UnXorShiftStep(z, k);
    UnXorShiftStep(XorShift(z, k), k);
    XorTwice(z, UnXorShift(Shr(z, k), k));
    XorTwice(z, Shr(z, k));
    if z > 0 {
      ShrDescends(z, k);
      XorShiftInverse(Shr(z, k), k);
    } else {
      NothingToUndo(k);
    }
  }

  lemma NothingToUndo(k: nat)
    requires k > 0
    ensures XorShift(0, k) == 0 == UnXorShift(0, k)
  {
    ShrZero(k);
    XorCancels(0);
  }

  // ----- Wrapping arithmetic -----

  function WrappingAdd(a: U64, b: U64): U64 {
    (a + b) % 0x1_0000_0000_0000_0000
  }

  function WrappingMul(a: U64, b: U64): U64 {
    (a * b) % 0x1_0000_0000_0000_0000
  }

  /** A number that is `r` more than a multiple of 2^64 has remainder `r`. */
  lemma RemainderIs(a: int, q: int, r: U64)
    requires a == q * 0x1_0000_0000_0000_0000 + r
    ensures a % 0x1_0000_0000_0000_0000 == r
  {
  }

  /** Multiplication by `c` is undone by `d` when `c * d` is one more than a multiple of 2^64. */
  lemma MultiplierInverse(z: U64, c: U64, d: U64, e: nat)
    requires c * d == e * WORD + 1
    ensures WrappingMul(WrappingMul(z, c), d) == z
  {
    var q := (z * c) / WORD;
    var r := WrappingMul(z, c);
    assert z * c == q * WORD + r;
    calc {
      r * d;
      (z * c - q * WORD) * d;
      z * c * d - q * WORD * d;
      { assert z * c * d == z * (c * d); }
      z * (e * WORD + 1) - q * WORD * d;
      (z * e - q * d) * WORD + z;
    }
    RemainderIs(r * d, z * e - q * d, z);
  }
}
