/** Masks of consecutive bits and shifts by constants, in terms of quotient and remainder. */
module Masks {
  import opened Words

  function Pow2(k: nat): (p: nat)
    ensures p > 0
  {
    if k == 0 then 1 else 2 * Pow2(k - 1)
  }

  /** The bits of `v` below bit `k`, and those from bit `k` on. */
  function Low(v: nat, k: nat): nat {
    if k == 0 then 0 else 2 * Low(v / 2, k - 1) + v % 2
  }

  function High(v: nat, k: nat): nat {
    if k == 0 then v else High(v / 2, k - 1)
  }

  lemma {:induction false} TwoParts(v: nat, k: nat)
    ensures v == Pow2(k) * High(v, k) + Low(v, k) && Low(v, k) < Pow2(k)
  {
    if k > 0 {
      TwoParts(v / 2, k - 1);
      assert Pow2(k) * High(v, k) == 2 * (Pow2(k - 1) * High(v / 2, k - 1));
    }
  }

  lemma {:induction false} LowMask(v: nat, k: nat)
    ensures And32(v, Pow2(k) - 1) == Low(v, k)
  {
    if k > 0 {
      LowMask(v / 2, k - 1);
      assert (Pow2(k) - 1) / 2 == Pow2(k - 1) - 1;
      if v == 0 {
        LowOfZero(k);
      }
    }
  }

  lemma {:induction false} LowOfZero(k: nat)
    ensures Low(0, k) == 0
  {
    if k > 0 {
      LowOfZero(k - 1);
    }
  }

  /** All but the low `k` of `j + k` bits. */
  lemma {:induction false} HighMask(v: nat, j: nat, k: nat)
    requires v < Pow2(j + k)
    ensures Pow2(j + k) >= Pow2(k) && And32(v, Pow2(j + k) - Pow2(k)) == v - Low(v, k)
    decreases k
  {
    hide And32;
    if k == 0 {
      LowMask(v, j);
      AllLow(v, j);
    } else {
      HighMask(v / 2, j, k - 1);
      AndEven(v, Pow2(j + (k - 1)) - Pow2(k - 1));
      assert Pow2(j + k) == 2 * Pow2(j + (k - 1));
    }
  }

  lemma AndEven(v: nat, m: nat)
    ensures And32(v, 2 * m) == 2 * And32(v / 2, m)
  {
    assert 2 * m / 2 == m && 2 * m % 2 == 0;
  }

  lemma {:induction false} AllLow(v: nat, k: nat)
    requires v < Pow2(k)
    ensures Low(v, k) == v
  {
    if k > 0 {
      AllLow(v / 2, k - 1);
    }
  }

  /** Numbers whose bits lie on either side of bit `k` share none. */
  lemma {:induction false} Apart(low: nat, high: nat, k: nat)
    requires low < Pow2(k) && Low(high, k) == 0
    ensures And32(low, high) == 0 == And32(high, low)
  {
    if k > 0 {
      Apart(low / 2, high / 2, k - 1);
    }
  }

  lemma WrapDouble(x: nat)
    ensures Wrap(2 * Wrap(x)) == Wrap(2 * x)
  {
  }

  lemma {:induction false} ShiftedLeft(v: Word, k: Amount)
    ensures Shl32(v, k) == Wrap(v * Pow2(k))
  {
    hide Wrap;
    if k == 0 {
      WrapWord(v);
    } else {
      ShiftedLeft(v, k - 1);
      var x := v * Pow2(k - 1);
      assert 2 * x == v * Pow2(k);
      WrapDouble(x);
    }
  }

  lemma WrapWord(v: Word)
    ensures Wrap(v) == v
  {
  }

  lemma {:induction false} ShiftedRight(v: Word, k: Amount)
    ensures Shr32(v, k) == High(v, k)
  {
    if k > 0 {
      ShiftedRight(v / 2, k - 1);
    }
  }

  // ---- whole bytes ----

  lemma Powers()
    ensures Pow2(2) == 4 && Pow2(8) == 0x100 && Pow2(16) == 0x1_0000 && Pow2(24) == 0x100_0000 && Pow2(32) == WORD_LIMIT
  {
    assert Pow2(4) == 0x10 && Pow2(12) == 0x1000 && Pow2(20) == 0x10_0000 && Pow2(28) == 0x1000_0000;
  }

  lemma PartsOf(v: nat)
    ensures Low(v, 2) == v % 4
    ensures High(v, 8) == v / 0x100 && Low(v, 8) == v % 0x100
    ensures High(v, 16) == v / 0x1_0000 && Low(v, 16) == v % 0x1_0000
    ensures High(v, 24) == v / 0x100_0000 && Low(v, 24) == v % 0x100_0000
  {
    hide Low, High, Pow2;
    Powers();
    TwoParts(v, 2);
    TwoParts(v, 8);
    TwoParts(v, 16);
    TwoParts(v, 24);
  }

  lemma ByteMasks(v: Word)
    ensures And32(v, 0xFF) == v % 0x100
    ensures And32(v, 0xFFFF) == v % 0x1_0000
    ensures And32(v, 0xFF_FFFF) == v % 0x100_0000
    ensures And32(v, 0xFFFF_FF00) == v - v % 0x100
    ensures And32(v, 0xFFFF_0000) == v - v % 0x1_0000
    ensures And32(v, 0xFF00_0000) == v - v % 0x100_0000
  {
    hide And32, Pow2, Low, High;
    Powers();
    PartsOf(v);
    LowMask(v, 8);
    LowMask(v, 16);
    LowMask(v, 24);
    HighMask(v, 24, 8);
    HighMask(v, 16, 16);
    HighMask(v, 8, 24);
  }

  /** The offset in a word, and the word's address. */
  lemma AddressMasks(a: Word)
    ensures And32(a, 3) == a % 4 && And32(a, 0xFFFF_FFFC) == a - a % 4
  {
    hide And32, Pow2, Low, High;
    Powers();
    PartsOf(a);
    LowMask(a, 2);
    HighMask(a, 30, 2);
  }

  lemma WrapProducts(v: Word)
    ensures Wrap(v * 0x100) == v % 0x100_0000 * 0x100
    ensures Wrap(v * 0x1_0000) == v % 0x1_0000 * 0x1_0000
    ensures Wrap(v * 0x100_0000) == v % 0x100 * 0x100_0000
  {
    hide Wrap;
    WrapIs(v * 0x100, v / 0x100_0000, v % 0x100_0000 * 0x100);
    WrapIs(v * 0x1_0000, v / 0x1_0000, v % 0x1_0000 * 0x1_0000);
    WrapIs(v * 0x100_0000, v / 0x100, v % 0x100 * 0x100_0000);
  }

  lemma WrapIs(x: int, q: int, r: Word)
    requires x == WORD_LIMIT * q + r
    ensures Wrap(x) == r
  {
  }

  lemma ByteShifts(v: Word)
    ensures Shl32(v, 8) == v % 0x100_0000 * 0x100
    ensures Shl32(v, 16) == v % 0x1_0000 * 0x1_0000
    ensures Shl32(v, 24) == v % 0x100 * 0x100_0000
    ensures Shr32(v, 8) == v / 0x100 && Shr32(v, 16) == v / 0x1_0000 && Shr32(v, 24) == v / 0x100_0000
  {
    hide Shl32, Shr32, Pow2, Wrap, Low, High;
    Powers();
    PartsOf(v);
    WrapProducts(v);
    ShiftedLeft(v, 8);
    ShiftedLeft(v, 16);
    ShiftedLeft(v, 24);
    ShiftedRight(v, 8);
    ShiftedRight(v, 16);
    ShiftedRight(v, 24);
  }

  /** Joining disjoint bits is adding. */
  lemma OrIsSum(low: Word, high: Word, k: nat)
    requires low < Pow2(k) && Low(high, k) == 0 && low + high < WORD_LIMIT
    ensures Or32(low, high) == low + high == Or32(high, low)
  {
    hide And32, Pow2, Low;
    Apart(low, high, k);
  }
}
