/** Python's non-negative integers as bit strings: shifts, masks, xor and popcount.
    Each operation recurses on the lowest bit, so no power of two has to be multiplied out. */
module Bits {

  function Pow2(n: nat): (p: nat)
    ensures p >= 1
  {
    if n == 0 then 1 else 2 * Pow2(n - 1)
  }

  /** Whether bit `i` of `v` is set: `v & (1 << i)`. */
  predicate Bit(v: nat, i: nat) {
    if i == 0 then v % 2 == 1 else Bit(v / 2, i - 1)
  }

  /** `v | (1 << i)`. */
  function SetBit(v: nat, i: nat): nat {
    if i == 0 then v / 2 * 2 + 1 else v % 2 + 2 * SetBit(v / 2, i - 1)
  }

  /** `v >> n`. */
  function Shr(v: nat, n: nat): nat {
    if n == 0 then v else Shr(v / 2, n - 1)
  }

  /** `v & ((1 << n) - 1)`. */
  function Low(v: nat, n: nat): nat {
    if n == 0 then 0 else v % 2 + 2 * Low(v / 2, n - 1)
  }

  /** `a ^ b`. */
  function Xor(a: nat, b: nat): nat
    decreases a + b
  {
    if a == 0 && b == 0 then 0
    else (if a % 2 == b % 2 then 0 else 1) + 2 * Xor(a / 2, b / 2)
  }

  /** `bin(v).count("1")`. */
  function PopCount(v: nat): nat {
    if v == 0 then 0 else v % 2 + PopCount(v / 2)
  }

  /** Setting a bit sets that bit and no other. */
  lemma {:induction false} BitOfSetBit(v: nat, i: nat, j: nat)
    ensures Bit(SetBit(v, i), j) <==> i == j || Bit(v, j)
  {
    if i > 0 && j > 0 {
      BitOfSetBit(v / 2, i - 1, j - 1);
    }
  }

  lemma {:induction false} SetBitBelow(v: nat, i: nat, n: nat)
    requires v < Pow2(n) && i < n
    ensures SetBit(v, i) < Pow2(n)
  {
    var half := Pow2(n - 1);
    assert v / 2 < half;
    if i > 0 {
      SetBitBelow(v / 2, i - 1, n - 1);
      assert SetBit(v / 2, i - 1) < half;
    }
  }

  lemma {:induction false} BitOfZero(i: nat)
    ensures !Bit(0, i)
  {
    if i > 0 {
      BitOfZero(i - 1);
    }
  }

  lemma {:induction false} LowBelow(v: nat, n: nat)
    ensures Low(v, n) < Pow2(n)
  {
    if n > 0 {
      LowBelow(v / 2, n - 1);
    }
  }

  lemma {:induction false} ShrShr(v: nat, m: nat, n: nat)
    ensures Shr(Shr(v, m), n) == Shr(v, m + n)
  {
    if m > 0 {
      ShrShr(v / 2, m - 1, n);
    }
  }

  /** The recursive shift and mask are division and remainder by a power of two. */
  lemma {:induction false} ShrLowSplit(v: nat, n: nat)
    ensures v == Shr(v, n) * Pow2(n) + Low(v, n)
    ensures Low(v, n) < Pow2(n)
  {
    LowBelow(v, n);
    if n > 0 {
      ShrLowSplit(v / 2, n - 1);
      var s, p := Shr(v, n), Pow2(n - 1);
      assert s * Pow2(n) == 2 * (s * p) by { assert Pow2(n) == 2 * p; }
    }
  }
}
