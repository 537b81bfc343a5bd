/** Bitwise or on numbers, and when it is a sum. */
module Bits {

  function Pow2(k: nat): (p: nat)
    ensures p > 0
  {
    if k == 0 then 1 else 2 * Pow2(k - 1)
  }

  function BitOr(x: nat, y: nat): nat
    decreases x + y
  {
    if x == 0 && y == 0 then 0
    else (if x % 2 == 1 || y % 2 == 1 then 1 else 0) + 2 * BitOr(x / 2, y / 2)
  }

  lemma {:induction false} OrWithZero(x: nat)
    ensures BitOr(x, 0) == BitOr(0, x) == x
  {
    if x == 0 {
    } else {
      OrWithZero(x / 2);
    }
  }

  lemma {:induction false} OrCommutes(x: nat, y: nat)
    ensures BitOr(x, y) == BitOr(y, x)
    decreases x + y
  {
    if x == 0 && y == 0 {
    } else {
      OrCommutes(x / 2, y / 2);
    }
  }

  function Shl(x: nat, k: nat): nat {
    if k == 0 then x else 2 * Shl(x, k - 1)
  }

  lemma {:induction false} ShlIsProduct(x: nat, k: nat)
    ensures Shl(x, k) == x * Pow2(k)
  {
    if k == 0 {
    } else {
      ShlIsProduct(x, k - 1);
    }
  }

  lemma Halved(low: nat, y: nat)
    ensures BitOr(low, 2 * y) == low % 2 + 2 * BitOr(low / 2, y)
  {
  }

  lemma {:induction false} OrOfShifted(low: nat, high: nat, k: nat)
    requires low < Pow2(k)
    ensures BitOr(low, Shl(high, k)) == low + Shl(high, k)
    decreases k
  {
    hide BitOr;
    if k == 0 {
      OrWithZero(high);
    } else {
      OrOfShifted(low / 2, high, k - 1);
      Halved(low, Shl(high, k - 1));
    }
  }

  /** Numbers without a common bit, one below 2^k and the other a multiple of it: their bitwise or is their sum. */
  lemma OrOfDisjoint(low: nat, high: nat, k: nat)
    requires low < Pow2(k)
    ensures BitOr(low, high * Pow2(k)) == BitOr(high * Pow2(k), low) == low + high * Pow2(k)
  {
    hide BitOr;
    ShlIsProduct(high, k);
    OrOfShifted(low, high, k);
    OrCommutes(low, high * Pow2(k));
  }
}
