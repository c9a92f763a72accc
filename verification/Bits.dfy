/**
 Bit masks on natural numbers: `&` by halves, and the mask that clears the low bits.
 */
module Bits {

  function Pow2(n: nat): (p: nat)
    ensures p > 0
  {
    if n == 0 then 1 else 2 * Pow2(n - 1)
  }

  ghost predicate PowerOfTwo(n: nat) {
    exists k: nat :: Pow2(k) == n
  }

  function And(x: nat, y: nat): nat {
    if x == 0 || y == 0 then 0
    else (if x % 2 == 1 && y % 2 == 1 then 1 else 0) + 2 * And(x / 2, y / 2)
  }

  /** `x >> k`. */
  function Shifted(x: nat, k: nat): nat {
    if k == 0 then x else Shifted(x / 2, k - 1)
  }

  lemma {:induction false} Pow2Grows(k: nat, n: nat)
    requires k <= n
    ensures Pow2(k) <= Pow2(n)
    ensures k < n ==> 2 * Pow2(k) <= Pow2(n)
  {
    if k < n {
      Pow2Grows(k, n - 1);
    }
  }

  /** `x << k`. */
  function ShiftedUp(x: nat, k: nat): nat {
    if k == 0 then x else 2 * ShiftedUp(x, k - 1)
  }

  lemma {:induction false} ShiftedUpIsMultiple(x: nat, k: nat)
    ensures ShiftedUp(x, k) == x * Pow2(k)
  {
    if k > 0 {
      ShiftedUpIsMultiple(x, k - 1);
      assert x * (2 * Pow2(k - 1)) == 2 * (x * Pow2(k - 1));
    }
  }

  lemma AndEven(x: nat, y: nat)
    ensures And(x, 2 * y) == 2 * And(x / 2, y)
  {
    assert 2 * y / 2 == y && 2 * y % 2 == 0;
  }

  lemma AndOdd(x: nat, y: nat)
    ensures And(x, 2 * y + 1) == x % 2 + 2 * And(x / 2, y)
  {
    assert (2 * y + 1) / 2 == y && (2 * y + 1) % 2 == 1;
  }

  lemma {:induction false} AllOnes(x: nat, n: nat)
    requires x < Pow2(n)
    ensures And(x, Pow2(n) - 1) == x
  {
    if n > 0 {
      AllOnes(x / 2, n - 1);
      AndOdd(x, Pow2(n - 1) - 1);
    }
  }

  lemma {:induction false} ShiftBounds(x: nat, k: nat)
    ensures ShiftedUp(Shifted(x, k), k) <= x < ShiftedUp(Shifted(x, k), k) + Pow2(k)
  {
    if k > 0 {
      ShiftBounds(x / 2, k - 1);
    }
  }

  /** n bits, the low k of them zero. */
  function Mask(n: nat, k: nat): nat
    requires k <= n
  {
    if k == 0 then Pow2(n) - 1 else 2 * Mask(n - 1, k - 1)
  }

  lemma {:induction false} MaskIs(n: nat, k: nat)
    requires k <= n
    ensures Mask(n, k) == Pow2(n) - Pow2(k)
  {
    if k > 0 {
      MaskIs(n - 1, k - 1);
    }
  }

  lemma {:induction false} MaskShifts(x: nat, n: nat, k: nat)
    requires k <= n && x < Pow2(n)
    ensures And(x, Mask(n, k)) == ShiftedUp(Shifted(x, k), k)
    decreases n
  {
    if k == 0 {
      AllOnes(x, n);
    } else {
      MaskShifts(x / 2, n - 1, k - 1);
      AndEven(x, Mask(n - 1, k - 1));
    }
  }

  /** In n-bit arithmetic `x & -2^k` is the multiple of 2^k at or just below x. */
  lemma MaskClears(x: nat, n: nat, k: nat)
    requires k <= n && x < Pow2(n)
    ensures Pow2(k) <= Pow2(n)
    ensures And(x, Pow2(n) - Pow2(k)) == Shifted(x, k) * Pow2(k)
    ensures And(x, Pow2(n) - Pow2(k)) <= x < And(x, Pow2(n) - Pow2(k)) + Pow2(k)
  {
    Pow2Grows(k, n);
    MaskIs(n, k);
    MaskShifts(x, n, k);
    ShiftBounds(x, k);
    ShiftedUpIsMultiple(Shifted(x, k), k);
  }
}
