/** The capped exponential retry delay shared by both lease repositories. */
module Backoff {
  import opened Arithmetic

  const MAX_EXPONENT: nat := 20

  function Pow2(n: nat): (p: nat)
    ensures p > 0
  {
    if n == 0 then 1 else 2 * Pow2(n - 1)
  }

  /** `min(base * 2 ** min(max(attempts - 1, 0), 20), cap)`, in milliseconds. */
  function Delay(attempts: nat, base: nat, cap: nat): (delay: nat) {
    Min(base * Pow2(Min(Max(attempts - 1, 0), MAX_EXPONENT)), cap)
  }

  lemma Scale(base: nat, p: nat, q: nat)
    requires p <= q
    ensures base * p <= base * q
  {}

  /** Doubling before or after the cap is the same. */
  lemma DoubleCapped(x: nat, cap: nat)
    ensures Min(2 * x, cap) == Min(2 * Min(x, cap), cap)
  {}

  lemma DoubledBase(base: nat, n: nat)
    ensures base * Pow2(n + 1) == 2 * (base * Pow2(n))
  {
    var p := Pow2(n);
    assert base * (2 * p) == 2 * (base * p);
  }

  lemma AtLeastBase(base: nat, n: nat)
    ensures base <= base * Pow2(n)
  {
    Scale(base, 1, Pow2(n));
  }

  /**
   * The schedule: the first retry waits `base` (or the cap), every further failure doubles the wait
   * until the cap or the twentieth doubling, and no failure ever shortens it.
   */
  lemma DelaySchedule(attempts: nat, base: nat, cap: nat)
    requires attempts >= 1 && base > 0 && cap > 0
    ensures Delay(1, base, cap) == Min(base, cap)
    ensures attempts <= MAX_EXPONENT ==>
              Delay(attempts + 1, base, cap) == Min(2 * Delay(attempts, base, cap), cap)
    ensures attempts > MAX_EXPONENT ==> Delay(attempts + 1, base, cap) == Delay(attempts, base, cap)
    ensures Delay(attempts, base, cap) <= Delay(attempts + 1, base, cap) <= cap
    ensures 0 < Delay(attempts, base, cap)
  {
    var e := Min(attempts - 1, MAX_EXPONENT);
    AtLeastBase(base, e);
    assert Delay(1, base, cap) == Min(base * Pow2(0), cap);
    assert Delay(attempts, base, cap) == Min(base * Pow2(e), cap);
    if attempts <= MAX_EXPONENT {
      assert Delay(attempts + 1, base, cap) == Min(base * Pow2(e + 1), cap);
      DoubledBase(base, e);
      DoubleCapped(base * Pow2(e), cap);
    } else {
      assert Delay(attempts + 1, base, cap) == Min(base * Pow2(MAX_EXPONENT), cap);
    }
  }
}
