/** The retry backoff of unitworkqueue.go: 64-bit shifts that may wrap. */
module RetryBackoff {
  import opened Basics

  const TWO_63 := 0x8000_0000_0000_0000
  const TWO_64 := 0x1_0000_0000_0000_0000

  /** The signed 64-bit value congruent to x; a time.Duration is one. */
  function Wrap64(x: int): int64 {
    var m := x % TWO_64;
    if m < TWO_63 then m else m - TWO_64
  }

  function Pow2(n: nat): (p: nat)
    ensures p > 0
  {
    if n == 0 then 1 else 2 * Pow2(n - 1)
  }

  /** base doubled attempts times, capped at max; a shift that overflows counts as over the cap. */
  function Backoff(attempts: int, base: int64, max: int64): int64 {
    var a := if attempts < 0 then 0 else attempts;
    if a > 62 then max
    else
      var d := Wrap64(base * Pow2(a));
      if d <= 0 || d > max then max else d
  }

  /** What is meant: min(base * 2^attempts, max). */
  function Ideal(attempts: int, base: int64, max: int64): int {
    var d := base * Pow2(if attempts < 0 then 0 else attempts);
    if d > max then max else d
  }

  lemma {:induction false} Pow2Grows(a: nat, b: nat)
    requires a <= b
    ensures Pow2(a) <= Pow2(b)
    ensures a < b ==> 2 * Pow2(a) <= Pow2(b)
    decreases b
  {
    if a < b {
      Pow2Grows(a, b - 1);
    }
  }

  lemma DoubleOne(p: int, q: int)
    ensures 2 * (p * q) == p * (2 * q)
  {
  }

  lemma {:induction false} Pow2Sum(a: nat, b: nat)
    ensures Pow2(a + b) == Pow2(a) * Pow2(b)
    decreases b
  {
    if b > 0 {
      Pow2Sum(a, b - 1);
      DoubleOne(Pow2(a), Pow2(b - 1));
    }
  }

  lemma Pow2Large()
    ensures Pow2(63) == TWO_63 && Pow2(64) == TWO_64
  {
    assert Pow2(8) == 256;
    Pow2Sum(8, 8);
    Pow2Sum(16, 16);
    Pow2Sum(32, 32);
    Pow2Grows(63, 64);
  }

  lemma ShiftTooFar(a: nat)
    requires a > 62
    ensures Pow2(a) >= TWO_63
  {
    Pow2Large();
    Pow2Grows(63, a);
  }

  lemma MulMonotone(a: int, b: int, c: int)
    requires 0 <= a && b <= c
    ensures a * b <= a * c
  {
  }

  lemma WrapShifts(x: int) returns (j: int)
    ensures Wrap64(x) == x - j * TWO_64
  {
    j := if Wrap64(x) == x % TWO_64 then x / TWO_64 else x / TWO_64 + 1;
  }

  lemma CommonFactor(k: int, p: int, r: int, j: int)
    ensures k * p - j * (p * r) == p * (k - j * r)
  {
    assert j * (p * r) == p * (j * r);
  }

  lemma LeastMultiple(p: int, m: int)
    requires p > 0 && p * m > 0
    ensures p * m >= p
  {
    if m <= 0 {
      MulMonotone(p, m, 0);
    } else {
      MulMonotone(p, 1, m);
    }
  }

  /** A positive wrapped multiple of 2^a is still at least 2^a. */
  lemma WrappedMultiple(k: int, a: nat)
    requires a <= 64
    ensures Wrap64(k * Pow2(a)) > 0 ==> Wrap64(k * Pow2(a)) >= Pow2(a)
  {
    var p, r := Pow2(a), Pow2(64 - a);
    Pow2Sum(a, 64 - a);
    Pow2Large();
    var j := WrapShifts(k * p);
    CommonFactor(k, p, r, j);
    if Wrap64(k * p) > 0 {
      LeastMultiple(p, k - j * r);
    }
  }

  lemma ShiftFits(base: int, p: int, max: int)
    requires 0 < base && 0 < p <= max && base * max < TWO_63
    ensures 0 < base * p < TWO_63 && Wrap64(base * p) == base * p
  {
    MulMonotone(base, 1, p);
    MulMonotone(base, p, max);
  }

  /** With no room for a wrapped value to look like a delay, the backoff is the ideal one for every
      number of attempts. */
  lemma BackoffIsIdeal(attempts: int, base: int64, max: int64)
    requires 0 < base <= max && base * max < TWO_63
    ensures Backoff(attempts, base, max) == Ideal(attempts, base, max)
  {
    hide Pow2;
    var a: nat := if attempts < 0 then 0 else attempts;
    var p := Pow2(a);
    MulMonotone(p, 1, base);
    assert p <= base * p;
    if p <= max {
      ShiftFits(base, p, max);
      assert a <= 62 by {
        if a > 62 { ShiftTooFar(a); }
      }
    } else if a <= 62 {
      WrappedMultiple(base, a);
    }
  }

  /** Hence successive delays never shrink and stay within [base, max]. */
  lemma BackoffMonotone(a: int, b: int, base: int64, max: int64)
    requires 0 < base <= max && base * max < TWO_63 && a <= b
    ensures base <= Backoff(a, base, max) <= Backoff(b, base, max) <= max
  {
    BackoffIsIdeal(a, base, max);
    BackoffIsIdeal(b, base, max);
    var i: nat, j: nat := if a < 0 then 0 else a, if b < 0 then 0 else b;
    Pow2Grows(i, j);
    MulMonotone(base, Pow2(i), Pow2(j));
    MulMonotone(base, 1, Pow2(i));
  }

  const RECONCILE_MAX_RETRIES := 5
  const RECONCILE_RETRY_BASE: int64 := 200_000_000
  const RECONCILE_RETRY_MAX: int64 := 10_000_000_000

  /** The shipped policy: 200ms, 400ms, ... up to 10s, in nanoseconds. */
  lemma ShippedPolicy(attempts: int)
    ensures Backoff(attempts, RECONCILE_RETRY_BASE, RECONCILE_RETRY_MAX)
            == Ideal(attempts, RECONCILE_RETRY_BASE, RECONCILE_RETRY_MAX)
  {
    BackoffIsIdeal(attempts, RECONCILE_RETRY_BASE, RECONCILE_RETRY_MAX);
  }

  lemma ExactTooFar(attempts: int, base: int64, max: int64)
    requires attempts > 62 && base > 0
    ensures Backoff(attempts, base, max) == Ideal(attempts, base, max)
  {
    ShiftTooFar(attempts);
    MulMonotone(Pow2(attempts), 1, base);
  }

  lemma ExactInRange(x: int, max: int64)
    requires 0 < x
    ensures var d := Wrap64(x);
            (if d <= 0 || d > max then max else d) == (if x > max then max else x)
            <==> x < TWO_63 || !(0 < d < max)
  {
  }

  lemma ExactNotPositive(attempts: int, base: int64, max: int64)
    requires base <= 0
    ensures Backoff(attempts, base, max) == Ideal(attempts, base, max)
            <==> max <= base * Pow2(if attempts < 0 then 0 else attempts)
  {
    var a: nat := if attempts < 0 then 0 else attempts;
    MulMonotone(Pow2(a), base, 0);
  }

  /** For any arguments: with a positive base the backoff is ideal exactly when the shift does not
      overflow or its wrapped value falls outside the range of delays below the cap; with any other base,
      which backs off by the cap or by a wrapped value, exactly when the cap is no larger. */
  lemma BackoffExact(attempts: int, base: int64, max: int64)
    ensures var a: nat := if attempts < 0 then 0 else attempts;
            var d := Wrap64(base * Pow2(a));
            Backoff(attempts, base, max) == Ideal(attempts, base, max)
            <==> if base > 0 then a > 62 || base * Pow2(a) < TWO_63 || !(0 < d < max) else max <= base * Pow2(a)
  {
    hide Pow2;
    var a: nat := if attempts < 0 then 0 else attempts;
    if base <= 0 {
      ExactNotPositive(attempts, base, max);
    } else if a > 62 {
      ExactTooFar(attempts, base, max);
    } else {
      MulMonotone(Pow2(a), 1, base);
      ExactInRange(base * Pow2(a), max);
    }
  }

  /** Arguments for which it is not: base = max = 2^62 + 1 backs off 4 nanoseconds at the third attempt. */
  lemma BackoffWraps()
    ensures Backoff(2, 0x4000_0000_0000_0001, 0x4000_0000_0000_0001) == 4
  {
    assert Pow2(2) == 4;
  }
}
