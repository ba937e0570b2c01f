/** The push loop's waiting time. */
module Backoff {
  import opened Table

  const MAX_BACKOFF: int := 3600
  const MAX_EXPONENT: nat := 6

  function Pow2(n: nat): (p: nat)
    ensures p >= 1
  {
    if n == 0 then 1 else 2 * Pow2(n - 1)
  }

  /** `interval` doubled k times. */
  function Doubled(interval: int, k: nat): int {
    if k == 0 then interval else 2 * Doubled(interval, k - 1)
  }

  lemma {:induction false} DoubledIs(interval: int, k: nat)
    ensures Doubled(interval, k) == interval * Pow2(k)
  {
    if k > 0 {
      DoubledIs(interval, k - 1);
      assert Pow2(k) == 2 * Pow2(k - 1);
    }
  }

  /** Seconds to sleep after the n-th failure in a row; `interval` after a success (n = 0). */
  function Delay(interval: int, failures: nat): int {
    if failures == 0 then interval
    else Min(Doubled(interval, Min(failures, MAX_EXPONENT)), MAX_BACKOFF)
  }

  /** The formula of the code. */
  lemma DelayIs(interval: int, n: nat)
    requires n >= 1
    ensures Delay(interval, n) == Min(interval * Pow2(Min(n, 6)), 3600)
  {
    DoubledIs(interval, Min(n, MAX_EXPONENT));
  }

  lemma {:induction false} Pow2Monotone(m: nat, n: nat)
    requires m <= n
    ensures Pow2(m) <= Pow2(n)
    decreases n
  {
    if m < n {
      Pow2Monotone(m, n - 1);
    }
  }

  lemma {:induction false} DoubledGrows(interval: int, m: nat, n: nat)
    requires interval > 0 && m <= n
    ensures 0 < interval <= Doubled(interval, m) <= Doubled(interval, n)
    decreases n
  {
    if m < n {
      DoubledGrows(interval, m, n - 1);
    } else if m > 0 {
      DoubledGrows(interval, m - 1, n - 1);
    }
  }

  /** Along a failure streak the delay never shrinks, stays positive, and never exceeds an hour. */
  lemma DelayGrows(interval: int, m: nat, n: nat)
    requires interval > 0 && 1 <= m <= n
    ensures 0 < Delay(interval, m) <= Delay(interval, n) <= 3600
  {
    DoubledGrows(interval, Min(m, MAX_EXPONENT), Min(n, MAX_EXPONENT));
  }

  lemma Scale(k: nat, a: nat, b: nat)
    requires a <= b
    ensures k * a <= k * b
  {
  }

  /** Failing makes the loop slower than succeeding exactly when the interval is at most an
      hour: the cap also shortens a longer interval. */
  lemma BackoffNotFasterIff(interval: int, n: nat)
    requires interval > 0 && n >= 1
    ensures Delay(interval, n) >= interval <==> interval <= 3600
  {
    DoubledGrows(interval, 0, Min(n, MAX_EXPONENT));
  }

  /** The module's own description says 2^n * interval capped at an hour. The code stops
      doubling at 2^6, so the two agree exactly up to the sixth failure or when 64 intervals
      already fill the hour. */
  lemma MatchesDescriptionIff(interval: int, n: nat)
    requires interval > 0 && n >= 1
    ensures Delay(interval, n) == Min(interval * Pow2(n), 3600) <==> n <= 6 || 64 * interval >= 3600
  {
    assert Pow2(6) == 64 by {
      assert Pow2(3) == 2 * (2 * (2 * Pow2(0)));
      assert Pow2(6) == 2 * (2 * (2 * Pow2(3)));
    }
    DelayIs(interval, n);
    if n > MAX_EXPONENT {
      Pow2Monotone(7, n);
      assert Pow2(7) == 128;
      Scale(interval, 128, Pow2(n));
    }
  }
}
