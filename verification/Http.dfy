// The wait before a retry.
module Http {
  import opened Prelude

  // Durations are whole nanoseconds.
  const MILLISECOND: nat := 1_000_000
  const BACKOFF_BASE: nat := 500 * MILLISECOND
  const BACKOFF_CAP: nat := 8_000 * MILLISECOND
  const DEFAULT_MAX_RETRY_DELAY: nat := 60_000 * MILLISECOND

  datatype RetryDecision = Sleep(delay: nat) | ExceedsCap(requested: nat)

  function Min(a: nat, b: nat): nat {
    if a <= b then a else b
  }

  function Max(a: nat, b: nat): nat {
    if a >= b then a else b
  }

  function Pow2(n: nat): (p: nat)
    ensures p >= 1
  {
    if n == 0 then 1 else 2 * Pow2(n - 1)
  }

  // The backoff ceiling before retry `attempt` (1-based).
  function Ceiling(attempt: nat): nat {
    var doublings := if attempt == 0 then 0 else attempt - 1;
    Min(BACKOFF_BASE * Pow2(Min(doublings, 10)), BACKOFF_CAP)
  }

  // `draw` is the random number the jitter is taken from.
  function RetryDelay(attempt: nat, retryAfter: Option<nat>, maxRetryDelay: nat, draw: nat): RetryDecision {
    if retryAfter.Some? && retryAfter.value > 0 then
      if retryAfter.value <= maxRetryDelay then Sleep(retryAfter.value) else ExceedsCap(retryAfter.value)
    else
      Sleep((draw % (Ceiling(attempt) / MILLISECOND + 1)) * MILLISECOND)
  }

  lemma {:induction false} Pow2Grows(m: nat, n: nat)
    requires m <= n
    ensures Pow2(m) <= Pow2(n)
    decreases n
  {
    if m < n {
      Pow2Grows(m, n - 1);
    }
  }

  // Stopping the doubling at ten changes nothing: the cap is reached after four.
  lemma {:induction false} CeilingIsCappedDoubling(attempt: nat)
    requires attempt >= 1
    ensures Ceiling(attempt) == Min(BACKOFF_BASE * Pow2(attempt - 1), BACKOFF_CAP)
  {
    if attempt - 1 > 10 {
      Pow2Grows(10, attempt - 1);
      Pow2Grows(4, 10);
      assert Pow2(4) == 2 * Pow2(3) && Pow2(3) == 2 * Pow2(2) && Pow2(2) == 2 * Pow2(1) && Pow2(1) == 2;
      assert BACKOFF_BASE * Pow2(10) >= BACKOFF_BASE * 16;
      assert BACKOFF_BASE * Pow2(attempt - 1) >= BACKOFF_BASE * 16;
    }
  }

  lemma {:induction false} JitterBelow(draw: nat, ceiling: nat)
    ensures (draw % (ceiling / MILLISECOND + 1)) * MILLISECOND <= ceiling
  {
    var n := ceiling / MILLISECOND;
    assert draw % (n + 1) <= n;
    assert (draw % (n + 1)) * MILLISECOND <= n * MILLISECOND;
  }

  // No wait is longer than the larger of the caller's cap and eight seconds; a server's
  // hint within the cap is waited exactly, and one beyond it is never shortened.
  lemma {:induction false} DelayIsBounded(attempt: nat, retryAfter: Option<nat>, maxRetryDelay: nat, draw: nat)
    ensures var r := RetryDelay(attempt, retryAfter, maxRetryDelay, draw);
            && (r.Sleep? ==> r.delay <= Max(maxRetryDelay, BACKOFF_CAP))
            && (retryAfter.Some? && retryAfter.value > 0 ==>
                 (r == Sleep(retryAfter.value) <==> retryAfter.value <= maxRetryDelay)
                 && (r == ExceedsCap(retryAfter.value) <==> retryAfter.value > maxRetryDelay))
            && (!(retryAfter.Some? && retryAfter.value > 0) ==> r.Sleep? && r.delay <= Ceiling(attempt) <= BACKOFF_CAP)
  {
    JitterBelow(draw, Ceiling(attempt));
  }

  // Full jitter: every whole number of milliseconds up to the ceiling is possible.
  lemma {:induction false} JitterIsFull(attempt: nat, maxRetryDelay: nat, wait: nat)
    requires wait * MILLISECOND <= Ceiling(attempt)
    ensures RetryDelay(attempt, None, maxRetryDelay, wait) == Sleep(wait * MILLISECOND)
  {
    SmallRemainder(wait, Ceiling(attempt) / MILLISECOND + 1);
  }

  lemma {:induction false} SmallRemainder(a: nat, n: nat)
    requires a < n
    ensures a % n == a
  {
  }
}
