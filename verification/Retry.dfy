/** Reconnect timing: the delay before attempt n, and when the count starts over. */
module Retry {
  import opened Wrappers
  import opened Domain

  const U32_MAX: int := 0xFFFF_FFFF
  const U64_MAX: int := 0xFFFF_FFFF_FFFF_FFFF
  const U128_MAX: int := 0x1_0000_0000_0000_0000 * 0x1_0000_0000_0000_0000 - 1

  function Clamp(x: int, lo: int, hi: int): int { if x < lo then lo else if x > hi then hi else x }

  function SaturatingMul(a: int, b: int): int { Min(a * b, U128_MAX) }

  function Multiplier(attempt: nat): nat {
    match Min(if attempt == 0 then 0 else attempt - 1, 5)
    case 0 => 1
    case 1 => 2
    case 2 => 5
    case 3 => 10
    case 4 => 20
    case _ => 30
  }

  function Millis(nanos: nat): nat { nanos / NANOS_PER_MILLI }

  function JitterLimit(p: RetryPolicy): int { Min(p.jitterPercent, 100) }

  function Unjittered(p: RetryPolicy, attempt: nat): int {
    Min(SaturatingMul(Millis(p.baseDelay), Multiplier(attempt)), Millis(p.maxDelay))
  }

  /** In milliseconds; `jitter` is any signed byte. */
  function Delay(p: RetryPolicy, attempt: nat, jitter: int): int {
    var limit := JitterLimit(p);
    var adjusted := SaturatingMul(Unjittered(p, attempt), 100 + Clamp(jitter, -limit, limit)) / 100;
    Min(adjusted, U64_MAX)
  }

  predicate ShouldReset(p: RetryPolicy, healthyFor: nat) {
    healthyFor >= p.resetAfterHealthy
  }

  function NextAttempt(attempt: nat): nat { Min(attempt + 1, U32_MAX) }

  /** A delay within the configured percentage around the schedule. */
  predicate WithinJitter(p: RetryPolicy, attempt: nat, delayMs: int) {
    var limit := JitterLimit(p);
    var u := Unjittered(p, attempt);
    Min(u * (100 - limit) / 100, U64_MAX) <= delayMs <= Min(u * (100 + limit) / 100, U64_MAX)
  }

  /** A policy made of representable durations. */
  predicate Representable(p: RetryPolicy) {
    p.baseDelay < DURATION_LIMIT && p.maxDelay < DURATION_LIMIT
  }

  lemma MultiplierGrows(a: nat, b: nat)
    requires a <= b
    ensures 1 <= Multiplier(a) <= Multiplier(b) <= 30
  {
  }

  /**
    The schedule: the first attempt waits for the base delay, the next ones for 2, 5, 10 and 20 times that, all others
    for 30 times, each up to the maximum.
  */
  lemma DelaySchedule(p: RetryPolicy, attempt: nat)
    requires Representable(p)
    ensures var ms, cap := p.baseDelay / 1_000_000, p.maxDelay / 1_000_000;
            var factor := if attempt <= 1 then 1 else if attempt == 2 then 2 else if attempt == 3 then 5
                          else if attempt == 4 then 10 else if attempt == 5 then 20 else 30;
            Delay(p, attempt, 0) == Min(Min(ms * factor, cap), 0xFFFF_FFFF_FFFF_FFFF)
  {
    DelayIsExact(p, attempt, 0);
    assert forall u: int :: u * 100 / 100 == u;
  }

  /** No product saturates and no factor is negative, so the exact quotient is what comes out. */
  lemma DelayIsExact(p: RetryPolicy, attempt: nat, jitter: int)
    requires Representable(p)
    ensures var limit := Min(p.jitterPercent, 100);
            var j := if jitter < -limit then -limit else if jitter > limit then limit else jitter;
            var u := Min(Millis(p.baseDelay) * Multiplier(attempt), Millis(p.maxDelay));
            && 0 <= 100 + j <= 200
            && Unjittered(p, attempt) == u
            && Delay(p, attempt, jitter) == Min(u * (100 + j) / 100, U64_MAX)
  {
    var ceiling := DURATION_LIMIT / NANOS_PER_MILLI;
    assert Millis(p.baseDelay) <= ceiling && Millis(p.maxDelay) <= ceiling;
    MultiplierGrows(attempt, attempt);
    ProductBound(Millis(p.baseDelay), ceiling, Multiplier(attempt), 30);
    var limit := JitterLimit(p);
    ProductBound(Unjittered(p, attempt), ceiling, 100 + Clamp(jitter, -limit, limit), 200);
  }

  lemma ProductBound(x: int, xMax: int, y: int, yMax: int)
    requires 0 <= x <= xMax && 0 <= y <= yMax
    ensures 0 <= x * y <= xMax * yMax
  {
    assert x * y <= xMax * y by { assert (xMax - x) * y >= 0; }
    assert xMax * y <= xMax * yMax by { assert xMax * (yMax - y) >= 0; }
  }

  lemma QuotientGrows(x: int, y: int)
    requires 0 <= x <= y
    ensures x / 100 <= y / 100
  {
  }

  /** Whatever the random source returns, the delay stays within the configured percentage. */
  lemma DelayWithinJitter(p: RetryPolicy, attempt: nat, jitter: int)
    requires Representable(p)
    ensures WithinJitter(p, attempt, Delay(p, attempt, jitter))
  {
    DelayIsExact(p, attempt, jitter);
    var limit := JitterLimit(p);
    var j := Clamp(jitter, -limit, limit);
    var u := Unjittered(p, attempt);
    ProductBound(u, u, 100 - limit, 100 + j);
    ProductBound(u, u, 100 + j, 100 + limit);
    QuotientGrows(u * (100 - limit), u * (100 + j));
    QuotientGrows(u * (100 + j), u * (100 + limit));
  }

  lemma SomeDelayFits(p: RetryPolicy, attempt: nat) returns (delayMs: int)
    ensures WithinJitter(p, attempt, delayMs)
  {
    var limit, u := JitterLimit(p), Unjittered(p, attempt);
    ProductBound(Millis(p.baseDelay), Millis(p.baseDelay), Multiplier(attempt), 30);
    ProductBound(u, u, 100 - limit, 100 + limit);
    QuotientGrows(u * (100 - limit), u * (100 + limit));
    delayMs := Min(u * (100 - limit) / 100, U64_MAX);
  }

  lemma UnjitteredGrows(p: RetryPolicy, a: nat, b: nat)
    requires Representable(p) && a <= b
    ensures Unjittered(p, a) <= Unjittered(p, b)
  {
    DelayIsExact(p, a, 0);
    DelayIsExact(p, b, 0);
    MultiplierGrows(a, b);
    ProductBound(Millis(p.baseDelay), Millis(p.baseDelay), Multiplier(a), Multiplier(b));
  }

  /** Between resets the unjittered delay never shrinks and never exceeds the configured maximum. */
  lemma DelayNeverShrinks(p: RetryPolicy, a: nat, b: nat)
    requires Representable(p) && a <= b
    ensures Delay(p, a, 0) <= Delay(p, b, 0) <= Millis(p.maxDelay)
  {
    DelayIsExact(p, a, 0);
    DelayIsExact(p, b, 0);
    MultiplierGrows(a, b);
    ProductBound(Millis(p.baseDelay), Millis(p.baseDelay), Multiplier(a), Multiplier(b));
    assert forall u: int :: u * 100 / 100 == u;
  }
}
