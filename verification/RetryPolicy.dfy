/** Bounded exponential backoff with equal jitter, and the delay a provider asks for. Arithmetic is over the reals. */
module RetryPolicies {
  import opened Common

  datatype RetryPolicy = RetryPolicy(
    maxAttempts: nat,
    baseSeconds: real,
    multiplier: real,
    maxSeconds: real,
    retryAfterCap: real)
  {
    /** What the policy refuses to be built without. */
    predicate Valid() {
      maxAttempts >= 1 && baseSeconds > 0.0 && maxSeconds > 0.0 && multiplier >= 1.0
    }
  }

  const RETRY_AFTER_JITTER_FRACTION := 0.1
  const RETRY_AFTER_JITTER_CAP := 1.0

  predicate IsJitter(jitter: real) {
    0.0 <= jitter < 1.0
  }

  predicate ShouldRetry(p: RetryPolicy, attemptCount: nat, retryable: bool) {
    retryable && attemptCount < p.maxAttempts
  }

  function Least(a: real, b: real): (r: real) {
    if a <= b then a else b
  }

  function Power(base: real, n: nat): (r: real) {
    if n == 0 then 1.0 else base * Power(base, n - 1)
  }

  predicate Asked(retryAfter: Option<real>) {
    retryAfter.Some? && retryAfter.value > 0.0
  }

  function Exponential(p: RetryPolicy, attemptCount: nat): (r: real)
    requires attemptCount >= 1
  {
    p.baseSeconds * Power(p.multiplier, attemptCount - 1)
  }

  /** The exponential term after `attemptCount` attempts, capped. */
  function Backoff(p: RetryPolicy, attemptCount: nat): (r: real)
    requires attemptCount >= 1
  {
    Least(Exponential(p, attemptCount), p.maxSeconds)
  }

  function Spread(honoured: real): (r: real) {
    Least(honoured * RETRY_AFTER_JITTER_FRACTION, RETRY_AFTER_JITTER_CAP)
  }

  function Jittered(least: real, spread: real, jitter: real): (r: real) {
    least + jitter * spread
  }

  /** Seconds until the next attempt. Raises on a jitter out of range and before the first attempt. */
  function Delay(p: RetryPolicy, attemptCount: nat, jitter: real, retryAfter: Option<real>): (r: Outcome<real>) {
    if !IsJitter(jitter) || attemptCount < 1 then Raised
    else if Asked(retryAfter) then
      var honoured := Least(retryAfter.value, p.retryAfterCap);
      Ok(Jittered(honoured, Spread(honoured), jitter))
    else
      var half := Backoff(p, attemptCount) / 2.0;
      Ok(Jittered(half, half, jitter))
  }

  lemma JitteredBounds(least: real, spread: real, jitter: real)
    requires IsJitter(jitter) && spread > 0.0
    ensures least <= Jittered(least, spread, jitter) < least + spread
  {
    assert 0.0 <= jitter * spread < 1.0 * spread;
  }

  lemma Scaled(factor: real, a: real, b: real)
    requires factor > 0.0 && a <= b
    ensures factor * a <= factor * b
  {
  }

  lemma AtLeastOnce(base: real, x: real)
    requires base >= 1.0 && x >= 1.0
    ensures base * x >= x
  {
    Scaled(x, 1.0, base);
  }

  lemma {:induction false} PowerAtLeastOne(base: real, n: nat)
    requires base >= 1.0
    ensures Power(base, n) >= 1.0
  {
    if n > 0 {
      PowerAtLeastOne(base, n - 1);
      AtLeastOnce(base, Power(base, n - 1));
    }
  }

  lemma ExponentialGrows(p: RetryPolicy, attemptCount: nat)
    requires p.Valid() && attemptCount >= 1
    ensures p.baseSeconds <= Exponential(p, attemptCount) <= Exponential(p, attemptCount + 1)
  {
    var here := Power(p.multiplier, attemptCount - 1);
    PowerAtLeastOne(p.multiplier, attemptCount - 1);
    AtLeastOnce(p.multiplier, here);
    Scaled(p.baseSeconds, 1.0, here);
    Scaled(p.baseSeconds, here, Power(p.multiplier, attemptCount));
  }

  /** The guaranteed part of the delay never shrinks from one attempt to the next, and never exceeds the cap. */
  lemma BackoffGrows(p: RetryPolicy, attemptCount: nat)
    requires p.Valid() && attemptCount >= 1
    ensures 0.0 < Backoff(p, attemptCount) <= Backoff(p, attemptCount + 1) <= p.maxSeconds
  {
    ExponentialGrows(p, attemptCount);
  }

  /** The first retry waits for the base time, each further one for the multiplier times as long, up to the cap. */
  lemma BackoffMultiplies(p: RetryPolicy, attemptCount: nat)
    requires p.Valid() && attemptCount >= 1
    ensures Backoff(p, 1) == Least(p.baseSeconds, p.maxSeconds)
    ensures Exponential(p, attemptCount + 1) == p.multiplier * Exponential(p, attemptCount)
    ensures Backoff(p, attemptCount + 1) == Least(p.multiplier * Exponential(p, attemptCount), p.maxSeconds)
  {
    assert Power(p.multiplier, 0) == 1.0;
    var here := Power(p.multiplier, attemptCount - 1);
    assert Power(p.multiplier, attemptCount) == p.multiplier * here;
    Reordered(p.baseSeconds, p.multiplier, here);
  }

  lemma Reordered(a: real, b: real, c: real)
    ensures a * (b * c) == b * (a * c)
  {
  }

  /** The jitter spreads the delay evenly from half of the term, which it waits with no jitter, towards the whole. */
  lemma JitterSpreadsEvenly(p: RetryPolicy, attemptCount: nat, jitter: real, retryAfter: Option<real>)
    requires p.Valid() && IsJitter(jitter) && attemptCount >= 1 && !Asked(retryAfter)
    ensures Delay(p, attemptCount, jitter, retryAfter).Ok?
    ensures Delay(p, attemptCount, jitter, retryAfter).value ==
            Backoff(p, attemptCount) / 2.0 + jitter * (Backoff(p, attemptCount) / 2.0)
  {
  }

  /** So it does from a delay the provider asked for, by a tenth of it and at most a second. */
  lemma RequestedDelaySpreads(p: RetryPolicy, attemptCount: nat, jitter: real, retryAfter: Option<real>)
    requires IsJitter(jitter) && attemptCount >= 1 && Asked(retryAfter)
    ensures Delay(p, attemptCount, jitter, retryAfter).Ok?
    ensures var honoured := Least(retryAfter.value, p.retryAfterCap);
            Delay(p, attemptCount, jitter, retryAfter).value == honoured + jitter * Least(honoured * 0.1, 1.0)
  {
  }

  /** A delay is refused exactly for a jitter out of range or before the first attempt. */
  lemma DelayRaisesExactlyWhen(p: RetryPolicy, attemptCount: nat, jitter: real, retryAfter: Option<real>)
    ensures Delay(p, attemptCount, jitter, retryAfter).Raised? <==> jitter < 0.0 || jitter >= 1.0 || attemptCount == 0
  {
  }

  /** At least half the exponential term is always waited, and less than the whole of it. */
  lemma BackoffDelayBounds(p: RetryPolicy, attemptCount: nat, jitter: real, retryAfter: Option<real>)
    requires p.Valid() && IsJitter(jitter) && attemptCount >= 1 && !Asked(retryAfter)
    ensures var delay := Delay(p, attemptCount, jitter, retryAfter);
            delay.Ok? && Backoff(p, attemptCount) / 2.0 <= delay.value < Backoff(p, attemptCount)
  {
    BackoffGrows(p, attemptCount);
    var half := Backoff(p, attemptCount) / 2.0;
    JitteredBounds(half, half, jitter);
  }

  /** A delay the provider asked for is honoured up to the cap, and overshot by less than a tenth of it and a second. */
  lemma RetryAfterHonoured(p: RetryPolicy, attemptCount: nat, jitter: real, retryAfter: Option<real>)
    requires p.Valid() && p.retryAfterCap > 0.0 && IsJitter(jitter) && attemptCount >= 1 && Asked(retryAfter)
    ensures var delay := Delay(p, attemptCount, jitter, retryAfter);
            var honoured := Least(retryAfter.value, p.retryAfterCap);
            delay.Ok? && honoured <= delay.value < honoured + Least(honoured * 0.1, 1.0)
  {
    var honoured := Least(retryAfter.value, p.retryAfterCap);
    JitteredBounds(honoured, Spread(honoured), jitter);
  }
}
