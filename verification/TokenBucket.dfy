/** The client-side token bucket: a lazily refilled hash that expires. Arithmetic is over the reals. */
module TokenBucket {

  datatype Limits = Limits(rate: real, burst: nat) {
    predicate Valid() {
      rate > 0.0 && burst >= 1
    }
  }

  datatype Key = Absent | Present(tokens: real, updatedAt: real, expiresAt: real)

  const MIN_TTL_SECONDS := 60

  function TtlSeconds(c: Limits): (r: int)
    requires c.Valid()
  {
    var scaled := (c.burst as real / c.rate * 4.0).Floor;
    if scaled > MIN_TTL_SECONDS then scaled else MIN_TTL_SECONDS
  }

  function Capped(c: Limits, tokens: real): (r: real) {
    if tokens <= c.burst as real then tokens else c.burst as real
  }

  function Elapsed(from: real, now: real): (r: real) {
    if now > from then now - from else 0.0
  }

  predicate Live(k: Key, now: real) {
    k.Present? && now < k.expiresAt
  }

  /** Tokens after a lazy refill that knows nothing of expiry. */
  function Refilled(c: Limits, tokens: real, updatedAt: real, now: real): (r: real) {
    Capped(c, tokens + Elapsed(updatedAt, now) * c.rate)
  }

  /** Tokens a call at `now` finds. */
  function Level(c: Limits, k: Key, now: real): (r: real) {
    if Live(k, now) then Refilled(c, k.tokens, k.updatedAt, now) else c.burst as real
  }

  function Stored(c: Limits, tokens: real, now: real): (r: Key)
    requires c.Valid()
  {
    Present(tokens, now, now + TtlSeconds(c) as real)
  }

  predicate Admits(c: Limits, k: Key, now: real) {
    Level(c, k, now) >= 1.0
  }

  /** One run of the script. */
  function Acquire(c: Limits, k: Key, now: real): (r: Key)
    requires c.Valid()
  {
    Stored(c, if Admits(c, k, now) then Level(c, k, now) - 1.0 else Level(c, k, now), now)
  }

  /** How long a caller is told to wait. */
  function RetryAfter(c: Limits, k: Key, now: real): (r: real)
    requires c.Valid()
  {
    if !Live(k, now) || Level(c, k, now) >= 1.0 then 0.0 else (1.0 - Level(c, k, now)) / c.rate
  }

  class RateLimiter {
    var key: Key
    const limits: Limits

    constructor (c: Limits)
      ensures key == Absent && limits == c
    {
      key, limits := Absent, c;
    }

    method Script(now: real) returns (allowed: bool, retryAfter: real)
      requires limits.Valid()
      modifies this
      ensures allowed == Admits(limits, old(key), now)
      ensures key == Acquire(limits, old(key), now)
      ensures retryAfter == if allowed then 0.0 else RetryAfter(limits, key, now)
    {
      var tokens, updatedAt := limits.burst as real, now;
      if Live(key, now) {
        tokens, updatedAt := key.tokens, key.updatedAt;
      }
      var elapsed := if now - updatedAt > 0.0 then now - updatedAt else 0.0;
      tokens := tokens + elapsed * limits.rate;
      if tokens > limits.burst as real {
        tokens := limits.burst as real;
      }
      allowed, retryAfter := false, 0.0;
      if tokens >= 1.0 {
        tokens := tokens - 1.0;
        allowed := true;
      } else {
        retryAfter := (1.0 - tokens) / limits.rate;
      }
      key := Present(tokens, now, now + TtlSeconds(limits) as real);
    }
  }

  // ---- runs ----

  function After(c: Limits, k: Key, times: seq<real>): (r: Key)
    requires c.Valid()
    decreases |times|
  {
    if times == [] then k else After(c, Acquire(c, k, times[0]), times[1..])
  }

  /** How many of the calls at the given times are admitted. */
  function Admitted(c: Limits, k: Key, times: seq<real>): (r: nat)
    requires c.Valid()
    decreases |times|
  {
    if times == [] then 0 else
      (if Admits(c, k, times[0]) then 1 else 0) + Admitted(c, Acquire(c, k, times[0]), times[1..])
  }

  predicate Ordered(times: seq<real>) {
    forall i, j :: 0 <= i < j < |times| ==> times[i] <= times[j]
  }

  /** What every stored bucket satisfies: tokens within the burst, and a time to live that covers a full refill. */
  predicate Sane(c: Limits, k: Key)
    requires c.Valid()
  {
    k.Present? ==> 0.0 <= k.tokens <= c.burst as real && k.expiresAt == k.updatedAt + TtlSeconds(c) as real
  }

  lemma RefillGrows(c: Limits, tokens: real, updatedAt: real, now: real)
    requires c.Valid() && 0.0 <= tokens <= c.burst as real
    ensures tokens <= Refilled(c, tokens, updatedAt, now) <= c.burst as real
  {
    assert Elapsed(updatedAt, now) * c.rate >= 0.0;
  }

  lemma LevelInRange(c: Limits, k: Key, now: real)
    requires c.Valid() && Sane(c, k)
    ensures 0.0 <= Level(c, k, now) <= c.burst as real
  {
    if Live(k, now) {
      RefillGrows(c, k.tokens, k.updatedAt, now);
    }
  }

  lemma AcquireStaysSane(c: Limits, k: Key, now: real)
    requires c.Valid() && Sane(c, k)
    ensures Sane(c, Acquire(c, k, now))
  {
    LevelInRange(c, k, now);
  }

  /** In every run, whatever the clock does, the stored tokens stay between zero and the burst. */
  lemma {:induction false} TokensStayInRange(c: Limits, k: Key, times: seq<real>)
    requires c.Valid() && Sane(c, k)
    ensures Sane(c, After(c, k, times))
    decreases |times|
  {
    if times != [] {
      AcquireStaysSane(c, k, times[0]);
      TokensStayInRange(c, Acquire(c, k, times[0]), times[1..]);
    }
  }

  // ---- expiry ----

  lemma QuotientTimes(a: real, b: real)
    requires b > 0.0
    ensures a / b * b == a
  {
  }

  lemma Scaled(a: real, b: real, factor: real)
    requires a <= b && factor > 0.0
    ensures a * factor <= b * factor
  {
  }

  lemma TtlIsLong(c: Limits)
    requires c.Valid()
    ensures TtlSeconds(c) as real >= c.burst as real / c.rate
  {
    var full := c.burst as real / c.rate;
    assert full <= 60.0 || (full * 4.0).Floor as real > full * 4.0 - 1.0;
  }

  lemma TtlCoversRefill(c: Limits, elapsed: real)
    requires c.Valid() && elapsed >= TtlSeconds(c) as real
    ensures elapsed * c.rate >= c.burst as real
  {
    TtlIsLong(c);
    QuotientTimes(c.burst as real, c.rate);
    Scaled(c.burst as real / c.rate, elapsed, c.rate);
  }

  lemma FullWhen(c: Limits, tokens: real, gain: real)
    requires tokens >= 0.0 && gain >= c.burst as real
    ensures Capped(c, tokens + gain) == c.burst as real
  {
  }

  /** A call cannot tell an expired key from one that refilled lazily: both show a full bucket. */
  lemma ExpiryIsInvisible(c: Limits, k: Key, now: real)
    requires c.Valid() && Sane(c, k) && k.Present? && k.updatedAt <= now
    ensures Level(c, k, now) == Refilled(c, k.tokens, k.updatedAt, now)
  {
    if now >= k.expiresAt {
      var elapsed := Elapsed(k.updatedAt, now);
      TtlCoversRefill(c, elapsed);
      FullWhen(c, k.tokens, elapsed * c.rate);
    }
  }

  // ---- the admission bound ----

  lemma Distributes(a: real, b: real, rate: real)
    ensures a * rate + b * rate == (a + b) * rate
  {
  }

  /** Between two times the level grows by no more than the rate allows. */
  lemma LevelGrowth(c: Limits, tokens: real, at: real, later: real)
    requires c.Valid() && 0.0 <= tokens <= c.burst as real && at <= later
    ensures Level(c, Stored(c, tokens, at), later) <= tokens + (later - at) * c.rate
  {
    ExpiryIsInvisible(c, Stored(c, tokens, at), later);
  }

  /** `spent` is covered by what there was at the start and what `span` seconds refill. */
  predicate Funded(c: Limits, spent: real, start: real, span: real) {
    spent <= start + span * c.rate
  }

  lemma FundingAdds(c: Limits, one: real, spent: real, level: real, nextLevel: real, from: real, mid: real, to: real)
    requires Funded(c, nextLevel, level - one, mid - from) && Funded(c, spent, nextLevel, to - mid)
    ensures Funded(c, one + spent, level, to - from)
  {
    Distributes(mid - from, to - mid, c.rate);
  }

  lemma FundingWidens(c: Limits, spent: real, start: real, span: real, more: real, wider: real)
    requires c.Valid() && Funded(c, spent, start, span) && start <= more && span <= wider
    ensures Funded(c, spent, more, wider)
  {
    Scaled(span, wider, c.rate);
  }

  lemma OneCall(c: Limits, k: Key, now: real, later: real)
    requires c.Valid() && Sane(c, k) && now <= later
    ensures Funded(c, Level(c, Acquire(c, k, now), later),
                   Level(c, k, now) - (if Admits(c, k, now) then 1.0 else 0.0), later - now)
  {
    AcquireStaysSane(c, k, now);
    LevelGrowth(c, Acquire(c, k, now).tokens, now, later);
  }

  /** Admissions never outrun the tokens there were plus those refilled since. */
  lemma {:induction false} AdmissionsAreFunded(c: Limits, k: Key, times: seq<real>)
    requires c.Valid() && Sane(c, k) && Ordered(times) && times != []
    ensures Funded(c, Admitted(c, k, times) as real, Level(c, k, times[0]), times[|times| - 1] - times[0])
    decreases |times|
  {
    if |times| == 1 {
      LevelInRange(c, k, times[0]);
      assert Admitted(c, Acquire(c, k, times[0]), times[1..]) == 0;
    } else {
      var next := Acquire(c, k, times[0]);
      var from, mid, to := times[0], times[1], times[|times| - 1];
      var one := if Admits(c, k, from) then 1.0 else 0.0;
      AcquireStaysSane(c, k, from);
      AdmissionsAreFunded(c, next, times[1..]);
      OneCall(c, k, from, mid);
      FundingAdds(c, one, Admitted(c, next, times[1..]) as real, Level(c, k, from), Level(c, next, mid), from, mid, to);
    }
  }

  lemma OrderedSuffix(before: seq<real>, window: seq<real>)
    requires Ordered(before + window)
    ensures Ordered(window)
  {
    forall i, j | 0 <= i < j < |window| ensures window[i] <= window[j] {
      assert (before + window)[|before| + i] <= (before + window)[|before| + j];
    }
  }

  lemma WindowFunded(c: Limits, k: Key, window: seq<real>, span: real)
    requires c.Valid() && Sane(c, k) && Ordered(window) && span >= 0.0
    requires window != [] ==> window[|window| - 1] - window[0] <= span
    ensures Funded(c, Admitted(c, k, window) as real, c.burst as real, span)
  {
    if window == [] {
      Scaled(0.0, span, c.rate);
    } else {
      AdmissionsAreFunded(c, k, window);
      LevelInRange(c, k, window[0]);
      FundingWidens(c, Admitted(c, k, window) as real, Level(c, k, window[0]), window[|window| - 1] - window[0],
                    c.burst as real, span);
    }
  }

  /** In any run with nondecreasing times, the calls that fall in a window of length `span` admit at most the burst
      plus the rate times `span`, whatever came before the window. */
  lemma WindowBound(c: Limits, before: seq<real>, window: seq<real>, span: real)
    requires c.Valid() && Ordered(before + window) && span >= 0.0
    requires window != [] ==> window[|window| - 1] - window[0] <= span
    ensures Admitted(c, After(c, Absent, before), window) as real <= c.burst as real + span * c.rate
  {
    TokensStayInRange(c, Absent, before);
    OrderedSuffix(before, window);
    WindowFunded(c, After(c, Absent, before), window, span);
  }

  // ---- waiting ----

  lemma DivideBound(x: real, y: real, rate: real)
    requires rate > 0.0
    ensures x * rate >= y <==> x >= y / rate
  {
    var q := y / rate;
    QuotientTimes(y, rate);
    if x >= q {
      Scaled(q, x, rate);
    } else {
      PositiveProduct(q - x, rate);
      Distributes(q - x, x, rate);
    }
  }

  lemma PositiveProduct(a: real, b: real)
    requires a > 0.0 && b > 0.0
    ensures a * b > 0.0
  {
  }

  /** With no call in between, a call is admitted exactly from `RetryAfter` seconds on: not earlier, and always then. */
  lemma RetryAfterIsExact(c: Limits, k: Key, now: real, later: real)
    requires c.Valid() && Sane(c, k) && now <= later
    requires k.Present? ==> k.updatedAt <= now
    ensures Admits(c, k, later) <==> later >= now + RetryAfter(c, k, now)
  {
    if k.Present? {
      ExpiryIsInvisible(c, k, now);
      ExpiryIsInvisible(c, k, later);
      WaitingForOne(c, k, now, later);
    }
  }

  /** The uncapped fill of a bucket. */
  function Fill(c: Limits, tokens: real, seconds: real): (r: real) {
    tokens + seconds * c.rate
  }

  lemma FillAdds(c: Limits, tokens: real, first: real, second: real)
    ensures Fill(c, tokens, first + second) == Fill(c, Fill(c, tokens, first), second)
  {
    Distributes(first, second, c.rate);
  }

  lemma FillsToOne(c: Limits, tokens: real, seconds: real)
    requires c.Valid() && seconds >= 0.0
    ensures Fill(c, tokens, seconds) >= 1.0 <==> (tokens >= 1.0 || seconds >= (1.0 - tokens) / c.rate)
  {
    DivideBound(seconds, 1.0 - tokens, c.rate);
    Scaled(0.0, seconds, c.rate);
  }

  /** Capping at a burst of at least one does not change whether a token is there. */
  lemma CapKeepsOne(c: Limits, raw: real)
    requires c.Valid()
    ensures Capped(c, raw) >= 1.0 <==> raw >= 1.0
    ensures raw < 1.0 ==> Capped(c, raw) == raw
  {
  }

  lemma CappedFillsToOne(c: Limits, raw: real, seconds: real)
    requires c.Valid() && seconds >= 0.0
    ensures Capped(c, Fill(c, raw, seconds)) >= 1.0 <==>
            (Capped(c, raw) >= 1.0 || seconds >= (1.0 - Capped(c, raw)) / c.rate)
  {
    FillsToOne(c, raw, seconds);
    CapKeepsOne(c, raw);
    CapKeepsOne(c, Fill(c, raw, seconds));
  }

  lemma RefilledIsFill(c: Limits, tokens: real, updatedAt: real, now: real)
    requires updatedAt <= now
    ensures Refilled(c, tokens, updatedAt, now) == Capped(c, Fill(c, tokens, now - updatedAt))
  {
    assert Elapsed(updatedAt, now) == now - updatedAt;
  }

  lemma WaitingForOne(c: Limits, k: Key, now: real, later: real)
    requires c.Valid() && k.Present? && k.updatedAt <= now <= later
    ensures var here := Refilled(c, k.tokens, k.updatedAt, now);
            Refilled(c, k.tokens, k.updatedAt, later) >= 1.0 <==>
            (here >= 1.0 || later - now >= (1.0 - here) / c.rate)
  {
    var first, second := now - k.updatedAt, later - now;
    var raw := Fill(c, k.tokens, first);
    RefilledIsFill(c, k.tokens, k.updatedAt, now);
    RefilledIsFill(c, k.tokens, k.updatedAt, later);
    FillAdds(c, k.tokens, first, second);
    assert first + second == later - k.updatedAt;
    CappedFillsToOne(c, raw, second);
  }

  // ---- the clock must not go back ----

  /** As many calls at one instant as the burst allows. */
  function Drain(n: nat, at: real): (times: seq<real>)
    ensures |times| == n && forall i :: 0 <= i < n ==> times[i] == at
  {
    seq(n, i => at)
  }

  lemma {:induction false} AdmittedInTurn(c: Limits, k: Key, first: seq<real>, rest: seq<real>)
    requires c.Valid()
    ensures Admitted(c, k, first + rest) == Admitted(c, k, first) + Admitted(c, After(c, k, first), rest)
    decreases |first|
  {
    if first == [] {
      assert first + rest == rest;
    } else {
      assert (first + rest)[1..] == first[1..] + rest;
      AdmittedInTurn(c, Acquire(c, k, first[0]), first[1..], rest);
    }
  }

  lemma LevelAtOnce(c: Limits, tokens: real, at: real, now: real)
    requires c.Valid() && 0.0 <= tokens <= c.burst as real && now <= at
    ensures Level(c, Stored(c, tokens, at), now) == tokens
  {
    assert Elapsed(at, now) == 0.0;
  }

  lemma {:induction false} DrainFrom(c: Limits, n: nat, at: real)
    requires c.Valid() && n <= c.burst
    ensures Admitted(c, Stored(c, n as real, at), Drain(n, at)) == n
    ensures After(c, Stored(c, n as real, at), Drain(n, at)) == Stored(c, 0.0, at)
    decreases n
  {
    if n > 0 {
      LevelAtOnce(c, n as real, at, at);
      assert Drain(n, at)[1..] == Drain(n - 1, at);
      DrainFrom(c, n - 1, at);
    }
  }

  lemma DrainEmpties(c: Limits, at: real)
    requires c.Valid()
    ensures Admitted(c, Absent, Drain(c.burst, at)) == c.burst
    ensures After(c, Absent, Drain(c.burst, at)) == Stored(c, 0.0, at)
  {
    assert Drain(c.burst, at)[1..] == Drain(c.burst - 1, at);
    DrainFrom(c, c.burst - 1, at);
  }

  /** When a drained bucket is asked at an earlier time, the seconds in between refill a second time. */
  function Regained(c: Limits, a: real, b: real): (later: real)
    requires c.Valid()
  {
    if a - b >= 1.0 / c.rate then a else b + 1.0 / c.rate
  }

  lemma BackwardClockLeaks(c: Limits, a: real, b: real)
    requires c.Valid() && b < a
    ensures var later := Regained(c, a, b);
            && later >= a && (later - a) * c.rate < 1.0
            && Admitted(c, Absent, Drain(c.burst, a) + [b, later]) == c.burst + 1
  {
    var later := Regained(c, a, b);
    DrainEmpties(c, a);
    AdmittedInTurn(c, Absent, Drain(c.burst, a), [b, later]);
    var drained := Stored(c, 0.0, a);
    LevelAtOnce(c, 0.0, a, b);
    var back := Acquire(c, drained, b);
    assert back == Stored(c, 0.0, b);
    RegainsOne(c, b, later);
    assert [b, later][1..] == [later];
    assert Admitted(c, back, [later]) == 1 + Admitted(c, Acquire(c, back, later), [later][1..]);
    ShortOfOne(c, a, b);
  }

  lemma RegainsOne(c: Limits, b: real, later: real)
    requires c.Valid() && later - b >= 1.0 / c.rate
    ensures Admits(c, Stored(c, 0.0, b), later)
  {
    var k := Stored(c, 0.0, b);
    PositiveProduct(1.0 / c.rate, c.rate);
    ExpiryIsInvisible(c, k, later);
    FillsToOne(c, 0.0, later - b);
    CapKeepsOne(c, Fill(c, 0.0, later - b));
    assert Elapsed(b, later) == later - b;
  }

  lemma ShortOfOne(c: Limits, a: real, b: real)
    requires c.Valid() && b < a
    ensures (Regained(c, a, b) - a) * c.rate < 1.0
  {
    if a - b < 1.0 / c.rate {
      PositiveProduct(a - b, c.rate);
      Distributes(Regained(c, a, b) - a, a - b, c.rate);
      QuotientTimes(1.0, c.rate);
    }
  }

  lemma ForwardIsOrdered(n: nat, a: real, b: real, later: real)
    requires a <= b <= later
    ensures Ordered(Drain(n, a) + [b, later])
  {
  }

  lemma ForwardIsBounded(c: Limits, a: real, b: real, later: real)
    requires c.Valid() && a <= b <= later
    ensures Funded(c, Admitted(c, Absent, Drain(c.burst, a) + [b, later]) as real, c.burst as real, later - a)
  {
    var window := Drain(c.burst, a) + [b, later];
    ForwardIsOrdered(c.burst, a, b, later);
    assert window[0] == a && window[|window| - 1] == later;
    WindowFunded(c, Absent, window, later - a);
  }

  /** For every bucket, one reading `b` after a burst at `a` keeps the window bound exactly when the clock did not go
      back. */
  lemma ClockMustNotGoBack(c: Limits, a: real, b: real)
    requires c.Valid()
    ensures b >= a <==>
            forall later :: later >= a && later >= b ==>
              Admitted(c, Absent, Drain(c.burst, a) + [b, later]) as real <= c.burst as real + (later - a) * c.rate
  {
    if b >= a {
      forall later | later >= a && later >= b
        ensures Admitted(c, Absent, Drain(c.burst, a) + [b, later]) as real <= c.burst as real + (later - a) * c.rate
      {
        ForwardIsBounded(c, a, b, later);
      }
    } else {
      BackwardClockLeaks(c, a, b);
      var later := Regained(c, a, b);
      assert Admitted(c, Absent, Drain(c.burst, a) + [b, later]) as real > c.burst as real + (later - a) * c.rate;
    }
  }
}
