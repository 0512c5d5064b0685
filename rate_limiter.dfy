/** The token bucket of app/helpers/sync_rate_limiter.py. The monotonic clock
    is a parameter: every call to `Wait` is given the clock reading it takes. */
module RateLimiting {
  import opened Wrappers

  /** The state of a limiter: its constants, the token count and the clock
      reading of the previous call. */
  datatype Bucket = Bucket(maxCalls: int, period: real, tokens: real, lastTime: real)

  /** What the constructor guarantees of every limiter it returns. */
  predicate ValidBucket(b: Bucket) {
    b.maxCalls > 0 && b.period > 0.0 && 0.0 <= b.tokens <= b.maxCalls as real
  }

  /** Tokens earned per second. */
  function Rate(b: Bucket): real
    requires b.period > 0.0
  {
    b.maxCalls as real / b.period
  }

  /** The token count after the refill at clock reading `now`, capped at
      `maxCalls`. */
  function Refilled(b: Bucket, now: real): (t: real)
    requires ValidBucket(b)
    ensures t <= b.maxCalls as real
    ensures now >= b.lastTime ==> b.tokens <= t
    ensures t < b.maxCalls as real ==> t == b.tokens + (now - b.lastTime) * Rate(b)
  {
    var t := b.tokens + (now - b.lastTime) * Rate(b);
    if t > b.maxCalls as real then b.maxCalls as real else t
  }

  /** One `wait()` at clock reading `now`: the new bucket and the time slept. */
  function WaitStep(b: Bucket, now: real): (r: (Bucket, real))
    requires ValidBucket(b)
    ensures ValidBucket(r.0) && r.0.tokens <= (b.maxCalls - 1) as real
    ensures r.0.maxCalls == b.maxCalls && r.0.period == b.period && r.0.lastTime == now
    ensures Refilled(b, now) >= 1.0 ==> r.1 == 0.0 && r.0.tokens == Refilled(b, now) - 1.0
    ensures Refilled(b, now) < 1.0 ==> r.1 > 0.0 && r.0.tokens == 0.0
    ensures Refilled(b, now) < 1.0 ==> r.1 == (1.0 - Refilled(b, now)) * (b.period / b.maxCalls as real)
  {
    var t := Refilled(b, now);
    var b' := b.(lastTime := now);
    if t < 1.0 then
      SleepRefillsToken(b, 1.0 - t);
      (b'.(tokens := 0.0), (1.0 - t) * (b.period / b.maxCalls as real))
    else (b'.(tokens := t - 1.0), 0.0)
  }

  /** Sleeping `missing * period / maxCalls` earns exactly `missing` tokens. */
  lemma SleepRefillsToken(b: Bucket, missing: real)
    requires b.maxCalls > 0 && b.period > 0.0
    ensures missing * (b.period / b.maxCalls as real) * Rate(b) == missing
  {
    var m := b.maxCalls as real;
    var q, r := b.period / m, m / b.period;
    assert q * m == b.period;
    assert r * b.period == m;
    assert q * r * (m * b.period) == (q * m) * (r * b.period);
    assert q * r == 1.0;
    assert Rate(b) == r;
    assert missing * q * r == missing * (q * r);
    assert missing * (q * r) == missing;
    assert missing * (b.period / b.maxCalls as real) == missing * q;
    assert missing * (b.period / b.maxCalls as real) * Rate(b) == missing * q * r;
  }

  /** The clock reading at which the call that came at `now` returns. */
  function Release(b: Bucket, now: real): real
    requires ValidBucket(b)
  {
    now + WaitStep(b, now).1
  }

  /** Calls to `wait()` at the clock readings `times`, one after another: the
      final bucket and the clock reading at which each call returns. */
  function Releases(b: Bucket, times: seq<real>): (r: (Bucket, seq<real>))
    requires ValidBucket(b)
    ensures ValidBucket(r.0) && |r.1| == |times|
    decreases |times|
  {
    if times == [] then (b, [])
    else
      var rest := Releases(WaitStep(b, times[0]).0, times[1..]);
      (rest.0, [Release(b, times[0])] + rest.1)
  }

  /** `wait()` with the bucket's clock set to when the call returns: a call
      that sleeps has spent the token it waited for at the end of its sleep. */
  function WaitStepCorrected(b: Bucket, now: real): (r: (Bucket, real))
    requires ValidBucket(b)
    ensures ValidBucket(r.0) && r.0.maxCalls == b.maxCalls && r.0.period == b.period
    ensures r.1 == WaitStep(b, now).1 && r.0.tokens == WaitStep(b, now).0.tokens
    ensures r.0.lastTime == now + r.1
  {
    var (b', sleep) := WaitStep(b, now);
    (b'.(lastTime := now + sleep), sleep)
  }

  /** Corrected calls at the clock readings `times`: the final bucket and when
      each call returns. */
  function ReleasesCorrected(b: Bucket, times: seq<real>): (r: (Bucket, seq<real>))
    requires ValidBucket(b)
    ensures ValidBucket(r.0) && |r.1| == |times|
    ensures times != [] ==> r.0.lastTime == r.1[|times| - 1]
    ensures times == [] ==> r.0 == b
    decreases |times|
  {
    if times == [] then (b, [])
    else
      var (b1, sleep) := WaitStepCorrected(b, times[0]);
      var rest := ReleasesCorrected(b1, times[1..]);
      (rest.0, [times[0] + sleep] + rest.1)
  }

  /** The clock reading, in tokens, at which the bucket would have been empty:
      every call moves it on by at least one token. */
  function Credit(b: Bucket): real
    requires b.period > 0.0
  {
    b.lastTime * Rate(b) - b.tokens
  }

  /** `k` calls through by clock reading `last` are within the bucket's
      rate: no more than its tokens plus those earned since its clock. */
  predicate Admits(b: Bucket, last: real, k: nat)
    requires b.period > 0.0
  {
    k as real <= b.tokens + (last - b.lastTime) * Rate(b)
  }

  /** The token bucket's promise, corrected: `k` calls starting from a bucket
      with `tokens` tokens at clock reading `T` have not all returned before
      `T + (k - tokens) * period / maxCalls`; so no more than `tokens` calls
      plus `max_calls` per `period` get through. */
  lemma CorrectedRateBound(b: Bucket, times: seq<real>)
    requires ValidBucket(b) && times != []
    ensures var r := ReleasesCorrected(b, times); Admits(b, r.1[|times| - 1], |times|)
  {
    var r := ReleasesCorrected(b, times);
    SpentTokens(b, times);
    CreditBound(b, r.0, |times|);
    assert r.0.lastTime == r.1[|times| - 1];
  }

  /** A credit moved on by `k` tokens is `k` calls within the rate. */
  lemma CreditBound(b: Bucket, b': Bucket, k: nat)
    requires ValidBucket(b) && ValidBucket(b')
    requires b'.maxCalls == b.maxCalls && b'.period == b.period
    requires Credit(b) + k as real <= Credit(b')
    ensures Admits(b, b'.lastTime, k)
  {
    var rate := Rate(b);
    assert Rate(b') == rate;
    Distribute(b'.lastTime, b.lastTime, rate);
  }

  /** Multiplication distributes over a difference. */
  lemma Distribute(x: real, y: real, c: real)
    ensures (x - y) * c == x * c - y * c
  {
  }

  /** A run of corrected calls moves the bucket's credit on by at least one
      token per call. */
  lemma {:induction false} SpentTokens(b: Bucket, times: seq<real>)
    requires ValidBucket(b)
    ensures var r := ReleasesCorrected(b, times);
      r.0.maxCalls == b.maxCalls && r.0.period == b.period &&
      Credit(b) + |times| as real <= Credit(r.0)
    decreases |times|
  {
    if times != [] {
      var b1 := WaitStepCorrected(b, times[0]).0;
      SpentTokens(b1, times[1..]);
      StepSpends(b, times[0]);
    }
  }

  /** One corrected call spends one token, earned before the call or during
      its sleep. */
  lemma StepSpends(b: Bucket, now: real)
    requires ValidBucket(b)
    ensures Credit(b) + 1.0 <= Credit(WaitStepCorrected(b, now).0)
  {
    var (b1, sleep) := WaitStepCorrected(b, now);
    var t := Refilled(b, now);
    var rate := Rate(b);
    assert Rate(b1) == rate;
    assert t <= b.tokens + (now - b.lastTime) * rate;
    if t < 1.0 { SleepRefillsToken(b, 1.0 - t); }
    assert sleep * rate == if t < 1.0 then 1.0 - t else 0.0;
    Distribute(now, b.lastTime, rate);
    assert b1.lastTime * rate == now * rate + sleep * rate;
  }

  /** The time a call on an empty bucket sleeps for its one token. */
  function TokenTime(b: Bucket): real
    requires ValidBucket(b)
  {
    b.period / b.maxCalls as real
  }

  /** As written, the token a sleeping call waited for is in the bucket again
      for the call that comes when it returns. */
  lemma AsWrittenRefillsSleptToken(b: Bucket, now: real)
    requires ValidBucket(b) && now >= b.lastTime && Refilled(b, now) < 1.0
    ensures Refilled(WaitStep(b, now).0, Release(b, now)) == 1.0 - Refilled(b, now)
  {
    var t := Refilled(b, now);
    var (b1, sleep) := WaitStep(b, now);
    SleepRefillsToken(b, 1.0 - t);
    assert Rate(b1) == Rate(b);
    assert sleep * Rate(b) == 1.0 - t;
    assert Release(b, now) - b1.lastTime == sleep;
    assert b1.tokens + (Release(b, now) - b1.lastTime) * Rate(b1) == 1.0 - t;
  }

  /** Corrected, the bucket is empty when a sleeping call returns. */
  lemma CorrectedSpendsSleptToken(b: Bucket, now: real)
    requires ValidBucket(b) && now >= b.lastTime && Refilled(b, now) < 1.0
    ensures Refilled(WaitStepCorrected(b, now).0, Release(b, now)) == 0.0
  {
    var b1 := WaitStepCorrected(b, now).0;
    assert b1.lastTime == Release(b, now);
    RefilledAtOwnClock(b1);
  }

  /** No time elapsed, nothing refilled. */
  lemma RefilledAtOwnClock(b: Bucket)
    requires ValidBucket(b)
    ensures Refilled(b, b.lastTime) == b.tokens
  {
    assert (b.lastTime - b.lastTime) * Rate(b) == 0.0;
  }

  /** As written, two calls on a bucket just emptied both return one token
      time later: one call more than the bucket earned. */
  lemma AsWrittenDoublesRate(b: Bucket, now: real)
    requires ValidBucket(b) && b.tokens == 0.0 && b.lastTime == now
    ensures var later := now + TokenTime(b);
      && Releases(b, [now, later]).1 == [later, later]
      && !Admits(b, later, 2)
  {
    var later := now + TokenTime(b);
    RefilledAtOwnClock(b);
    SleepRefillsToken(b, 1.0);
    assert Release(b, now) == later;
    AsWrittenRefillsSleptToken(b, now);
    var b1 := WaitStep(b, now).0;
    assert Refilled(b1, later) == 1.0;
    assert Release(b1, later) == later;
    assert [now, later][1..] == [later];
  }

  /** Corrected, the same two calls return one token time apart. */
  lemma CorrectedKeepsRate(b: Bucket, now: real)
    requires ValidBucket(b) && b.tokens == 0.0 && b.lastTime == now
    ensures var later := now + TokenTime(b);
      ReleasesCorrected(b, [now, later]).1 == [later, later + TokenTime(b)]
  {
    var later := now + TokenTime(b);
    RefilledAtOwnClock(b);
    var b1 := WaitStepCorrected(b, now).0;
    assert b1.lastTime == later;
    RefilledAtOwnClock(b1);
    assert WaitStepCorrected(b1, later).1 == TokenTime(b);
    assert [now, later][1..] == [later];
  }

  /** `k` calls to `wait()` at the same clock reading: the final bucket and the
      sleeps, in order. */
  function Burst(b: Bucket, now: real, k: nat): (r: (Bucket, seq<real>))
    requires ValidBucket(b)
    ensures ValidBucket(r.0) && |r.1| == k
    ensures r.0.maxCalls == b.maxCalls && r.0.period == b.period
    decreases k
  {
    if k == 0 then (b, [])
    else
      var (b1, d) := WaitStep(b, now);
      var (b2, ds) := Burst(b1, now, k - 1);
      (b2, [d] + ds)
  }

  /** With `n` whole tokens and no time elapsed, `k <= n` calls do not sleep
      and leave `n - k` tokens. */
  lemma {:induction false} BurstOfWholeTokens(b: Bucket, now: real, n: nat, k: nat)
    requires ValidBucket(b) && b.lastTime == now && b.tokens == n as real && k <= n
    ensures Burst(b, now, k).0.tokens == (n - k) as real
    ensures Burst(b, now, k).0.lastTime == now
    ensures forall i | 0 <= i < k :: Burst(b, now, k).1[i] == 0.0
    decreases k
  {
    if k > 0 {
      var (b1, d) := WaitStep(b, now);
      assert Refilled(b, now) == n as real;
      BurstOfWholeTokens(b1, now, n - 1, k - 1);
    }
  }

  /** From a full bucket, `maxCalls` back-to-back calls never sleep, and the
      call after them sleeps exactly `period / maxCalls`. */
  lemma {:induction false} FullBucketBurst(b: Bucket, now: real)
    requires ValidBucket(b) && b.tokens == b.maxCalls as real && b.lastTime <= now
    ensures var (b1, sleeps) := Burst(b, now, b.maxCalls);
      && (forall i | 0 <= i < b.maxCalls :: sleeps[i] == 0.0)
      && WaitStep(b1, now).1 == b.period / b.maxCalls as real
  {
    var (b1, d) := WaitStep(b, now);
    assert (now - b.lastTime) * Rate(b) >= 0.0 by { NonNegativeProduct(now - b.lastTime, Rate(b)); }
    assert Refilled(b, now) == b.maxCalls as real;
    BurstOfWholeTokens(b1, now, b.maxCalls - 1, b.maxCalls - 1);
    var (b2, ds) := Burst(b1, now, b.maxCalls - 1);
    assert Burst(b, now, b.maxCalls) == (b2, [d] + ds);
    assert Refilled(b2, now) == 0.0;
  }

  lemma NonNegativeProduct(x: real, y: real)
    requires x >= 0.0 && y >= 0.0
    ensures x * y >= 0.0
  {
  }

  /** `RateLimiter`. */
  class RateLimiter {
    const maxCalls: int
    const period: real
    var tokens: real
    var lastTime: real
    /** The sleeps of every `wait()` so far, in order. */
    ghost var sleeps: seq<real>

    function State(): Bucket
      reads this
    {
      Bucket(maxCalls, period, tokens, lastTime)
    }

    ghost predicate Valid()
      reads this
    {
      ValidBucket(State())
    }

    /** `__init__` once its argument check has passed: the bucket starts full. */
    constructor (maxCalls: int, period: real, now: real)
      requires maxCalls > 0 && period > 0.0
      ensures Valid() && State() == Bucket(maxCalls, period, maxCalls as real, now) && sleeps == []
    {
      this.maxCalls := maxCalls;
      this.period := period;
      tokens := maxCalls as real;
      lastTime := now;
      sleeps := [];
    }

    /** `RateLimiter(max_calls, period)`: a ValueError unless both are positive. */
    static method Create(maxCalls: int, period: real, now: real) returns (r: Result<RateLimiter, Error>)
      ensures r.Failure? <==> maxCalls <= 0 || period <= 0.0
      ensures r.Failure? ==> r.error == ValueError
      ensures r.Success? ==> fresh(r.value) && r.value.Valid() && r.value.sleeps == []
                             && r.value.State() == Bucket(maxCalls, period, maxCalls as real, now)
    {
      if maxCalls <= 0 || period <= 0.0 {
        return Failure(ValueError);
      }
      var limiter := new RateLimiter(maxCalls, period, now);
      return Success(limiter);
    }

    /** `wait()` at clock reading `now`; `sleep` is the time it sleeps. */
    method Wait(now: real) returns (sleep: real)
      requires Valid()
      modifies this
      ensures Valid()
      ensures (State(), sleep) == WaitStep(old(State()), now)
      ensures sleeps == old(sleeps) + [sleep]
    {
      ghost var before := State();
      var elapsed := now - lastTime;
      lastTime := now;
      tokens := tokens + elapsed * (maxCalls as real / period);
      if tokens > maxCalls as real {
        tokens := maxCalls as real;
      }
      assert tokens == Refilled(before, now);
      if tokens < 1.0 {
        sleep := (1.0 - tokens) * (period / maxCalls as real);
        tokens := 0.0;
      } else {
        sleep := 0.0;
        tokens := tokens - 1.0;
      }
      sleeps := sleeps + [sleep];
      assert State() == WaitStep(before, now).0;
      assert sleep == WaitStep(before, now).1;
    }
  }
}
