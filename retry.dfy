/** The retry helper of app/helpers/retry_context.py: a delay schedule walked by
    an index, the decision of `SyncAttempt.__exit__`, and the `retry` wrapper
    that re-invokes a call on a fresh copy of the context. */
module Retry {
  import opened Wrappers

  /** A delay schedule. The Python tuple is `delays`, followed by a trailing
      `...` (Ellipsis) when `infinite` holds. */
  datatype Schedule = Schedule(delays: seq<real>, infinite: bool)

  /** `len(self._delays)` of the Python tuple. */
  function PyLength(s: Schedule): nat {
    |s.delays| + if s.infinite then 1 else 0
  }

  /** `_attempts`: the tuple's length, less one when it ends with `...`. */
  function Attempts(s: Schedule): (n: nat)
    ensures n == |s.delays|
  {
    if s.infinite then PyLength(s) - 1 else PyLength(s)
  }

  /** What `get_dalay` produces: a delay, None, or the IndexError that
      `self._delays[-2]` raises on the one-element tuple `(...,)`. */
  datatype DelayStep = Delay(seconds: real) | NoDelay | NoSecondToLast

  /** `get_dalay` as a function of the schedule and the index: the step and
      the new index. */
  function NextDelay(s: Schedule, index: nat): (r: (DelayStep, nat))
    ensures index < |s.delays| ==> r == (Delay(s.delays[index]), index + 1)
    ensures index >= |s.delays| ==> r.1 == index
    ensures index >= |s.delays| && !s.infinite ==> r.0 == NoDelay
    ensures index >= |s.delays| && s.infinite && |s.delays| > 0 ==> r.0 == Delay(s.delays[|s.delays| - 1])
  {
    if index < Attempts(s) then (Delay(s.delays[index]), index + 1)
    else if s.infinite then
      // index -2 of the Python tuple is the last real delay
      (if PyLength(s) >= 2 then Delay(s.delays[PyLength(s) - 2]) else NoSecondToLast, index)
    else (NoDelay, index)
  }

  /** The state of one retry loop. */
  class RetryContext {
    const name: string
    const schedule: Schedule
    var index: nat

    constructor (name: string, schedule: Schedule)
      ensures this.name == name && this.schedule == schedule && index == 0
    {
      this.name := name;
      this.schedule := schedule;
      index := 0;
    }

    /** `copy()`: the same name and schedule, index back at 0. */
    method Copy() returns (c: RetryContext)
      ensures fresh(c)
      ensures c.name == name && c.schedule == schedule && c.index == 0
    {
      c := new RetryContext(name, schedule);
    }

    /** `get_dalay()`: while the budget lasts, return the next delay and move
        on; past it, repeat the last delay forever or return None. */
    method GetDelay() returns (step: DelayStep)
      modifies this
      ensures (step, index) == NextDelay(schedule, old(index))
    {
      if index < Attempts(schedule) {
        step := Delay(schedule.delays[index]);
        index := index + 1;
      } else if schedule.infinite {
        step := if PyLength(schedule) >= 2 then Delay(schedule.delays[PyLength(schedule) - 2]) else NoSecondToLast;
      } else {
        step := NoDelay;
      }
    }

    /** `reset()`: the index goes back to 0; the schedule is a constant. */
    method Reset()
      modifies this
      ensures index == 0
    {
      index := 0;
    }
  }

  /** What leaving a `with attempt:` block does. */
  datatype ExitDecision = Propagate | Suppress(delay: real) | RaiseIndexError

  /** `SyncAttempt.__exit__`. `raised` is None on a normal exit; otherwise it
      says whether the exception is an instance of the context's `on` classes.
      `Suppress(x)` stands for the warning that names the delay `x`, the sleep
      of `x` seconds and the suppression, in that order; `CallWithRetry`
      records the warning and the sleep in its log. */
  method AttemptExit(ctx: RetryContext, raised: Option<bool>) returns (d: ExitDecision)
    modifies ctx
    ensures raised.None? || !raised.value ==> d == Propagate && ctx.index == old(ctx.index)
    ensures raised == Some(true) ==>
      var (step, next) := NextDelay(ctx.schedule, old(ctx.index));
      ctx.index == next &&
      d == match step
           case Delay(x) => Suppress(x)
           case NoDelay => Propagate
           case NoSecondToLast => RaiseIndexError
  {
    if raised.None? || !raised.value {
      return Propagate;
    }
    var step := ctx.GetDelay();
    match step
    case NoDelay => d := Propagate;
    case NoSecondToLast => d := RaiseIndexError;
    case Delay(x) => d := Suppress(x);
  }

  /** One invocation of the wrapped function. */
  datatype Outcome<+T, +E> = Returns(value: T) | Raises(error: E)

  /** How a retried call ends. `Unfinished` only appears when the model's bound
      on invocations runs out (an infinite schedule facing a persistent error). */
  datatype RetryResult<+T, +E> = Returned(value: T) | Propagated(error: E) | IndexErrorRaised | Unfinished

  /** The observable log of a retried call: invocations, the warnings that
      announce a retry with its delay, and sleeps. */
  datatype RetryEvent = Called | Warned(delay: real) | Slept(seconds: real)

  datatype RetryRun<+T, +E> = RetryRun(result: RetryResult<T, E>, log: seq<RetryEvent>)

  /** The `retry` wrapper from the `k`-th invocation on, with the context at
      `index`; `attempt(k)` is what the `k`-th invocation does and `isRetried`
      is the `isinstance(exc, on)` test. At most `fuel` invocations are made. */
  function RetrySpec<T, E>(s: Schedule, attempt: nat -> Outcome<T, E>, isRetried: E -> bool,
                           k: nat, index: nat, fuel: nat): RetryRun<T, E>
    decreases fuel
  {
    if fuel == 0 then RetryRun(Unfinished, [])
    else match attempt(k)
      case Returns(v) => RetryRun(Returned(v), [Called])
      case Raises(e) =>
        if !isRetried(e) then RetryRun(Propagated(e), [Called])
        else
          var (step, next) := NextDelay(s, index);
          match step
          case NoDelay => RetryRun(Propagated(e), [Called])
          case NoSecondToLast => RetryRun(IndexErrorRaised, [Called])
          case Delay(x) =>
            var rest := RetrySpec(s, attempt, isRetried, k + 1, next, fuel - 1);
            RetryRun(rest.result, [Called, Warned(x), Slept(x)] + rest.log)
  }

  /** The `retry` wrapper: `for attempt in context.copy(): with attempt: return
      func()`. The template context is only read, so no budget leaks from one
      call to the next. */
  method CallWithRetry<T, E>(template: RetryContext, attempt: nat -> Outcome<T, E>,
                             isRetried: E -> bool, fuel: nat)
    returns (run: RetryRun<T, E>)
    ensures run == RetrySpec(template.schedule, attempt, isRetried, 0, 0, fuel)
  {
    var ctx := template.Copy();
    var k: nat := 0;
    var log: seq<RetryEvent> := [];
    while k < fuel
      invariant k <= fuel
      invariant ctx.schedule == template.schedule
      invariant RetrySpec(template.schedule, attempt, isRetried, 0, 0, fuel)
             == var rest := RetrySpec(template.schedule, attempt, isRetried, k, ctx.index, fuel - k);
                RetryRun(rest.result, log + rest.log)
      decreases fuel - k
    {
      match attempt(k)
      case Returns(v) =>
        return RetryRun(Returned(v), log + [Called]);
      case Raises(e) =>
        var d := AttemptExit(ctx, Some(isRetried(e)));
        match d
        case Propagate =>
          return RetryRun(Propagated(e), log + [Called]);
        case RaiseIndexError =>
          return RetryRun(IndexErrorRaised, log + [Called]);
        case Suppress(x) =>
          log := log + [Called, Warned(x), Slept(x)];
          k := k + 1;
    }
    run := RetryRun(Unfinished, log);
  }

  /** The number of invocations in a log. */
  function CallCount(log: seq<RetryEvent>): nat {
    if log == [] then 0 else (if log[0].Called? then 1 else 0) + CallCount(log[1..])
  }

  /** The sleeps of a log, in order. */
  function Sleeps(log: seq<RetryEvent>): seq<real> {
    if log == [] then [] else (if log[0].Slept? then [log[0].seconds] else []) + Sleeps(log[1..])
  }

  /** The delays the warnings of a log announce, in order. */
  function Warnings(log: seq<RetryEvent>): seq<real> {
    if log == [] then [] else (if log[0].Warned? then [log[0].delay] else []) + Warnings(log[1..])
  }

  lemma {:induction false} CountsOfPrefix(x: real, log: seq<RetryEvent>)
    ensures CallCount([Called, Warned(x), Slept(x)] + log) == 1 + CallCount(log)
    ensures Sleeps([Called, Warned(x), Slept(x)] + log) == [x] + Sleeps(log)
    ensures Warnings([Called, Warned(x), Slept(x)] + log) == [x] + Warnings(log)
  {
    var l := [Called, Warned(x), Slept(x)] + log;
    var l1 := l[1..];
    var l2 := l1[1..];
    assert l2[1..] == log;
    assert CallCount(l1) == CallCount(l2) == CallCount(log);
    assert Sleeps(l1) == Sleeps(l2) == [x] + Sleeps(log);
    assert Warnings(l1) == [x] + Warnings(l2) && Warnings(l2) == Warnings(log);
  }

  /** In a log, every sleep directly follows the warning that announced its
      delay, and every warning directly precedes that sleep. */
  predicate WarnedBeforeSleeps(log: seq<RetryEvent>) {
    && (forall i | 0 <= i < |log| && log[i].Slept? :: i > 0 && log[i - 1] == Warned(log[i].seconds))
    && (forall i | 0 <= i < |log| && log[i].Warned? :: i + 1 < |log| && log[i + 1] == Slept(log[i].delay))
  }

  /** Every retry the wrapper makes is announced: each sleep of its log comes
      right after a warning naming that delay. */
  lemma {:induction false} RetriesAreWarned<T, E>(s: Schedule, attempt: nat -> Outcome<T, E>,
                                                   isRetried: E -> bool, k: nat, index: nat, fuel: nat)
    ensures WarnedBeforeSleeps(RetrySpec(s, attempt, isRetried, k, index, fuel).log)
    decreases fuel
  {
    var (step, next) := NextDelay(s, index);
    if fuel > 0 && attempt(k).Raises? && isRetried(attempt(k).error) && step.Delay? {
      var x := step.seconds;
      RetryStep(s, attempt, isRetried, k, index, fuel, x, next);
      RetriesAreWarned(s, attempt, isRetried, k + 1, next, fuel - 1);
      var rest := RetrySpec(s, attempt, isRetried, k + 1, next, fuel - 1).log;
      var log := [Called, Warned(x), Slept(x)] + rest;
      forall i | 0 <= i < |log| && log[i].Slept?
        ensures i > 0 && log[i - 1] == Warned(log[i].seconds)
      {
        if i >= 3 { assert log[i] == rest[i - 3]; }
      }
      forall i | 0 <= i < |log| && log[i].Warned?
        ensures i + 1 < |log| && log[i + 1] == Slept(log[i].delay)
      {
        if i >= 3 { assert log[i] == rest[i - 3]; }
      }
    }
  }

  /** A finite schedule facing a call that always fails with a retried error:
      the call is invoked exactly `len(delays) + 1` times, the sleeps are the
      schedule in order, and the last error propagates. */
  lemma FiniteScheduleExhausts<T, E>(s: Schedule, attempt: nat -> Outcome<T, E>,
                                     isRetried: E -> bool, k: nat, index: nat, fuel: nat)
    requires !s.infinite && index <= |s.delays|
    requires forall j :: attempt(j).Raises? && isRetried(attempt(j).error)
    requires fuel > |s.delays| - index
    ensures RetrySpec(s, attempt, isRetried, k, index, fuel).result == Propagated(attempt(k + |s.delays| - index).error)
    ensures CallCount(RetrySpec(s, attempt, isRetried, k, index, fuel).log) == |s.delays| - index + 1
    ensures Sleeps(RetrySpec(s, attempt, isRetried, k, index, fuel).log) == s.delays[index..]
    ensures Warnings(RetrySpec(s, attempt, isRetried, k, index, fuel).log) == s.delays[index..]
  {
    ExhaustedResult(s, attempt, isRetried, k, index, fuel);
    ExhaustedLog(s, attempt, isRetried, k, index, fuel);
  }

  lemma {:induction false} ExhaustedResult<T, E>(s: Schedule, attempt: nat -> Outcome<T, E>,
                                                  isRetried: E -> bool, k: nat, index: nat, fuel: nat)
    requires !s.infinite && index <= |s.delays|
    requires forall j :: attempt(j).Raises? && isRetried(attempt(j).error)
    requires fuel > |s.delays| - index
    ensures RetrySpec(s, attempt, isRetried, k, index, fuel).result == Propagated(attempt(k + |s.delays| - index).error)
    decreases |s.delays| - index
  {
    if index < |s.delays| {
      RetryStep(s, attempt, isRetried, k, index, fuel, s.delays[index], index + 1);
      ExhaustedResult(s, attempt, isRetried, k + 1, index + 1, fuel - 1);
      assert (k + 1) + |s.delays| - (index + 1) == k + |s.delays| - index;
    } else {
      assert k + |s.delays| - index == k;
      assert NextDelay(s, index).0 == NoDelay;
    }
  }

  lemma {:induction false} ExhaustedLog<T, E>(s: Schedule, attempt: nat -> Outcome<T, E>,
                                               isRetried: E -> bool, k: nat, index: nat, fuel: nat)
    requires !s.infinite && index <= |s.delays|
    requires forall j :: attempt(j).Raises? && isRetried(attempt(j).error)
    requires fuel > |s.delays| - index
    ensures CallCount(RetrySpec(s, attempt, isRetried, k, index, fuel).log) == |s.delays| - index + 1
    ensures Sleeps(RetrySpec(s, attempt, isRetried, k, index, fuel).log) == s.delays[index..]
    ensures Warnings(RetrySpec(s, attempt, isRetried, k, index, fuel).log) == s.delays[index..]
    decreases |s.delays| - index
  {
    if index < |s.delays| {
      var x := s.delays[index];
      RetryStep(s, attempt, isRetried, k, index, fuel, x, index + 1);
      ExhaustedLog(s, attempt, isRetried, k + 1, index + 1, fuel - 1);
      var rest := RetrySpec(s, attempt, isRetried, k + 1, index + 1, fuel - 1).log;
      var log := RetrySpec(s, attempt, isRetried, k, index, fuel).log;
      assert log == [Called, Warned(x), Slept(x)] + rest;
      CountsOfPrefix(x, rest);
      assert CallCount(log) == 1 + CallCount(rest);
      assert Sleeps(log) == [x] + Sleeps(rest);
      assert Warnings(log) == [x] + Warnings(rest);
      assert s.delays[index..] == [x] + s.delays[index + 1..];
    } else {
      assert NextDelay(s, index).0 == NoDelay;
      assert RetrySpec(s, attempt, isRetried, k, index, fuel).log == [Called];
      assert CallCount([Called]) == 1;
      assert Sleeps([Called]) == [];
      assert Warnings([Called]) == [];
    }
  }

  /** A finite schedule stops by itself: with one invocation more than it has
      delays left, the model's bound is never what ends the call. */
  lemma {:induction false} FiniteScheduleFinishes<T, E>(s: Schedule, attempt: nat -> Outcome<T, E>,
                                                         isRetried: E -> bool, k: nat, index: nat, fuel: nat)
    requires !s.infinite && index <= |s.delays| && fuel > |s.delays| - index
    ensures !RetrySpec(s, attempt, isRetried, k, index, fuel).result.Unfinished?
    decreases |s.delays| - index
  {
    if index < |s.delays| && attempt(k).Raises? && isRetried(attempt(k).error) {
      RetryStep(s, attempt, isRetried, k, index, fuel, s.delays[index], index + 1);
      FiniteScheduleFinishes(s, attempt, isRetried, k + 1, index + 1, fuel - 1);
    }
  }

  /** A finite schedule never reaches `self._delays[-2]`, so the wrapper never
      raises IndexError, and it invokes the call at least once (given the
      bound allows one) and at most once more than it has delays left. */
  lemma {:induction false} FiniteScheduleCallBounds<T, E>(s: Schedule, attempt: nat -> Outcome<T, E>,
                                                           isRetried: E -> bool, k: nat, index: nat, fuel: nat)
    requires !s.infinite && index <= |s.delays|
    ensures !RetrySpec(s, attempt, isRetried, k, index, fuel).result.IndexErrorRaised?
    ensures fuel > 0 ==> 1 <= CallCount(RetrySpec(s, attempt, isRetried, k, index, fuel).log)
    ensures CallCount(RetrySpec(s, attempt, isRetried, k, index, fuel).log) <= fuel
    ensures CallCount(RetrySpec(s, attempt, isRetried, k, index, fuel).log) <= |s.delays| - index + 1
    decreases fuel
  {
    if fuel > 0 {
      if index < |s.delays| && attempt(k).Raises? && isRetried(attempt(k).error) {
        var x := s.delays[index];
        RetryStep(s, attempt, isRetried, k, index, fuel, x, index + 1);
        FiniteScheduleCallBounds(s, attempt, isRetried, k + 1, index + 1, fuel - 1);
        CountsOfPrefix(x, RetrySpec(s, attempt, isRetried, k + 1, index + 1, fuel - 1).log);
      } else {
        FiniteRetryStops(s, attempt, isRetried, k, index, fuel);
        assert CallCount([Called]) == 1;
      }
    }
  }

  /** Under a finite schedule, an invocation that returns, raises an error
      outside `on`, or raises once the delays are spent is the last. */
  lemma FiniteRetryStops<T, E>(s: Schedule, attempt: nat -> Outcome<T, E>,
                               isRetried: E -> bool, k: nat, index: nat, fuel: nat)
    requires !s.infinite && index <= |s.delays| && fuel > 0
    requires !(index < |s.delays| && attempt(k).Raises? && isRetried(attempt(k).error))
    ensures !RetrySpec(s, attempt, isRetried, k, index, fuel).result.IndexErrorRaised?
    ensures RetrySpec(s, attempt, isRetried, k, index, fuel).log == [Called]
  {
    if attempt(k).Raises? && isRetried(attempt(k).error) {
      assert NextDelay(s, index).0 == NoDelay;
    }
  }

  /** The error a retried call propagates is one some invocation raised: any
      property every raised error has, the propagated one has too. */
  lemma {:induction false} PropagatedWasRaised<T, E>(s: Schedule, attempt: nat -> Outcome<T, E>,
                                                      isRetried: E -> bool, ok: E -> bool,
                                                      k: nat, index: nat, fuel: nat)
    requires forall j: nat :: attempt(j).Raises? ==> ok(attempt(j).error)
    ensures RetrySpec(s, attempt, isRetried, k, index, fuel).result.Propagated? ==>
      ok(RetrySpec(s, attempt, isRetried, k, index, fuel).result.error)
    decreases fuel
  {
    if fuel > 0 && attempt(k).Raises? && isRetried(attempt(k).error) {
      var (step, next) := NextDelay(s, index);
      if step.Delay? {
        RetryStep(s, attempt, isRetried, k, index, fuel, step.seconds, next);
        PropagatedWasRaised(s, attempt, isRetried, ok, k + 1, next, fuel - 1);
      }
    }
  }

  /** The first invocation that returns ends the wrapper: no further call and
      no sleep. */
  lemma FirstSuccessIsFinal<T, E>(s: Schedule, attempt: nat -> Outcome<T, E>, isRetried: E -> bool,
                                  k: nat, index: nat, fuel: nat)
    requires fuel > 0 && attempt(k).Returns?
    ensures RetrySpec(s, attempt, isRetried, k, index, fuel) == RetryRun(Returned(attempt(k).value), [Called])
  {
  }

  /** An error outside the `on` classes is never suppressed: it propagates
      after a single invocation and consumes no delay. */
  lemma UnretriedErrorPropagates<T, E>(s: Schedule, attempt: nat -> Outcome<T, E>, isRetried: E -> bool,
                                       k: nat, index: nat, fuel: nat)
    requires fuel > 0 && attempt(k).Raises? && !isRetried(attempt(k).error)
    ensures RetrySpec(s, attempt, isRetried, k, index, fuel) == RetryRun(Propagated(attempt(k).error), [Called])
  {
  }

  /** Where the index of a fresh context stands after `k` suppressed failures. */
  function IndexAfter(s: Schedule, k: nat): nat {
    if k < |s.delays| then k else |s.delays|
  }

  /** The delay slept after the `j`-th failure under an infinite schedule. */
  function InfiniteDelay(s: Schedule, j: nat): real
    requires |s.delays| > 0
  {
    if j < |s.delays| then s.delays[j] else s.delays[|s.delays| - 1]
  }

  /** The sleeps after failures `k` to `n - 1` under an infinite schedule. */
  function InfiniteDelays(s: Schedule, k: nat, n: nat): (d: seq<real>)
    requires |s.delays| > 0
    ensures |d| == if k <= n then n - k else 0
    ensures forall j: nat | k <= j < n :: d[j - k] == InfiniteDelay(s, j)
    decreases n - k
  {
    if k >= n then [] else [InfiniteDelay(s, k)] + InfiniteDelays(s, k + 1, n)
  }

  /** One suppressed failure: the wrapper sleeps the next delay and carries on
      with the following invocation. */
  lemma RetryStep<T, E>(s: Schedule, attempt: nat -> Outcome<T, E>, isRetried: E -> bool,
                        k: nat, index: nat, fuel: nat, x: real, next: nat)
    requires fuel > 0 && attempt(k).Raises? && isRetried(attempt(k).error)
    requires NextDelay(s, index) == (Delay(x), next)
    ensures var run := RetrySpec(s, attempt, isRetried, k, index, fuel);
            var rest := RetrySpec(s, attempt, isRetried, k + 1, next, fuel - 1);
            run.result == rest.result && run.log == [Called, Warned(x), Slept(x)] + rest.log
  {
  }

  /** An infinite schedule (at least one real delay) retries until the call
      succeeds: a call that fails `n` times and then returns is invoked `n + 1`
      times and sleeps the schedule, then its last delay over and over. */
  lemma {:induction false} InfiniteScheduleRetriesUntilSuccess<T, E>(
    s: Schedule, attempt: nat -> Outcome<T, E>, isRetried: E -> bool, n: nat, k: nat, fuel: nat)
    requires s.infinite && |s.delays| > 0 && k <= n
    requires forall j: nat | j < n :: attempt(j).Raises? && isRetried(attempt(j).error)
    requires attempt(n).Returns?
    requires fuel > n - k
    ensures var run := RetrySpec(s, attempt, isRetried, k, IndexAfter(s, k), fuel);
      && run.result == Returned(attempt(n).value)
      && CallCount(run.log) == n - k + 1
      && Sleeps(run.log) == InfiniteDelays(s, k, n)
      && Warnings(run.log) == InfiniteDelays(s, k, n)
    decreases n - k
  {
    if k < n {
      var x := InfiniteDelay(s, k);
      RetryStep(s, attempt, isRetried, k, IndexAfter(s, k), fuel, x, IndexAfter(s, k + 1));
      InfiniteScheduleRetriesUntilSuccess(s, attempt, isRetried, n, k + 1, fuel - 1);
      CountsOfPrefix(x, RetrySpec(s, attempt, isRetried, k + 1, IndexAfter(s, k + 1), fuel - 1).log);
    } else {
      assert CallCount([Called]) == 1;
      assert Sleeps([Called]) == [];
      assert Warnings([Called]) == [];
    }
  }
}
