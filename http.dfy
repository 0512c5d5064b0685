/** HTTP calls as seen by the fetch loops: a server oracle, the trace of
    limiter waits, requests and sleeps they produce, and the `retry` wrapper
    (REQUEST_RETRY) around a single request. */
module Http {
  import opened Wrappers
  import opened Retry

  /** What a fetch loop does that the outside world sees: a `limiter.wait()`,
      an HTTP request, or a `time.sleep`. */
  datatype Event<Req> = Wait | Send(req: Req) | Sleep(seconds: real)

  /** The server's answer to one request, after `raise_for_status`, `r.json()`
      and pydantic validation: a page, a `RequestException` (connection error,
      error status or undecodable body) or a `ValidationError`. */
  datatype Answer<P> = Got(page: P) | RequestFailed | Invalid

  /** A loop's outcome and the events it produced, in order. */
  datatype Run<T, Req> = Run(result: Result<T, Error>, trace: seq<Event<Req>>)

  /** `items` were collected and `trace` produced before the rest of the loop
      ran: an error discards everything collected. */
  function Then<T, Req>(items: seq<T>, trace: seq<Event<Req>>, rest: Run<seq<T>, Req>): (r: Run<seq<T>, Req>)
    ensures r.trace == trace + rest.trace
    ensures r.result.Success? <==> rest.result.Success?
    ensures rest.result.Success? ==> r.result.value == items + rest.result.value
    ensures rest.result.Failure? ==> r.result == rest.result
  {
    Run(if rest.result.Success? then Success(items + rest.result.value) else rest.result, trace + rest.trace)
  }

  lemma ThenThen<T, Req>(a: seq<T>, ta: seq<Event<Req>>, b: seq<T>, tb: seq<Event<Req>>, rest: Run<seq<T>, Req>)
    ensures Then(a, ta, Then(b, tb, rest)) == Then(a + b, ta + tb, rest)
  {
    if rest.result.Success? {
      assert a + (b + rest.result.value) == (a + b) + rest.result.value;
    }
    assert ta + (tb + rest.trace) == (ta + tb) + rest.trace;
  }

  /** `for item in items: out.extend(work(item))`: results concatenated in item
      order; the first exception ends the loop and discards what was collected. */
  function ForEach<I, T, Req>(work: I -> Run<seq<T>, Req>, items: seq<I>): (r: Run<seq<T>, Req>)
    ensures items == [] ==> r == Run(Success([]), [])
  {
    if items == [] then Run(Success([]), [])
    else
      var first := work(items[0]);
      if first.result.Failure? then first
      else Then(first.result.value, first.trace, ForEach(work, items[1..]))
  }

  /** The loop invariant of every `for item in items` loop: what is left after
      `i` items is the rest of the loop over `items[i..]`. */
  lemma ForEachStep<I, T, Req>(work: I -> Run<seq<T>, Req>, items: seq<I>, i: nat,
                               acc: seq<T>, trace: seq<Event<Req>>)
    requires i < |items|
    ensures var first := work(items[i]);
      Then(acc, trace, ForEach(work, items[i..])) ==
      if first.result.Failure? then Run(first.result, trace + first.trace)
      else Then(acc + first.result.value, trace + first.trace, ForEach(work, items[i + 1..]))
  {
    assert items[i..][1..] == items[i + 1..];
    var first := work(items[i]);
    if first.result.Success? {
      ThenThen(acc, trace, first.result.value, first.trace, ForEach(work, items[i + 1..]));
    }
  }

  /** A loop that has not started yet. */
  lemma ThenNothing<T, Req>(rest: Run<seq<T>, Req>)
    ensures Then([], [], rest) == rest
  {
    if rest.result.Success? {
      assert [] + rest.result.value == rest.result.value;
    }
    assert [] + rest.trace == rest.trace;
  }

  /** A loop that ran to the end: the collected items and the trace are final. */
  lemma ThenDone<T, Req>(acc: seq<T>, trace: seq<Event<Req>>)
    ensures Then(acc, trace, Run(Success([]), [])) == Run(Success(acc), trace)
  {
    assert acc + [] == acc;
    assert trace + [] == trace;
  }

  /** Every item's work succeeded. */
  predicate AllSucceed<I, T, Req>(work: I -> Run<seq<T>, Req>, items: seq<I>) {
    forall i | 0 <= i < |items| :: work(items[i]).result.Success?
  }

  /** The items of every successful piece of work, concatenated in item order. */
  function Collected<I, T, Req>(work: I -> Run<seq<T>, Req>, items: seq<I>): (out: seq<T>)
    ensures items == [] ==> out == []
  {
    if items == [] then []
    else (if work(items[0]).result.Success? then work(items[0]).result.value else []) + Collected(work, items[1..])
  }

  /** The events of every piece of work, concatenated in item order. */
  function Traces<I, T, Req>(work: I -> Run<seq<T>, Req>, items: seq<I>): (out: seq<Event<Req>>)
    ensures items == [] ==> out == []
  {
    if items == [] then [] else work(items[0]).trace + Traces(work, items[1..])
  }

  /** The loop succeeds exactly when every item's work does, and then returns
      the works' results concatenated in item order; otherwise it fails with
      the error of the first failing item, after exactly the work up to and
      including that item. */
  lemma ForEachConcat<I, T, Req>(work: I -> Run<seq<T>, Req>, items: seq<I>)
    ensures ForEach(work, items).result.Success? <==> AllSucceed(work, items)
    ensures AllSucceed(work, items) ==>
      ForEach(work, items) == Run(Success(Collected(work, items)), Traces(work, items))
    ensures !AllSucceed(work, items) ==>
      exists k | 0 <= k < |items| ::
        && AllSucceed(work, items[..k])
        && work(items[k]).result.Failure?
        && ForEach(work, items) == Run(work(items[k]).result, Traces(work, items[..k + 1]))
  {
    ForEachSucceeds(work, items);
    if !AllSucceed(work, items) {
      ForEachFails(work, items);
    }
  }

  lemma {:induction false} ForEachSucceeds<I, T, Req>(work: I -> Run<seq<T>, Req>, items: seq<I>)
    ensures ForEach(work, items).result.Success? <==> AllSucceed(work, items)
    ensures AllSucceed(work, items) ==>
      ForEach(work, items) == Run(Success(Collected(work, items)), Traces(work, items))
    decreases |items|
  {
    if items != [] {
      var rest := items[1..];
      ForEachSucceeds(work, rest);
      assert forall i | 0 <= i < |rest| :: rest[i] == items[i + 1];
      assert AllSucceed(work, items) <==> work(items[0]).result.Success? && AllSucceed(work, rest);
    }
  }

  lemma {:induction false} ForEachFails<I, T, Req>(work: I -> Run<seq<T>, Req>, items: seq<I>)
    requires !AllSucceed(work, items)
    ensures exists k | 0 <= k < |items| ::
        && AllSucceed(work, items[..k])
        && work(items[k]).result.Failure?
        && ForEach(work, items) == Run(work(items[k]).result, Traces(work, items[..k + 1]))
    decreases |items|
  {
    var first := work(items[0]);
    var rest := items[1..];
    assert Traces(work, items[..1]) == first.trace by {
      assert items[..1][1..] == [];
      assert first.trace + [] == first.trace;
    }
    if first.result.Failure? {
      assert AllSucceed(work, items[..0]);
    } else {
      assert !AllSucceed(work, rest) by {
        forall i | 0 <= i < |rest| ensures rest[i] == items[i + 1] { }
      }
      ForEachFails(work, rest);
      var k :| 0 <= k < |rest| && AllSucceed(work, rest[..k]) && work(rest[k]).result.Failure?
        && ForEach(work, rest) == Run(work(rest[k]).result, Traces(work, rest[..k + 1]));
      assert items[..k + 2][1..] == rest[..k + 1];
      assert Traces(work, items[..k + 2]) == first.trace + Traces(work, rest[..k + 1]);
      assert AllSucceed(work, items[..k + 1]) by {
        forall i | 0 <= i < k + 1 ensures work(items[i]).result.Success? {
          if i > 0 {
            assert items[i] == rest[..k][i - 1];
          }
        }
        assert forall i | 0 <= i < k + 1 :: items[..k + 1][i] == items[i];
      }
      assert work(items[k + 1]).result.Failure?;
    }
  }

  /** The requests of a trace, in order. */
  function Sends<Req>(trace: seq<Event<Req>>): (reqs: seq<Req>)
    ensures |reqs| <= |trace|
  {
    if trace == [] then []
    else (if trace[0].Send? then [trace[0].req] else []) + Sends(trace[1..])
  }

  lemma {:induction false} SendsAppend<Req>(a: seq<Event<Req>>, b: seq<Event<Req>>)
    ensures Sends(a + b) == Sends(a) + Sends(b)
    decreases |a|
  {
    if a == [] {
      assert a + b == b;
    } else {
      var head: seq<Req> := if a[0].Send? then [a[0].req] else [];
      assert (a + b)[0] == a[0];
      assert (a + b)[1..] == a[1..] + b;
      SendsAppend(a[1..], b);
      calc {
        Sends(a + b);
        head + Sends(a[1..] + b);
        head + (Sends(a[1..]) + Sends(b));
        (head + Sends(a[1..])) + Sends(b);
      }
    }
  }

  /** Every request is immediately preceded by a limiter wait. */
  predicate PacedSends<Req>(trace: seq<Event<Req>>) {
    forall i | 0 <= i < |trace| && trace[i].Send? :: i > 0 && trace[i - 1].Wait?
  }

  /** No limiter wait at all. */
  predicate NoWaits<Req>(trace: seq<Event<Req>>) {
    forall i | 0 <= i < |trace| :: !trace[i].Wait?
  }

  lemma PacedAppend<Req>(a: seq<Event<Req>>, b: seq<Event<Req>>)
    ensures PacedSends(a) && PacedSends(b) ==> PacedSends(a + b)
  {
    if PacedSends(a) && PacedSends(b) {
    forall i | 0 <= i < |a + b| && (a + b)[i].Send?
      ensures i > 0 && (a + b)[i - 1].Wait?
    {
      if i >= |a| {
        assert (a + b)[i] == b[i - |a|];
        assert i - |a| > 0 && b[i - |a| - 1].Wait?;
        assert (a + b)[i - 1] == b[i - 1 - |a|];
      }
    }
    }
  }

  /** A loop whose every piece of work paces its requests paces them all. */
  lemma {:induction false} ForEachPaced<I, T, Req>(work: I -> Run<seq<T>, Req>, items: seq<I>)
    requires forall i | 0 <= i < |items| :: PacedSends(work(items[i]).trace)
    ensures PacedSends(ForEach(work, items).trace)
    decreases |items|
  {
    if items != [] {
      var first := work(items[0]);
      if first.result.Success? {
        var rest := items[1..];
        assert forall i | 0 <= i < |rest| :: rest[i] == items[i + 1];
        ForEachPaced(work, rest);
        PacedAppend(first.trace, ForEach(work, rest).trace);
      }
    }
  }

  /** The `retry` parameters every retried fetch uses: four delays, then give
      up, on `RequestException`. */
  const REQUEST_RETRY: Schedule := Schedule([0.2, 1.0, 20.0, 60.0], false)

  /** Enough invocations for REQUEST_RETRY to decide by itself. */
  const RETRY_CALLS: nat := 5

  predicate IsRequestError(e: Error) { e == RequestError }

  /** The `j`-th invocation of a retried fetch of `req`. */
  function AttemptOf<Req, P>(server: (Req, nat) -> Answer<P>, req: Req): nat -> Outcome<P, Error> {
    (j: nat) => match server(req, j)
         case Got(p) => Returns(p)
         case RequestFailed => Raises(RequestError)
         case Invalid => Raises(ValidationError)
  }

  /** The events of an invocation log: each invocation is a request, preceded
      by a limiter wait when the fetch is `paced`. */
  function Expand<Req>(log: seq<RetryEvent>, req: Req, paced: bool): (trace: seq<Event<Req>>)
    ensures |Sends(trace)| == CallCount(log)
    ensures paced ==> PacedSends(trace)
    ensures !paced ==> NoWaits(trace)
    ensures forall i | 0 <= i < |Sends(trace)| :: Sends(trace)[i] == req
  {
    if log == [] then []
    else
      var head: seq<Event<Req>> := match log[0]
        case Called => (if paced then [Wait] else []) + [Send(req)]
        case Warned(_) => []
        case Slept(d) => [Sleep(d)];
      var rest := Expand(log[1..], req, paced);
      SendsAppend(head, rest);
      PacedAppend(head, rest);
      head + rest
  }

  /** A fetch of `req` wrapped in `retry(on=RequestException, delays=(0.2, 1,
      20, 60))`. */
  function RetriedCall<Req, P>(server: (Req, nat) -> Answer<P>, req: Req, paced: bool): (r: Run<P, Req>)
    ensures r.result != Failure(OutOfCalls) && r.result != Failure(IndexError)
    ensures 1 <= |Sends(r.trace)| <= RETRY_CALLS
    ensures forall i | 0 <= i < |Sends(r.trace)| :: Sends(r.trace)[i] == req
    ensures paced ==> PacedSends(r.trace)
    ensures !paced ==> NoWaits(r.trace)
  {
    var run := RetrySpec(REQUEST_RETRY, AttemptOf(server, req), IsRequestError, 0, 0, RETRY_CALLS);
    FiniteScheduleFinishes(REQUEST_RETRY, AttemptOf(server, req), IsRequestError, 0, 0, RETRY_CALLS);
    FiniteScheduleCallBounds(REQUEST_RETRY, AttemptOf(server, req), IsRequestError, 0, 0, RETRY_CALLS);
    FetchRaisesFetchErrors(server, req);
    PropagatedWasRaised(REQUEST_RETRY, AttemptOf(server, req), IsRequestError, IsFetchError, 0, 0, RETRY_CALLS);
    var result := match run.result
      case Returned(p) => Success(p)
      case Propagated(e) => Failure(e)
      case IndexErrorRaised => Failure(IndexError)
      case Unfinished => Failure(OutOfCalls);
    Run(result, Expand(run.log, req, paced))
  }

  /** A retried fetch only ever raises a request or a validation error. */
  predicate IsFetchError(e: Error) { e == RequestError || e == ValidationError }

  lemma FetchRaisesFetchErrors<Req, P>(server: (Req, nat) -> Answer<P>, req: Req)
    ensures forall j: nat :: AttemptOf(server, req)(j).Raises? ==> IsFetchError(AttemptOf(server, req)(j).error)
  {
    forall j: nat | AttemptOf(server, req)(j).Raises?
      ensures IsFetchError(AttemptOf(server, req)(j).error)
    {
      match server(req, j)
      case Got(p) =>
      case RequestFailed =>
      case Invalid =>
    }
  }

  /** The retried fetch as a method: a fresh context per call, as the
      decorator's `context.copy()` gives. */
  method RetriedCallM<Req, P>(server: (Req, nat) -> Answer<P>, req: Req, paced: bool) returns (r: Run<P, Req>)
    ensures r == RetriedCall(server, req, paced)
  {
    var template := new RetryContext("fetch", REQUEST_RETRY);
    var run := CallWithRetry(template, AttemptOf(server, req), IsRequestError, RETRY_CALLS);
    var result := match run.result
      case Returned(p) => Success(p)
      case Propagated(e) => Failure(e)
      case IndexErrorRaised => Failure(IndexError)
      case Unfinished => Failure(OutOfCalls);
    r := Run(result, Expand(run.log, req, paced));
  }

  /** A server that answers at once costs one request (after one wait when
      paced) and returns its page. */
  lemma ReliableServerAnswersOnce<Req, P>(server: (Req, nat) -> Answer<P>, req: Req, paced: bool)
    requires server(req, 0).Got?
    ensures RetriedCall(server, req, paced) ==
      Run(Success(server(req, 0).page), (if paced then [Wait] else []) + [Send(req)])
  {
    FirstSuccessIsFinal(REQUEST_RETRY, AttemptOf(server, req), IsRequestError, 0, 0, RETRY_CALLS);
    var log := [Called];
    assert Expand(log, req, paced) == (if paced then [Wait] else []) + [Send(req)] + Expand(log[1..], req, paced);
  }

  /** A validation failure is not retried. */
  lemma InvalidIsNotRetried<Req, P>(server: (Req, nat) -> Answer<P>, req: Req, paced: bool)
    requires server(req, 0).Invalid?
    ensures RetriedCall(server, req, paced).result == Failure(ValidationError)
    ensures |Sends(RetriedCall(server, req, paced).trace)| == 1
  {
    UnretriedErrorPropagates(REQUEST_RETRY, AttemptOf(server, req), IsRequestError, 0, 0, RETRY_CALLS);
  }

  /** A server that keeps failing gets five requests, with sleeps of 0.2, 1,
      20 and 60 seconds between them, and the RequestException escapes. */
  lemma PersistentFailureGivesUp<Req, P>(server: (Req, nat) -> Answer<P>, req: Req, paced: bool)
    requires forall j :: server(req, j).RequestFailed?
    ensures RetriedCall(server, req, paced).result == Failure(RequestError)
    ensures |Sends(RetriedCall(server, req, paced).trace)| == 5
  {
    FiniteScheduleExhausts(REQUEST_RETRY, AttemptOf(server, req), IsRequestError, 0, 0, RETRY_CALLS);
  }
}
