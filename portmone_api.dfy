/** `PortmoneApi` of app/payments/portmone/api.py: one retried `result` call
    per window of at most 31 days. */
module PortmoneApi {
  import opened Wrappers
  import opened Records
  import opened Http
  import opened Windows
  import opened PortmoneSchemas

  /** `MAX_PERIOD_IN_DAYS`: the widest window one call may ask for. */
  const MAX_PERIOD_IN_DAYS: int := 31
  const MAX_PERIOD: int := MAX_PERIOD_IN_DAYS * MICROS_PER_DAY

  /** The `data` of the `result` call; the fixed `"id": "123"` is left out
      and the ISO-formatted dates are the instants they denote. */
  datatype PortmoneReq = PaymentsReq(login: string, password: string, payeeId: Option<int>,
                                     startDate: Instant, endDate: Instant)

  /** What the API object was built with. */
  datatype Credentials = Credentials(login: string, password: string, payeeId: Option<int>)

  /** The gateway: a list of payments, each validated as a `Payment`. */
  type PortmoneServer = (PortmoneReq, nat) -> Answer<seq<Payment>>

  function Request(c: Credentials, w: Window): PortmoneReq {
    PaymentsReq(c.login, c.password, c.payeeId, w.0, w.1)
  }

  /** `fetch_payments(start, end)`: retried on RequestException with delays
      (0.2, 1, 20, 60), a limiter wait before every POST. */
  function FetchPayments(server: PortmoneServer, c: Credentials, w: Window): (r: Run<seq<Payment>, PortmoneReq>)
    ensures 1 <= |Sends(r.trace)| <= RETRY_CALLS
    ensures forall i | 0 <= i < |Sends(r.trace)| :: Sends(r.trace)[i] == Request(c, w)
    ensures PacedSends(r.trace)
  {
    RetriedCall(server, Request(c, w), true)
  }

  function WindowWork(server: PortmoneServer, c: Credentials): Window -> Run<seq<Payment>, PortmoneReq> {
    w => FetchPayments(server, c, w)
  }

  /** `fetch_all_payments(start, end)`: the windows of
      `datetime_range_gen(start, end, 31 days)`, fetched in order, their
      payments concatenated; the first failing window ends the loop. */
  function FetchAllPayments(server: PortmoneServer, c: Credentials, start: Instant, end: Instant)
    : (r: Run<seq<Payment>, PortmoneReq>)
    ensures start >= end ==> r == Run(Success([]), [])
    ensures var ws := RangeGen(start, end, MAX_PERIOD);
      && (r.result.Success? <==> AllSucceed(WindowWork(server, c), ws))
      && (r.result.Success? ==> r == Run(Success(Collected(WindowWork(server, c), ws)), Traces(WindowWork(server, c), ws)))
    ensures PacedSends(r.trace)
  {
    var ws := RangeGen(start, end, MAX_PERIOD);
    RangeGenEmpty(start, end, MAX_PERIOD);
    ForEachConcat(WindowWork(server, c), ws);
    ForEachPaced(WindowWork(server, c), ws);
    ForEach(WindowWork(server, c), ws)
  }

  /** `fetch_all_payments` as the source runs it: a loop over the generator. */
  method FetchAllPaymentsLoop(server: PortmoneServer, c: Credentials, start: Instant, end: Instant)
    returns (r: Run<seq<Payment>, PortmoneReq>)
    ensures r == FetchAllPayments(server, c, start, end)
  {
    var ws := RangeGenLoop(start, end, MAX_PERIOD);
    var work := WindowWork(server, c);
    var payments: seq<Payment> := [];
    var trace: seq<Event<PortmoneReq>> := [];
    assert ws[0..] == ws;
    ThenNothing(ForEach(work, ws));
    for i := 0 to |ws|
      invariant FetchAllPayments(server, c, start, end) == Then(payments, trace, ForEach(work, ws[i..]))
    {
      ForEachStep(work, ws, i, payments, trace);
      var page := RetriedCallM(server, Request(c, ws[i]), true);
      if page.result.Failure? {
        return Run(page.result, trace + page.trace);
      }
      payments, trace := payments + page.result.value, trace + page.trace;
    }
    assert ws[|ws|..] == [];
    ThenDone(payments, trace);
    return Run(Success(payments), trace);
  }

  // ---------------------------------------------------------------------
  // Against a gateway that answers every window at once

  /** The gateway answers every window's first request with a page. */
  predicate AnswersAtOnce(server: PortmoneServer, c: Credentials, ws: seq<Window>) {
    forall i | 0 <= i < |ws| :: server(Request(c, ws[i]), 0).Got?
  }

  /** One wait and one request per window, in window order. */
  function OneRequestEach(c: Credentials, ws: seq<Window>): (trace: seq<Event<PortmoneReq>>)
    ensures |trace| == 2 * |ws|
  {
    if ws == [] then [] else [Wait, Send(Request(c, ws[0]))] + OneRequestEach(c, ws[1..])
  }

  /** The first answers' payments, in window order. */
  function FirstPages(server: PortmoneServer, c: Credentials, ws: seq<Window>): seq<Payment>
    requires AnswersAtOnce(server, c, ws)
  {
    if ws == [] then []
    else server(Request(c, ws[0]), 0).page + FirstPages(server, c, ws[1..])
  }

  lemma {:induction false} AnswersAtOnceLoop(server: PortmoneServer, c: Credentials, ws: seq<Window>)
    requires AnswersAtOnce(server, c, ws)
    ensures ForEach(WindowWork(server, c), ws) == Run(Success(FirstPages(server, c, ws)), OneRequestEach(c, ws))
    decreases |ws|
  {
    if ws != [] {
      var rest := ws[1..];
      assert forall i | 0 <= i < |rest| :: rest[i] == ws[i + 1];
      ReliableServerAnswersOnce(server, Request(c, ws[0]), true);
      AnswersAtOnceLoop(server, c, rest);
    }
  }

  /** Against a gateway that answers at once, `fetch_all_payments` asks for
      each window of `datetime_range_gen` exactly once, in order, each
      request behind a wait, and returns the pages concatenated in window
      order; there are ⌈(end − start) / 31 days⌉ requests. */
  lemma OneRequestPerWindow(server: PortmoneServer, c: Credentials, start: Instant, end: Instant)
    requires AnswersAtOnce(server, c, RangeGen(start, end, MAX_PERIOD))
    ensures var ws := RangeGen(start, end, MAX_PERIOD);
      FetchAllPayments(server, c, start, end) == Run(Success(FirstPages(server, c, ws)), OneRequestEach(c, ws))
    ensures start < end ==>
      var n := |RangeGen(start, end, MAX_PERIOD)|;
      (n - 1) * MAX_PERIOD < end - start <= n * MAX_PERIOD
  {
    AnswersAtOnceLoop(server, c, RangeGen(start, end, MAX_PERIOD));
    if start < end {
      RangeGenCount(start, end, MAX_PERIOD);
    }
  }
}
