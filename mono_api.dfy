/** `MonoApi` of app/payments/mono/api.py: the client-info call and the
    statement walk, backward over windows of at most MAX_PERIOD_SECONDS, with
    500-item continuation and HTTP 429 handling. Times are Unix seconds. */
module MonoApi {
  import opened Wrappers
  import opened Http
  import opened MonoSchemas

  const LIMIT: nat := 500
  const MAX_PERIOD_SECONDS: int := 2682000
  /** The sleep after a 429 that carries no Retry-After header. */
  const DEFAULT_RETRY_AFTER: real := 60.0

  /** The requests Monobank sees; the token travels in a header. */
  datatype MonoReq =
    | ClientInfoReq(token: string)
    | StatementReq(token: string, accountId: Option<string>, from: int, to: int)

  /** A Retry-After header: absent, a number of seconds, or text `float()`
      rejects. */
  datatype RetryAfter = Absent | Seconds(s: real) | Unparsable

  /** The server's answer, after `raise_for_status`, `r.json()` and
      validation. A 429 is reported before `raise_for_status` runs. */
  datatype MonoAnswer =
    | Info(info: ClientInfo)
    | Statement(items: seq<Transaction>)
    | TooManyRequests(retryAfter: RetryAfter)
    | Failed
    | Invalid

  /** The server: its answer to a request sent for the `attempt`-th time in a
      row. */
  type MonoServer = (MonoReq, nat) -> MonoAnswer

  /** `fetch_client_info`: one paced GET; a 429 is an HTTPError here. An
      answer of the wrong shape fails validation. */
  function FetchClientInfo(server: MonoServer, token: string): (r: Run<ClientInfo, MonoReq>)
    ensures r.trace == [Wait, Send(ClientInfoReq(token))]
    ensures r.result.Success? <==> server(ClientInfoReq(token), 0).Info?
  {
    var pre := [Wait, Send(ClientInfoReq(token))];
    match server(ClientInfoReq(token), 0)
    case Info(info) => Run(Success(info), pre)
    case TooManyRequests(_) => Run(Failure(RequestError), pre)
    case Failed => Run(Failure(RequestError), pre)
    case Statement(_) => Run(Failure(ValidationError), pre)
    case Invalid => Run(Failure(ValidationError), pre)
  }

  /** The window a chunk starts from: at most MAX_PERIOD_SECONDS back from
      `currentTo`, never before `from`. */
  function ChunkFrom(from: int, currentTo: int): (f: int)
    ensures from <= f && currentTo - MAX_PERIOD_SECONDS <= f
    ensures f == from || f == currentTo - MAX_PERIOD_SECONDS
  {
    Max(from, currentTo - MAX_PERIOD_SECONDS)
  }

  /** The outer loop of `fetch_all_transactions` at upper bound `currentTo`;
      at most `fuel` more requests are made. */
  function Walk(server: MonoServer, token: string, account: Option<string>, from: int,
                currentTo: int, fuel: nat): Run<seq<Transaction>, MonoReq>
    decreases fuel, 1
  {
    if currentTo <= from then Run(Success([]), [])
    else Chunk(server, token, account, from, ChunkFrom(from, currentTo), currentTo, 0, fuel)
  }

  /** The inner loop: the request for `[chunkFrom, currentTo]`, sent for the
      `attempt`-th time in a row. */
  function Chunk(server: MonoServer, token: string, account: Option<string>, from: int,
                 chunkFrom: int, currentTo: int, attempt: nat, fuel: nat): Run<seq<Transaction>, MonoReq>
    decreases fuel, 0
  {
    if fuel == 0 then Run(Failure(OutOfCalls), [])
    else
      var req := StatementReq(token, account, chunkFrom, currentTo);
      var pre := [Wait, Send(req)];
      match server(req, attempt)
      case Statement(items) =>
        if |items| < LIMIT || items[|items| - 1].time <= chunkFrom then
          Then(items, pre, Walk(server, token, account, from, chunkFrom, fuel - 1))
        else
          Then(items, pre, Chunk(server, token, account, from, chunkFrom, items[|items| - 1].time, 0, fuel - 1))
      case TooManyRequests(ra) =>
        (match ra
         case Unparsable => Run(Failure(ValueError), pre)
         case Absent => Then([], pre + [Sleep(DEFAULT_RETRY_AFTER)],
                             Chunk(server, token, account, from, chunkFrom, currentTo, attempt + 1, fuel - 1))
         case Seconds(s) =>
           // time.sleep rejects a negative length with ValueError
           if s < 0.0 then Run(Failure(ValueError), pre)
           else Then([], pre + [Sleep(s)],
                     Chunk(server, token, account, from, chunkFrom, currentTo, attempt + 1, fuel - 1)))
      case Failed => Run(Failure(RequestError), pre)
      case Info(_) => Run(Failure(ValidationError), pre)
      case Invalid => Run(Failure(ValidationError), pre)
  }

  /** `fetch_all_transactions(account_id, from, to)` with the window already in
      Unix seconds. An empty window costs no request. */
  function FetchAll(server: MonoServer, token: string, account: Option<string>, from: int, to: int,
                    fuel: nat): (r: Run<seq<Transaction>, MonoReq>)
    ensures to <= from ==> r == Run(Success([]), [])
  {
    Walk(server, token, account, from, to, fuel)
  }

  /** What ends a chunk with an error: a 429 whose Retry-After `float()`
      rejects or `time.sleep` rejects, a failed request, or an answer that is
      not a statement. */
  predicate Fatal(answer: MonoAnswer) {
    || answer.Failed? || answer.Info? || answer.Invalid?
    || (answer.TooManyRequests? && (answer.retryAfter.Unparsable?
          || (answer.retryAfter.Seconds? && answer.retryAfter.s < 0.0)))
  }

  function FatalError(answer: MonoAnswer): Error
    requires Fatal(answer)
  {
    if answer.Failed? then RequestError
    else if answer.TooManyRequests? then ValueError
    else ValidationError
  }

  /** The sleep after a 429 the loop survives. */
  function RetryDelay(ra: RetryAfter): real
    requires !ra.Unparsable?
  {
    if ra.Seconds? then ra.s else DEFAULT_RETRY_AFTER
  }

  /** The inner loop's step on a statement page. */
  lemma ChunkOnStatement(server: MonoServer, token: string, account: Option<string>, from: int,
                         chunkFrom: int, currentTo: int, attempt: nat, fuel: nat,
                         acc: seq<Transaction>, trace: seq<Event<MonoReq>>)
    requires fuel > 0
    requires server(StatementReq(token, account, chunkFrom, currentTo), attempt).Statement?
    ensures var req := StatementReq(token, account, chunkFrom, currentTo);
      var page := server(req, attempt).items;
      Then(acc, trace, Chunk(server, token, account, from, chunkFrom, currentTo, attempt, fuel)) ==
      Then(acc + page, trace + [Wait, Send(req)],
           if |page| < LIMIT || page[|page| - 1].time <= chunkFrom
           then Walk(server, token, account, from, chunkFrom, fuel - 1)
           else Chunk(server, token, account, from, chunkFrom, page[|page| - 1].time, 0, fuel - 1))
  {
    var req := StatementReq(token, account, chunkFrom, currentTo);
    var page := server(req, attempt).items;
    ThenThen(acc, trace, page, [Wait, Send(req)],
             if |page| < LIMIT || page[|page| - 1].time <= chunkFrom
             then Walk(server, token, account, from, chunkFrom, fuel - 1)
             else Chunk(server, token, account, from, chunkFrom, page[|page| - 1].time, 0, fuel - 1));
  }

  /** The inner loop's step on a 429 it sleeps through. */
  lemma ChunkOnTooMany(server: MonoServer, token: string, account: Option<string>, from: int,
                       chunkFrom: int, currentTo: int, attempt: nat, fuel: nat,
                       acc: seq<Transaction>, trace: seq<Event<MonoReq>>)
    requires fuel > 0
    requires var answer := server(StatementReq(token, account, chunkFrom, currentTo), attempt);
      answer.TooManyRequests? && !Fatal(answer)
    ensures var req := StatementReq(token, account, chunkFrom, currentTo);
      var delay := RetryDelay(server(req, attempt).retryAfter);
      Then(acc, trace, Chunk(server, token, account, from, chunkFrom, currentTo, attempt, fuel)) ==
      Then(acc, trace + [Wait, Send(req), Sleep(delay)],
           Chunk(server, token, account, from, chunkFrom, currentTo, attempt + 1, fuel - 1))
  {
    var req := StatementReq(token, account, chunkFrom, currentTo);
    var delay := RetryDelay(server(req, attempt).retryAfter);
    ThenThen(acc, trace, [], [Wait, Send(req), Sleep(delay)],
             Chunk(server, token, account, from, chunkFrom, currentTo, attempt + 1, fuel - 1));
    assert acc + [] == acc;
  }

  /** The inner loop's step on an answer that ends the fetch. */
  lemma ChunkOnFatal(server: MonoServer, token: string, account: Option<string>, from: int,
                     chunkFrom: int, currentTo: int, attempt: nat, fuel: nat,
                     acc: seq<Transaction>, trace: seq<Event<MonoReq>>)
    requires fuel > 0
    requires Fatal(server(StatementReq(token, account, chunkFrom, currentTo), attempt))
    ensures var req := StatementReq(token, account, chunkFrom, currentTo);
      Then(acc, trace, Chunk(server, token, account, from, chunkFrom, currentTo, attempt, fuel)) ==
      Run(Failure(FatalError(server(req, attempt))), trace + [Wait, Send(req)])
  {
  }

  /** The inner `while True` loop of `fetch_all_transactions`, for one chunk:
      either the chunk is done and the outer loop goes on from `chunkFrom`, or
      the whole fetch ends with `error`. */
  method FetchChunk(server: MonoServer, token: string, account: Option<string>, from: int,
                    chunkFrom: int, chunkTo: int, fuel: nat)
    returns (items: seq<Transaction>, trace: seq<Event<MonoReq>>, error: Option<Error>, left: nat)
    ensures error.None? ==> (left < fuel &&
      Chunk(server, token, account, from, chunkFrom, chunkTo, 0, fuel) ==
      Then(items, trace, Walk(server, token, account, from, chunkFrom, left)))
    ensures error.Some? ==>
      Chunk(server, token, account, from, chunkFrom, chunkTo, 0, fuel) == Run(Failure(error.value), trace)
  {
    items, trace, left := [], [], fuel;
    var currentTo := chunkTo;
    var attempt: nat := 0;
    ThenNothing(Chunk(server, token, account, from, chunkFrom, currentTo, attempt, left));
    while true
      invariant left <= fuel
      invariant Chunk(server, token, account, from, chunkFrom, chunkTo, 0, fuel) ==
        Then(items, trace, Chunk(server, token, account, from, chunkFrom, currentTo, attempt, left))
      decreases left
    {
      if left == 0 {
        return items, trace, Some(OutOfCalls), 0;
      }
      var req := StatementReq(token, account, chunkFrom, currentTo);
      var answer := server(req, attempt);
      if Fatal(answer) {
        ChunkOnFatal(server, token, account, from, chunkFrom, currentTo, attempt, left, items, trace);
        return items, trace + [Wait, Send(req)], Some(FatalError(answer)), left - 1;
      } else if answer.TooManyRequests? {
        ChunkOnTooMany(server, token, account, from, chunkFrom, currentTo, attempt, left, items, trace);
        trace, left, attempt := trace + [Wait, Send(req), Sleep(RetryDelay(answer.retryAfter))], left - 1, attempt + 1;
      } else {
        ChunkOnStatement(server, token, account, from, chunkFrom, currentTo, attempt, left, items, trace);
        var page := answer.items;
        items, trace, left := items + page, trace + [Wait, Send(req)], left - 1;
        if |page| < LIMIT || page[|page| - 1].time <= chunkFrom {
          return items, trace, None, left;
        }
        currentTo, attempt := page[|page| - 1].time, 0;
      }
    }
  }

  /** The outer loop of `fetch_all_transactions`: chunk after chunk, backward
      from `to` until `from` is reached. */
  method FetchAllTransactions(server: MonoServer, token: string, account: Option<string>,
                              from: int, to: int, fuel: nat) returns (r: Run<seq<Transaction>, MonoReq>)
    ensures r == FetchAll(server, token, account, from, to, fuel)
  {
    var all: seq<Transaction> := [];
    var trace: seq<Event<MonoReq>> := [];
    var currentTo := to;
    var left := fuel;
    ThenNothing(Walk(server, token, account, from, currentTo, left));
    while currentTo > from
      invariant Walk(server, token, account, from, to, fuel) == Then(all, trace, Walk(server, token, account, from, currentTo, left))
      decreases left
    {
      var chunkFrom := Max(from, currentTo - MAX_PERIOD_SECONDS);
      var items, chunkTrace, error, left' := FetchChunk(server, token, account, from, chunkFrom, currentTo, left);
      if error.Some? {
        return Run(Failure(error.value), trace + chunkTrace);
      }
      ThenThen(all, trace, items, chunkTrace, Walk(server, token, account, from, chunkFrom, left'));
      all, trace, left, currentTo := all + items, trace + chunkTrace, left', chunkFrom;
    }
    ThenDone(all, trace);
    return Run(Success(all), trace);
  }

  // ---------------------------------------------------------------------
  // Properties of the walk

  /** `limiter.wait()` precedes every request. */
  lemma {:induction false} WalkIsPaced(server: MonoServer, token: string, account: Option<string>,
                                       from: int, currentTo: int, fuel: nat)
    ensures PacedSends(Walk(server, token, account, from, currentTo, fuel).trace)
    decreases fuel, 1
  {
    if currentTo > from {
      ChunkIsPaced(server, token, account, from, ChunkFrom(from, currentTo), currentTo, 0, fuel);
    }
  }

  lemma {:induction false} ChunkIsPaced(server: MonoServer, token: string, account: Option<string>, from: int,
                                        chunkFrom: int, currentTo: int, attempt: nat, fuel: nat)
    ensures PacedSends(Chunk(server, token, account, from, chunkFrom, currentTo, attempt, fuel).trace)
    decreases fuel, 0
  {
    if fuel > 0 {
      var answer := server(StatementReq(token, account, chunkFrom, currentTo), attempt);
      if answer.Statement? {
        var items := answer.items;
        if |items| < LIMIT || items[|items| - 1].time <= chunkFrom {
          WalkIsPaced(server, token, account, from, chunkFrom, fuel - 1);
        } else {
          ChunkIsPaced(server, token, account, from, chunkFrom, items[|items| - 1].time, 0, fuel - 1);
        }
      } else if !Fatal(answer) {
        ChunkIsPaced(server, token, account, from, chunkFrom, currentTo, attempt + 1, fuel - 1);
      }
      ChunkPacedStep(server, token, account, from, chunkFrom, currentTo, attempt, fuel);
    }
  }

  /** One round of the inner loop is paced, given that what follows it is. */
  lemma ChunkPacedStep(server: MonoServer, token: string, account: Option<string>, from: int,
                       chunkFrom: int, currentTo: int, attempt: nat, fuel: nat)
    requires fuel > 0
    requires var answer := server(StatementReq(token, account, chunkFrom, currentTo), attempt);
      && (answer.Statement? && (|answer.items| < LIMIT || answer.items[|answer.items| - 1].time <= chunkFrom) ==>
            PacedSends(Walk(server, token, account, from, chunkFrom, fuel - 1).trace))
      && (answer.Statement? && !(|answer.items| < LIMIT || answer.items[|answer.items| - 1].time <= chunkFrom) ==>
            PacedSends(Chunk(server, token, account, from, chunkFrom, answer.items[|answer.items| - 1].time, 0, fuel - 1).trace))
      && (answer.TooManyRequests? && !Fatal(answer) ==>
            PacedSends(Chunk(server, token, account, from, chunkFrom, currentTo, attempt + 1, fuel - 1).trace))
    ensures PacedSends(Chunk(server, token, account, from, chunkFrom, currentTo, attempt, fuel).trace)
  {
    var req := StatementReq(token, account, chunkFrom, currentTo);
    var pre: seq<Event<MonoReq>> := [Wait, Send(req)];
    var answer := server(req, attempt);
    assert PacedSends(pre);
    ChunkTrace(server, token, account, from, chunkFrom, currentTo, attempt, fuel);
    if answer.Statement? {
      var items := answer.items;
      if |items| < LIMIT || items[|items| - 1].time <= chunkFrom {
        PacedAppend(pre, Walk(server, token, account, from, chunkFrom, fuel - 1).trace);
      } else {
        PacedAppend(pre, Chunk(server, token, account, from, chunkFrom, items[|items| - 1].time, 0, fuel - 1).trace);
      }
    } else if !Fatal(answer) {
      var step := pre + [Sleep(RetryDelay(answer.retryAfter))];
      assert PacedSends(step);
      PacedAppend(step, Chunk(server, token, account, from, chunkFrom, currentTo, attempt + 1, fuel - 1).trace);
    }
  }

  /** A server that answers each statement request with items no later than
      the request's upper bound, as the statement endpoint promises. */
  ghost predicate WellBehaved(server: MonoServer) {
    forall req: MonoReq, attempt: nat :: server(req, attempt).Statement? && req.StatementReq? ==>
      forall i | 0 <= i < |server(req, attempt).items| :: server(req, attempt).items[i].time <= req.to
  }

  /** A statement request inside `[from, to]`, no wider than
      MAX_PERIOD_SECONDS and not empty. */
  predicate InWindow(req: MonoReq, from: int, to: int) {
    req.StatementReq? && from <= req.from < req.to <= to && req.to - req.from <= MAX_PERIOD_SECONDS
  }

  predicate AllInWindow(trace: seq<Event<MonoReq>>, from: int, to: int) {
    forall i | 0 <= i < |Sends(trace)| :: InWindow(Sends(trace)[i], from, to)
  }

  lemma AllInWindowAppend(a: seq<Event<MonoReq>>, b: seq<Event<MonoReq>>, from: int, to: int)
    requires AllInWindow(a, from, to) && AllInWindow(b, from, to)
    ensures AllInWindow(a + b, from, to)
  {
    SendsAppend(a, b);
    forall i | 0 <= i < |Sends(a + b)|
      ensures InWindow(Sends(a + b)[i], from, to)
    {
      if i >= |Sends(a)| {
        assert Sends(a + b)[i] == Sends(b)[i - |Sends(a)|];
      } else {
        assert Sends(a + b)[i] == Sends(a)[i];
      }
    }
  }

  /** Against a well-behaved server, every request of the walk asks for a
      non-empty window inside `[from, to]` that is at most
      MAX_PERIOD_SECONDS wide. */
  lemma {:induction false} WalkStaysInWindow(server: MonoServer, token: string, account: Option<string>,
                                             from: int, to: int, currentTo: int, fuel: nat)
    requires WellBehaved(server) && currentTo <= to
    ensures AllInWindow(Walk(server, token, account, from, currentTo, fuel).trace, from, to)
    decreases fuel, 1
  {
    if currentTo > from {
      ChunkStaysInWindow(server, token, account, from, to, ChunkFrom(from, currentTo), currentTo, 0, fuel);
    }
  }

  lemma {:induction false} ChunkStaysInWindow(server: MonoServer, token: string, account: Option<string>,
                                              from: int, to: int, chunkFrom: int, currentTo: int,
                                              attempt: nat, fuel: nat)
    requires WellBehaved(server)
    requires from <= chunkFrom < currentTo <= to && currentTo - chunkFrom <= MAX_PERIOD_SECONDS
    ensures AllInWindow(Chunk(server, token, account, from, chunkFrom, currentTo, attempt, fuel).trace, from, to)
    decreases fuel, 0
  {
    if fuel > 0 {
      var req := StatementReq(token, account, chunkFrom, currentTo);
      var answer := server(req, attempt);
      if answer.Statement? {
        var items := answer.items;
        if |items| < LIMIT || items[|items| - 1].time <= chunkFrom {
          WalkStaysInWindow(server, token, account, from, to, chunkFrom, fuel - 1);
        } else {
          var next := items[|items| - 1].time;
          assert next <= currentTo by { assert req.StatementReq? && server(req, attempt).Statement?; }
          ChunkStaysInWindow(server, token, account, from, to, chunkFrom, next, 0, fuel - 1);
        }
      } else if !Fatal(answer) {
        ChunkStaysInWindow(server, token, account, from, to, chunkFrom, currentTo, attempt + 1, fuel - 1);
      }
      ChunkWindowStep(server, token, account, from, to, chunkFrom, currentTo, attempt, fuel);
    }
  }

  /** One round of the inner loop keeps the walk in the window, given that
      what follows it does. */
  lemma ChunkWindowStep(server: MonoServer, token: string, account: Option<string>,
                        from: int, to: int, chunkFrom: int, currentTo: int, attempt: nat, fuel: nat)
    requires fuel > 0
    requires from <= chunkFrom < currentTo <= to && currentTo - chunkFrom <= MAX_PERIOD_SECONDS
    requires var answer := server(StatementReq(token, account, chunkFrom, currentTo), attempt);
      && (answer.Statement? && (|answer.items| < LIMIT || answer.items[|answer.items| - 1].time <= chunkFrom) ==>
            AllInWindow(Walk(server, token, account, from, chunkFrom, fuel - 1).trace, from, to))
      && (answer.Statement? && !(|answer.items| < LIMIT || answer.items[|answer.items| - 1].time <= chunkFrom) ==>
            AllInWindow(Chunk(server, token, account, from, chunkFrom, answer.items[|answer.items| - 1].time, 0, fuel - 1).trace, from, to))
      && (answer.TooManyRequests? && !Fatal(answer) ==>
            AllInWindow(Chunk(server, token, account, from, chunkFrom, currentTo, attempt + 1, fuel - 1).trace, from, to))
    ensures AllInWindow(Chunk(server, token, account, from, chunkFrom, currentTo, attempt, fuel).trace, from, to)
  {
    var req := StatementReq(token, account, chunkFrom, currentTo);
    var pre: seq<Event<MonoReq>> := [Wait, Send(req)];
    var answer := server(req, attempt);
    RequestInWindow(req, from, to);
    ChunkTrace(server, token, account, from, chunkFrom, currentTo, attempt, fuel);
    if answer.Statement? {
      var items := answer.items;
      if |items| < LIMIT || items[|items| - 1].time <= chunkFrom {
        AllInWindowAppend(pre, Walk(server, token, account, from, chunkFrom, fuel - 1).trace, from, to);
      } else {
        AllInWindowAppend(pre, Chunk(server, token, account, from, chunkFrom, items[|items| - 1].time, 0, fuel - 1).trace, from, to);
      }
    } else if !Fatal(answer) {
      var delay := RetryDelay(answer.retryAfter);
      SleepInWindow(pre, delay, from, to);
      AllInWindowAppend(pre + [Sleep(delay)], Chunk(server, token, account, from, chunkFrom, currentTo, attempt + 1, fuel - 1).trace, from, to);
    }
  }

  /** The events of one round of the inner loop, ahead of the rest of the
      walk. */
  lemma ChunkTrace(server: MonoServer, token: string, account: Option<string>, from: int,
                   chunkFrom: int, currentTo: int, attempt: nat, fuel: nat)
    requires fuel > 0
    ensures var req := StatementReq(token, account, chunkFrom, currentTo);
      var answer := server(req, attempt);
      var trace := Chunk(server, token, account, from, chunkFrom, currentTo, attempt, fuel).trace;
      && (Fatal(answer) ==> trace == [Wait, Send(req)])
      && (answer.TooManyRequests? && !Fatal(answer) ==>
            trace == [Wait, Send(req), Sleep(RetryDelay(answer.retryAfter))]
                     + Chunk(server, token, account, from, chunkFrom, currentTo, attempt + 1, fuel - 1).trace)
      && (answer.Statement? && (|answer.items| < LIMIT || answer.items[|answer.items| - 1].time <= chunkFrom) ==>
            trace == [Wait, Send(req)] + Walk(server, token, account, from, chunkFrom, fuel - 1).trace)
      && (answer.Statement? && !(|answer.items| < LIMIT || answer.items[|answer.items| - 1].time <= chunkFrom) ==>
            trace == [Wait, Send(req)]
                     + Chunk(server, token, account, from, chunkFrom, answer.items[|answer.items| - 1].time, 0, fuel - 1).trace)
  {
    var req := StatementReq(token, account, chunkFrom, currentTo);
    var answer := server(req, attempt);
    if answer.TooManyRequests? && !Fatal(answer) {
      var pre: seq<Event<MonoReq>> := [Wait, Send(req)];
      assert pre + [Sleep(RetryDelay(answer.retryAfter))] == [Wait, Send(req), Sleep(RetryDelay(answer.retryAfter))];
    }
  }

  lemma RequestInWindow(req: MonoReq, from: int, to: int)
    requires InWindow(req, from, to)
    ensures AllInWindow([Wait, Send(req)], from, to)
  {
    var pre: seq<Event<MonoReq>> := [Wait, Send(req)];
    assert pre[1..] == [Send(req)];
    assert pre[1..][1..] == [];
  }

  lemma SleepInWindow(pre: seq<Event<MonoReq>>, delay: real, from: int, to: int)
    requires AllInWindow(pre, from, to)
    ensures AllInWindow(pre + [Sleep(delay)], from, to)
  {
    var sleep: seq<Event<MonoReq>> := [Sleep(delay)];
    assert sleep[1..] == [];
    assert Sends(sleep) == [];
    AllInWindowAppend(pre, sleep, from, to);
  }

  /** `n` answers of 429 without Retry-After: the same request `n` times, each
      followed by a 60-second sleep. */
  function Repeated429(req: MonoReq, n: nat): (trace: seq<Event<MonoReq>>)
    ensures |trace| == 3 * n
  {
    if n == 0 then [] else [Wait, Send(req), Sleep(DEFAULT_RETRY_AFTER)] + Repeated429(req, n - 1)
  }

  /** On 429 the same request is repeated, with no limit on the repetitions:
      `n` refusals in a row cost `n` sleeps of DEFAULT_RETRY_AFTER seconds and
      collect nothing, then the walk carries on from the same request. */
  lemma {:induction false} TooManyRequestsRepeatsRequest(server: MonoServer, token: string, account: Option<string>,
                                                          from: int, chunkFrom: int, currentTo: int,
                                                          attempt: nat, n: nat, fuel: nat)
    requires fuel >= n
    requires forall j | attempt <= j < attempt + n ::
      server(StatementReq(token, account, chunkFrom, currentTo), j) == TooManyRequests(Absent)
    ensures Chunk(server, token, account, from, chunkFrom, currentTo, attempt, fuel) ==
      Then([], Repeated429(StatementReq(token, account, chunkFrom, currentTo), n),
           Chunk(server, token, account, from, chunkFrom, currentTo, attempt + n, fuel - n))
    decreases n
  {
    var req := StatementReq(token, account, chunkFrom, currentTo);
    if n == 0 {
      ThenNothing(Chunk(server, token, account, from, chunkFrom, currentTo, attempt, fuel));
    } else {
      assert server(req, attempt) == TooManyRequests(Absent);
      var step: seq<Event<MonoReq>> := [Wait, Send(req), Sleep(DEFAULT_RETRY_AFTER)];
      var none: seq<Transaction> := [];
      var noEvents: seq<Event<MonoReq>> := [];
      ChunkOnTooMany(server, token, account, from, chunkFrom, currentTo, attempt, fuel, none, noEvents);
      assert noEvents + step == step;
      ThenNothing(Chunk(server, token, account, from, chunkFrom, currentTo, attempt, fuel));
      TooManyRequestsRepeatsRequest(server, token, account, from, chunkFrom, currentTo, attempt + 1, n - 1, fuel - 1);
      var rest := Chunk(server, token, account, from, chunkFrom, currentTo, attempt + n, fuel - n);
      assert attempt + 1 + (n - 1) == attempt + n;
      ThenThen(none, step, none, Repeated429(req, n - 1), rest);
      assert none + none == none;
    }
  }

  /** The windows of the walk against a quiet account, newest first. */
  function BackwardChunks(lo: int, hi: int): (ws: seq<(int, int)>)
    ensures hi <= lo <==> ws == []
    decreases hi - lo
  {
    if hi <= lo then [] else [(ChunkFrom(lo, hi), hi)] + BackwardChunks(lo, ChunkFrom(lo, hi))
  }

  /** There are ⌈(hi − lo) / MAX_PERIOD_SECONDS⌉ chunks. */
  lemma {:induction false} BackwardChunksCount(lo: int, hi: int)
    requires lo < hi
    ensures (|BackwardChunks(lo, hi)| - 1) * MAX_PERIOD_SECONDS < hi - lo
    ensures hi - lo <= |BackwardChunks(lo, hi)| * MAX_PERIOD_SECONDS
    decreases hi - lo
  {
    var f := ChunkFrom(lo, hi);
    if lo < f {
      BackwardChunksCount(lo, f);
      var m := |BackwardChunks(lo, f)|;
      assert (m + 1) * MAX_PERIOD_SECONDS == m * MAX_PERIOD_SECONDS + MAX_PERIOD_SECONDS;
    }
  }

  /** A server that answers every statement request at once with fewer than
      LIMIT items. */
  ghost predicate Quiet(server: MonoServer) {
    forall req: MonoReq, attempt: nat :: req.StatementReq? ==>
      server(req, attempt).Statement? && |server(req, attempt).items| < LIMIT
  }

  function ChunkRequests(token: string, account: Option<string>, ws: seq<(int, int)>): (reqs: seq<MonoReq>)
    ensures |reqs| == |ws|
    ensures forall i | 0 <= i < |ws| :: reqs[i] == StatementReq(token, account, ws[i].0, ws[i].1)
  {
    if ws == [] then [] else [StatementReq(token, account, ws[0].0, ws[0].1)] + ChunkRequests(token, account, ws[1..])
  }

  /** For a quiet account the walk makes exactly one request per backward
      chunk, in order, and succeeds given enough calls. */
  lemma {:induction false} QuietWalkRequestsEachChunkOnce(server: MonoServer, token: string, account: Option<string>,
                                                          lo: int, hi: int, fuel: nat)
    requires Quiet(server) && fuel >= |BackwardChunks(lo, hi)|
    ensures Walk(server, token, account, lo, hi, fuel).result.Success?
    ensures Sends(Walk(server, token, account, lo, hi, fuel).trace) ==
            ChunkRequests(token, account, BackwardChunks(lo, hi))
    decreases hi - lo
  {
    if hi > lo {
      var f := ChunkFrom(lo, hi);
      var req := StatementReq(token, account, f, hi);
      var pre: seq<Event<MonoReq>> := [Wait, Send(req)];
      assert server(req, 0).Statement?;
      QuietWalkRequestsEachChunkOnce(server, token, account, lo, f, fuel - 1);
      var rest := Walk(server, token, account, lo, f, fuel - 1);
      assert Walk(server, token, account, lo, hi, fuel) == Then(server(req, 0).items, pre, rest);
      SendsAppend(pre, rest.trace);
      assert Sends(pre) == [req] by {
        assert pre[1..] == [Send(req)];
        assert pre[1..][1..] == [];
      }
      assert BackwardChunks(lo, hi)[1..] == BackwardChunks(lo, f);
    }
  }
}
