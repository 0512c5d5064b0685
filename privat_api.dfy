/** `PrivatApi` of app/payments/privat/api.py: the statement and balance
    endpoints and the `followId` cursor loops over them. Requests are not
    retried. */
module PrivatApi {
  import opened Wrappers
  import opened Http
  import opened CivilDates
  import opened PrivatSchemas

  /** `DEFAULT_LIMIT`: the page size asked for. */
  const DEFAULT_LIMIT: int := 100

  /** A date `datetime` can hold. */
  type Date = d: CivilDate | ValidDate(d) witness CivilDate(1, 1, 1)

  /** The query parameters of the two endpoints; `followId` is None when the
      parameter is left out. The token travels in a header. */
  datatype PrivatReq =
    | TransactionsReq(token: string, startDate: string, endDate: string, limit: int, followId: Option<string>)
    | BalancesReq(token: string, limit: int, followId: Option<string>)

  /** The bank: its answer to a statement request and to a balance request. */
  datatype PrivatServer = PrivatServer(
    transactions: PrivatReq -> Answer<Page<Transaction>>,
    balances: PrivatReq -> Answer<Page<Balance>>)

  /** `fetch_transactions(start, end, follow_id)`: the dates as `DD-MM-YYYY`;
      `followId` is sent whenever the cursor is not None. */
  function TransactionsRequest(token: string, start: Date, end: Date): Option<string> -> PrivatReq {
    (follow: Option<string>) => TransactionsReq(token, FormatDate(start), FormatDate(end), DEFAULT_LIMIT, follow)
  }

  /** `fetch_balances(follow_id)`: `followId` is sent only when the cursor is
      truthy, so an empty cursor is left out. */
  function BalancesRequest(token: string): Option<string> -> PrivatReq {
    (follow: Option<string>) => BalancesReq(token, DEFAULT_LIMIT, if follow.Some? && follow.value != "" then follow else None)
  }

  /** The two endpoints treat an empty cursor differently: the statement
      request carries it, the balance request drops it. */
  lemma EmptyCursor(token: string, start: Date, end: Date)
    ensures TransactionsRequest(token, start, end)(Some("")) != TransactionsRequest(token, start, end)(None)
    ensures TransactionsRequest(token, start, end)(Some("")).followId == Some("")
    ensures BalancesRequest(token)(Some("")) == BalancesRequest(token)(None)
    ensures forall c | c != "" :: BalancesRequest(token)(Some(c)).followId == Some(c)
  {
  }

  /** The `while True` cursor loop from cursor `follow`, with at most `fuel`
      more requests. Each request is preceded by the `pace` events and, when
      another page follows, followed by the `gap` events. A page whose status is
      not SUCCESS raises RuntimeError; any error discards what was collected. */
  function Cursor<T>(request: Option<string> -> PrivatReq, server: PrivatReq -> Answer<Page<T>>,
                     pace: seq<Event<PrivatReq>>, gap: seq<Event<PrivatReq>>,
                     follow: Option<string>, fuel: nat): Run<seq<T>, PrivatReq>
    decreases fuel
  {
    if fuel == 0 then Run(Failure(OutOfCalls), [])
    else
      var req := request(follow);
      var pre := pace + [Send(req)];
      match server(req)
      case RequestFailed => Run(Failure(RequestError), pre)
      case Invalid => Run(Failure(ValidationError), pre)
      case Got(p) =>
        if p.status != "SUCCESS" then Run(Failure(RuntimeError), pre)
        else if !p.existNextPage then Run(Success(p.items), pre)
        else Then(p.items, pre + gap, Cursor(request, server, pace, gap, p.nextPageId, fuel - 1))
  }

  /** `fetch_all_transactions(start, end)`: a limiter wait before each request. */
  function FetchAllTransactions(server: PrivatServer, token: string, start: Date, end: Date,
                                fuel: nat): (r: Run<seq<Transaction>, PrivatReq>)
    ensures PacedSends(r.trace)
    ensures forall i | 0 <= i < |Sends(r.trace)| ::
      Sends(r.trace)[i].TransactionsReq? && Sends(r.trace)[i].token == token &&
      Sends(r.trace)[i].startDate == FormatDate(start) && Sends(r.trace)[i].endDate == FormatDate(end)
  {
    CursorIsPaced(TransactionsRequest(token, start, end), server.transactions, None, fuel);
    CursorSendsOnly(TransactionsRequest(token, start, end), server.transactions, [Wait], [], None, fuel);
    Cursor(TransactionsRequest(token, start, end), server.transactions, [Wait], [], None, fuel)
  }

  /** `fetch_all_balances()`. */
  function FetchAllBalances(server: PrivatServer, token: string, fuel: nat): (r: Run<seq<Balance>, PrivatReq>)
    ensures PacedSends(r.trace)
    ensures forall i | 0 <= i < |Sends(r.trace)| :: Sends(r.trace)[i].BalancesReq? && Sends(r.trace)[i].token == token
  {
    CursorIsPaced(BalancesRequest(token), server.balances, None, fuel);
    CursorSendsOnly(BalancesRequest(token), server.balances, [Wait], [], None, fuel);
    Cursor(BalancesRequest(token), server.balances, [Wait], [], None, fuel)
  }

  /** The cursor loop as the source runs it. */
  method CursorLoop<T>(request: Option<string> -> PrivatReq, server: PrivatReq -> Answer<Page<T>>,
                       pace: seq<Event<PrivatReq>>, gap: seq<Event<PrivatReq>>, fuel: nat)
    returns (r: Run<seq<T>, PrivatReq>)
    ensures r == Cursor(request, server, pace, gap, None, fuel)
  {
    var items: seq<T> := [];
    var trace: seq<Event<PrivatReq>> := [];
    var follow: Option<string> := None;
    var left := fuel;
    ThenNothing(Cursor(request, server, pace, gap, follow, left));
    while true
      invariant Cursor(request, server, pace, gap, None, fuel) ==
        Then(items, trace, Cursor(request, server, pace, gap, follow, left))
      decreases left
    {
      if left == 0 {
        return Run(Failure(OutOfCalls), trace);
      }
      var req := request(follow);
      var answer := server(req);
      CursorStep(request, server, pace, gap, follow, left, items, trace);
      trace := trace + (pace + [Send(req)]);
      if answer.RequestFailed? {
        return Run(Failure(RequestError), trace);
      } else if answer.Invalid? {
        return Run(Failure(ValidationError), trace);
      }
      var p := answer.page;
      if p.status != "SUCCESS" {
        return Run(Failure(RuntimeError), trace);
      }
      items := items + p.items;
      if !p.existNextPage {
        return Run(Success(items), trace);
      }
      trace := trace + gap;
      follow, left := p.nextPageId, left - 1;
    }
  }

  /** One round of the cursor loop, after `items` were collected and `trace`
      produced. */
  lemma CursorStep<T>(request: Option<string> -> PrivatReq, server: PrivatReq -> Answer<Page<T>>,
                      pace: seq<Event<PrivatReq>>, gap: seq<Event<PrivatReq>>,
                      follow: Option<string>, fuel: nat, items: seq<T>, trace: seq<Event<PrivatReq>>)
    requires fuel > 0
    ensures var req := request(follow);
      var pre := pace + [Send(req)];
      Then(items, trace, Cursor(request, server, pace, gap, follow, fuel)) ==
        match server(req)
        case RequestFailed => Run(Failure(RequestError), trace + pre)
        case Invalid => Run(Failure(ValidationError), trace + pre)
        case Got(p) =>
          if p.status != "SUCCESS" then Run(Failure(RuntimeError), trace + pre)
          else if !p.existNextPage then Run(Success(items + p.items), trace + pre)
          else Then(items + p.items, trace + pre + gap, Cursor(request, server, pace, gap, p.nextPageId, fuel - 1))
  {
    var req := request(follow);
    var pre := pace + [Send(req)];
    match server(req)
    case RequestFailed =>
    case Invalid =>
    case Got(p) =>
      if p.status == "SUCCESS" && p.existNextPage {
        ThenThen(items, trace, p.items, pre + gap, Cursor(request, server, pace, gap, p.nextPageId, fuel - 1));
        assert trace + (pre + gap) == trace + pre + gap;
      }
  }

  // ---------------------------------------------------------------------
  // Properties of the cursor protocol

  /** `pages` are answered one after the other from cursor `follow`: each is a
      SUCCESS page announcing a next page, and each next request carries the
      previous page's `next_page_id`. */
  ghost predicate Continues<T>(request: Option<string> -> PrivatReq, server: PrivatReq -> Answer<Page<T>>,
                               follow: Option<string>, pages: seq<Page<T>>)
    decreases |pages|
  {
    pages != [] ==>
      && server(request(follow)) == Got(pages[0])
      && pages[0].status == "SUCCESS" && pages[0].existNextPage
      && Continues(request, server, pages[0].nextPageId, pages[1..])
  }

  /** The cursor after `pages`. */
  function After<T>(follow: Option<string>, pages: seq<Page<T>>): Option<string> {
    if pages == [] then follow else pages[|pages| - 1].nextPageId
  }

  /** The pages' items, concatenated in page order. */
  function Items<T>(pages: seq<Page<T>>): seq<T> {
    if pages == [] then [] else pages[0].items + Items(pages[1..])
  }

  /** The events of the rounds that fetched `pages` from cursor `follow`. */
  function Rounds<T>(request: Option<string> -> PrivatReq, pace: seq<Event<PrivatReq>>,
                     gap: seq<Event<PrivatReq>>, follow: Option<string>, pages: seq<Page<T>>): seq<Event<PrivatReq>>
    decreases |pages|
  {
    if pages == [] then []
    else pace + [Send(request(follow))] + gap + Rounds(request, pace, gap, pages[0].nextPageId, pages[1..])
  }

  /** Following the cursor through pages that announce a next page collects
      their items in page order, the first request carrying the starting cursor
      and each later one the previous page's `next_page_id`; the loop then goes
      on from the last cursor. */
  lemma {:induction false} CursorPrefix<T>(request: Option<string> -> PrivatReq, server: PrivatReq -> Answer<Page<T>>,
                                           pace: seq<Event<PrivatReq>>, gap: seq<Event<PrivatReq>>,
                                           follow: Option<string>, pages: seq<Page<T>>, fuel: nat)
    requires Continues(request, server, follow, pages) && fuel >= |pages|
    ensures Cursor(request, server, pace, gap, follow, fuel) ==
      Then(Items(pages), Rounds(request, pace, gap, follow, pages),
           Cursor(request, server, pace, gap, After(follow, pages), fuel - |pages|))
    decreases |pages|
  {
    if pages == [] {
      ThenNothing(Cursor(request, server, pace, gap, follow, fuel));
    } else {
      var p := pages[0];
      var rest := pages[1..];
      var round := pace + [Send(request(follow))] + gap;
      CursorPrefix(request, server, pace, gap, p.nextPageId, rest, fuel - 1);
      assert After(p.nextPageId, rest) == After(follow, pages);
      ThenThen(p.items, round, Items(rest), Rounds(request, pace, gap, p.nextPageId, rest),
               Cursor(request, server, pace, gap, After(follow, pages), fuel - |pages|));
    }
  }

  /** The page that says there is no next page ends the loop with everything
      collected; a page whose status is not SUCCESS ends it with RuntimeError
      and nothing. */
  lemma CursorEnds<T>(request: Option<string> -> PrivatReq, server: PrivatReq -> Answer<Page<T>>,
                      pace: seq<Event<PrivatReq>>, gap: seq<Event<PrivatReq>>,
                      follow: Option<string>, fuel: nat, p: Page<T>)
    requires fuel > 0 && server(request(follow)) == Got(p)
    ensures p.status == "SUCCESS" && !p.existNextPage ==>
      Cursor(request, server, pace, gap, follow, fuel) == Run(Success(p.items), pace + [Send(request(follow))])
    ensures p.status != "SUCCESS" ==>
      Cursor(request, server, pace, gap, follow, fuel) == Run(Failure(RuntimeError), pace + [Send(request(follow))])
  {
  }

  /** With a wait before every request and nothing between pages, every
      request is immediately preceded by a wait. */
  lemma {:induction false} CursorIsPaced<T>(request: Option<string> -> PrivatReq, server: PrivatReq -> Answer<Page<T>>,
                                            follow: Option<string>, fuel: nat)
    ensures PacedSends(Cursor(request, server, [Wait], [], follow, fuel).trace)
    decreases fuel
  {
    if fuel > 0 {
      var pre: seq<Event<PrivatReq>> := [Wait] + [Send(request(follow))];
      assert PacedSends(pre);
      match server(request(follow))
      case Got(p) =>
        if p.status == "SUCCESS" && p.existNextPage {
          var rest := Cursor(request, server, [Wait], [], p.nextPageId, fuel - 1);
          CursorIsPaced(request, server, p.nextPageId, fuel - 1);
          assert pre + [] == pre;
          PacedAppend(pre, rest.trace);
        }
      case _ =>
    }
  }

  /** Every request in `sends` is one that `request` builds. */
  ghost predicate BuiltBy(request: Option<string> -> PrivatReq, sends: seq<PrivatReq>) {
    forall i | 0 <= i < |sends| :: exists f :: sends[i] == request(f)
  }

  lemma BuiltByCons(request: Option<string> -> PrivatReq, follow: Option<string>, rest: seq<PrivatReq>)
    requires BuiltBy(request, rest)
    ensures BuiltBy(request, [request(follow)] + rest)
  {
    forall i | 0 <= i < |rest| + 1 ensures exists f :: ([request(follow)] + rest)[i] == request(f) {
      if i == 0 {
        assert ([request(follow)] + rest)[i] == request(follow);
      } else {
        assert ([request(follow)] + rest)[i] == rest[i - 1];
      }
    }
  }

  /** Every request the loop sends is built by `request`. */
  lemma {:induction false} CursorSendsOnly<T>(request: Option<string> -> PrivatReq, server: PrivatReq -> Answer<Page<T>>,
                                              pace: seq<Event<PrivatReq>>, gap: seq<Event<PrivatReq>>,
                                              follow: Option<string>, fuel: nat)
    requires Sends(pace) == [] && Sends(gap) == []
    ensures BuiltBy(request, Sends(Cursor(request, server, pace, gap, follow, fuel).trace))
    decreases fuel
  {
    if fuel > 0 {
      var req := request(follow);
      var pre := pace + [Send(req)];
      var one: seq<Event<PrivatReq>> := [Send(req)];
      assert Sends(one) == [req] by { assert one[1..] == []; }
      SendsAppend(pace, one);
      assert Sends(pre) == [req];
      BuiltByCons(request, follow, []);
      assert [req] + [] == [req];
      match server(req)
      case Got(p) =>
        if p.status == "SUCCESS" && p.existNextPage {
          var rest := Cursor(request, server, pace, gap, p.nextPageId, fuel - 1).trace;
          CursorSendsOnly(request, server, pace, gap, p.nextPageId, fuel - 1);
          SendsAppend(pre, gap);
          SendsAppend(pre + gap, rest);
          assert Sends(pre + gap + rest) == [req] + Sends(rest);
          assert Cursor(request, server, pace, gap, follow, fuel).trace == pre + gap + rest;
          BuiltByCons(request, follow, Sends(rest));
        } else {
          assert Cursor(request, server, pace, gap, follow, fuel).trace == pre;
        }
      case _ =>
        assert Cursor(request, server, pace, gap, follow, fuel).trace == pre;
    } else {
      assert Cursor(request, server, pace, gap, follow, fuel).trace == [];
      assert Sends<PrivatReq>([]) == [];
    }
  }

}
