/** The older `PrivatApi` of app/privat/api.py: the same endpoints and cursor
    protocol, with no rate limiter and a fixed sleep of DELAY seconds between
    pages. */
module LegacyPrivatApi {
  import opened Wrappers
  import opened Http
  import opened PrivatSchemas
  import opened PrivatApi

  /** `DELAY = 1 / 7`. */
  const DELAY: real := 1.0 / 7.0

  /** `fetch_all_transactions(start, end)`. */
  function FetchAllTransactions(server: PrivatServer, token: string, start: Date, end: Date,
                                fuel: nat): (r: Run<seq<Transaction>, PrivatReq>)
    ensures NoWaits(r.trace)
  {
    CursorNeverWaits(TransactionsRequest(token, start, end), server.transactions, None, fuel);
    Cursor(TransactionsRequest(token, start, end), server.transactions, [], [Sleep(DELAY)], None, fuel)
  }

  /** `fetch_all_balances()`. */
  function FetchAllBalances(server: PrivatServer, token: string, fuel: nat): (r: Run<seq<Balance>, PrivatReq>)
    ensures NoWaits(r.trace)
  {
    CursorNeverWaits(BalancesRequest(token), server.balances, None, fuel);
    Cursor(BalancesRequest(token), server.balances, [], [Sleep(DELAY)], None, fuel)
  }

  lemma {:induction false} CursorNeverWaits<T>(request: Option<string> -> PrivatReq, server: PrivatReq -> Answer<Page<T>>,
                                               follow: Option<string>, fuel: nat)
    ensures NoWaits(Cursor(request, server, [], [Sleep(DELAY)], follow, fuel).trace)
    decreases fuel
  {
    if fuel > 0 {
      match server(request(follow))
      case Got(p) =>
        if p.status == "SUCCESS" && p.existNextPage {
          var head: seq<Event<PrivatReq>> := [] + [Send(request(follow))] + [Sleep(DELAY)];
          var rest := Cursor(request, server, [], [Sleep(DELAY)], p.nextPageId, fuel - 1).trace;
          CursorNeverWaits(request, server, p.nextPageId, fuel - 1);
          assert |head| == 2;
          forall i | 0 <= i < |head + rest| ensures !(head + rest)[i].Wait? {
            if i >= 2 { assert (head + rest)[i] == rest[i - 2]; }
          }
        }
      case _ =>
    }
  }

  /** Requests and sleeps alternate: a request first, then DELAY after each
      request that a page follows. */
  predicate Alternates(trace: seq<Event<PrivatReq>>) {
    forall i | 0 <= i < |trace| :: (i % 2 == 0 <==> trace[i].Send?) && (i % 2 == 1 ==> trace[i] == Sleep(DELAY))
  }

  lemma {:induction false} RoundsAlternate<T>(request: Option<string> -> PrivatReq, follow: Option<string>,
                                              pages: seq<Page<T>>)
    ensures var t := Rounds(request, [], [Sleep(DELAY)], follow, pages);
      |t| == 2 * |pages| && Alternates(t)
    decreases |pages|
  {
    if pages != [] {
      var head: seq<Event<PrivatReq>> := [] + [Send(request(follow))] + [Sleep(DELAY)];
      var rest := Rounds(request, [], [Sleep(DELAY)], pages[0].nextPageId, pages[1..]);
      RoundsAlternate(request, pages[0].nextPageId, pages[1..]);
      var t := head + rest;
      assert |head| == 2;
      forall i | 2 <= i < |t| ensures t[i] == rest[i - 2] && (i % 2 == (i - 2) % 2) { }
    }
  }

  /** Against a bank that serves `pages` and then a last page `final`, the loop
      returns all their items in page order; it sleeps DELAY between pages and
      never after the last one, and never waits on a limiter. */
  lemma SleepsOnlyBetweenPages<T>(request: Option<string> -> PrivatReq, server: PrivatReq -> Answer<Page<T>>,
                                  pages: seq<Page<T>>, final: Page<T>, fuel: nat)
    requires Continues(request, server, None, pages)
    requires server(request(After(None, pages))) == Got(final)
    requires final.status == "SUCCESS" && !final.existNextPage
    requires fuel > |pages|
    ensures var run := Cursor(request, server, [], [Sleep(DELAY)], None, fuel);
      && run.result == Success(Items(pages) + final.items)
      && |run.trace| == 2 * |pages| + 1
      && Alternates(run.trace)
      && run.trace[|run.trace| - 1] == Send(request(After(None, pages)))
  {
    CursorPrefix(request, server, [], [Sleep(DELAY)], None, pages, fuel);
    CursorEnds(request, server, [], [Sleep(DELAY)], After(None, pages), fuel - |pages|, final);
    RoundsAlternate(request, None, pages);
    var t := Rounds(request, [], [Sleep(DELAY)], None, pages);
    var last: seq<Event<PrivatReq>> := [] + [Send(request(After(None, pages)))];
    assert last == [Send(request(After(None, pages)))];
    AlternatesSend(t, request(After(None, pages)));
  }

  /** A request after an even number of alternating events keeps them
      alternating. */
  lemma AlternatesSend(t: seq<Event<PrivatReq>>, req: PrivatReq)
    requires |t| % 2 == 0 && Alternates(t)
    ensures Alternates(t + [Send(req)])
  {
    forall i | 0 <= i < |t| + 1 ensures (t + [Send(req)])[i] == if i < |t| then t[i] else Send(req) { }
  }
}
