/** `TRC20Api` and `TransfersPageIterator` of app/payments/tronscan/api.py: the
    TRC20 transfers touching one address, newest first, read by offset until
    the server's total is reached or a page reaches back before the window. */
module TronscanApi {
  import opened Wrappers
  import opened Records
  import opened Http
  import opened TronscanSchemas

  /** `DEFAULT_LIMIT`: the page size. */
  const DEFAULT_LIMIT: nat := 50

  /** The query of `get_transfers`; `address` is None when the item has no
      address (the parameter is then not sent). Confirmation and value
      filter flags are the same in every request and are left implicit. */
  datatype TronscanReq = TransfersReq(apiKey: string, address: Option<string>, start: int, limit: int)

  type TronscanServer = (TronscanReq, nat) -> Answer<TransfersPage>

  /** `get_transfers(address, start, limit)`: one retried request, every
      attempt behind the shared limiter. */
  function GetTransfers(server: TronscanServer, apiKey: string, address: Option<string>, start: int, limit: int)
    : (r: Run<TransfersPage, TronscanReq>)
    ensures PacedSends(r.trace)
    ensures 1 <= |Sends(r.trace)|
    ensures forall i | 0 <= i < |Sends(r.trace)| :: Sends(r.trace)[i] == TransfersReq(apiKey, address, start, limit)
  {
    RetriedCall(server, TransfersReq(apiKey, address, start, limit), true)
  }

  /** `__next__` stops once a total is known and the offset has reached it. */
  predicate Exhausted(start: int, total: Option<int>) {
    total.Some? && start >= total.value
  }

  /** `TransfersPageIterator`: an offset into the listing and the total the
      last page reported (None before the first page). */
  class TransfersPageIterator {
    const apiKey: string
    const address: Option<string>
    const limit: int
    var start: int
    var total: Option<int>

    constructor (apiKey: string, address: Option<string>, start: int, limit: int)
      ensures this.apiKey == apiKey && this.address == address && this.limit == limit
      ensures this.start == start && this.total.None?
    {
      this.apiKey := apiKey;
      this.address := address;
      this.limit := limit;
      this.start := start;
      this.total := None;
    }

    /** `__next__`: None for StopIteration; otherwise the page request, and
        after a page the offset moves on by `limit` and the total becomes the
        page's. A failing request leaves the iterator as it was. */
    method Next(server: TronscanServer) returns (r: Option<Run<TransfersPage, TronscanReq>>)
      modifies this
      ensures Exhausted(old(start), old(total)) ==> r.None? && start == old(start) && total == old(total)
      ensures !Exhausted(old(start), old(total)) ==>
        && r == Some(GetTransfers(server, apiKey, address, old(start), limit))
        && (r.value.result.Success? ==> start == old(start) + limit && total == Some(r.value.result.value.total))
        && (r.value.result.Failure? ==> start == old(start) && total == old(total))
    {
      if total.Some? && start >= total.value {
        return None;
      }
      var page := RetriedCallM(server, TransfersReq(apiKey, address, start, limit), true);
      if page.result.Success? {
        start := start + limit;
        total := Some(page.result.value.total);
      }
      return Some(page);
    }
  }

  /** `from_date <= transfer.block_timestamp <= to_date`. */
  predicate InWindow(from: Instant, to: Instant, t: TokenTransfer) {
    from <= BlockTimestamp(t) <= to
  }

  function Within(from: Instant, to: Instant): TokenTransfer -> bool {
    t => InWindow(from, to, t)
  }

  /** Some transfer of the page is older than the window: it is the last page read. */
  predicate ReachesBefore(from: Instant, transfers: seq<TokenTransfer>) {
    exists i | 0 <= i < |transfers| :: BlockTimestamp(transfers[i]) < from
  }

  /** What one page adds: `keep` of each in-window transfer, in page order;
      `keep` may raise (the scanner maps each transfer onto a record). */
  function PageAdds<Y>(from: Instant, to: Instant, keep: TokenTransfer -> Result<Y, Error>,
                       transfers: seq<TokenTransfer>): Result<seq<Y>, Error> {
    MapAll(keep, Filter(Within(from, to), transfers))
  }

  function Adds<Y>(from: Instant, to: Instant, keep: TokenTransfer -> Result<Y, Error>)
    : seq<TokenTransfer> -> Result<seq<Y>, Error>
  {
    ts => PageAdds(from, to, keep, ts)
  }

  function Last(from: Instant): seq<TokenTransfer> -> bool {
    ts => ReachesBefore(from, ts)
  }

  /** The retried request for each offset. */
  function Fetcher(server: TronscanServer, apiKey: string, address: Option<string>)
    : int -> Run<TransfersPage, TronscanReq>
  {
    (start: int) => GetTransfers(server, apiKey, address, start, DEFAULT_LIMIT)
  }

  /** The page loop from offset `start` with the iterator's `total`, at most
      `fuel` more pages; `fetch(s)` is the request for offset `s`. It stops
      before any request once the total is reached, and after a page that
      reaches back before `from`. */
  function Collect<Y>(fetch: int -> Run<TransfersPage, TronscanReq>,
                      adds: seq<TokenTransfer> -> Result<seq<Y>, Error>, last: seq<TokenTransfer> -> bool,
                      start: int, total: Option<int>, fuel: nat): (r: Run<seq<Y>, TronscanReq>)
    ensures Exhausted(start, total) ==> r == Run(Success([]), [])
    decreases fuel
  {
    if Exhausted(start, total) then Run(Success([]), [])
    else if fuel == 0 then Run(Failure(OutOfCalls), [])
    else
      var page := fetch(start);
      if page.result.Failure? then Run(Failure(page.result.error), page.trace)
      else
        var transfers := page.result.value.transfers;
        var added := adds(transfers);
        if added.Failure? then Run(Failure(added.error), page.trace)
        else if last(transfers) then Run(Success(added.value), page.trace)
        else Then(added.value, page.trace,
                  Collect(fetch, adds, last, start + DEFAULT_LIMIT, Some(page.result.value.total), fuel - 1))
  }

  /** Pages whose every request waits on the limiter first. */
  ghost predicate PacedFetch(fetch: int -> Run<TransfersPage, TronscanReq>) {
    forall start: int :: PacedSends(fetch(start).trace)
  }

  lemma FetcherPaced(server: TronscanServer, apiKey: string, address: Option<string>)
    ensures PacedFetch(Fetcher(server, apiKey, address))
  {
    forall start: int ensures PacedSends(Fetcher(server, apiKey, address)(start).trace) {
      assert Fetcher(server, apiKey, address)(start) == GetTransfers(server, apiKey, address, start, DEFAULT_LIMIT);
    }
  }

  /** When every page request waits on the limiter first, so does the loop. */
  lemma {:induction false} CollectPaced<Y>(fetch: int -> Run<TransfersPage, TronscanReq>,
                                           adds: seq<TokenTransfer> -> Result<seq<Y>, Error>, last: seq<TokenTransfer> -> bool,
                                           start: int, total: Option<int>, fuel: nat)
    requires PacedFetch(fetch)
    ensures PacedSends(Collect(fetch, adds, last, start, total, fuel).trace)
    decreases fuel
  {
    if !Exhausted(start, total) && fuel > 0 {
      var page := fetch(start);
      assert PacedSends(page.trace);
      if page.result.Success? {
        var rest := Collect(fetch, adds, last, start + DEFAULT_LIMIT, Some(page.result.value.total), fuel - 1);
        CollectPaced(fetch, adds, last, start + DEFAULT_LIMIT, Some(page.result.value.total), fuel - 1);
        PacedAppend(page.trace, rest.trace);
      }
    }
  }

  function Keep(t: TokenTransfer): Result<TokenTransfer, Error> { Success(t) }

  lemma {:induction false} KeepAll(ts: seq<TokenTransfer>)
    ensures MapAll(Keep, ts) == Success(ts)
    decreases |ts|
  {
    if ts != [] {
      assert Keep(ts[0]) == Success(ts[0]);
      KeepAll(ts[1..]);
      assert [ts[0]] + ts[1..] == ts;
    }
  }

  /** `get_all_transfers(address, from_date, to_date)`: from offset 0, with
      no total yet. */
  function GetAllTransfers(server: TronscanServer, apiKey: string, address: Option<string>,
                           from: Instant, to: Instant, fuel: nat): (r: Run<seq<TokenTransfer>, TronscanReq>)
    ensures PacedSends(r.trace)
    ensures r.result.Success? ==> AllInWindow(from, to, r.result.value)
  {
    FetcherPaced(server, apiKey, address);
    CollectPaced(Fetcher(server, apiKey, address), Adds(from, to, Keep), Last(from), 0, None, fuel);
    KeptInWindow(Fetcher(server, apiKey, address), from, to, 0, None, fuel);
    Collect(Fetcher(server, apiKey, address), Adds(from, to, Keep), Last(from), 0, None, fuel)
  }

  /** All of `ts` lies in the window. */
  predicate AllInWindow(from: Instant, to: Instant, ts: seq<TokenTransfer>) {
    forall i | 0 <= i < |ts| :: InWindow(from, to, ts[i])
  }

  /** Without a mapping, a page adds exactly its in-window transfers. */
  lemma PageKeepsWindow(from: Instant, to: Instant, ts: seq<TokenTransfer>)
    ensures Adds(from, to, Keep)(ts).Success?
    ensures AllInWindow(from, to, Adds(from, to, Keep)(ts).value)
  {
    var kept := Filter(Within(from, to), ts);
    KeepAll(kept);
    assert Adds(from, to, Keep)(ts) == Success(kept);
    assert forall i | 0 <= i < |kept| :: Within(from, to)(kept[i]);
  }

  lemma AllInWindowAppend(from: Instant, to: Instant, a: seq<TokenTransfer>, b: seq<TokenTransfer>)
    requires AllInWindow(from, to, a) && AllInWindow(from, to, b)
    ensures AllInWindow(from, to, a + b)
  {
    forall i | 0 <= i < |a + b| ensures InWindow(from, to, (a + b)[i]) {
      if i >= |a| { assert (a + b)[i] == b[i - |a|]; }
    }
  }

  /** Everything `get_all_transfers` returns lies in the window. */
  lemma {:induction false} KeptInWindow(fetch: int -> Run<TransfersPage, TronscanReq>, from: Instant, to: Instant,
                                        start: int, total: Option<int>, fuel: nat)
    ensures var r := Collect(fetch, Adds(from, to, Keep), Last(from), start, total, fuel);
      r.result.Success? ==> AllInWindow(from, to, r.result.value)
    decreases fuel
  {
    if !Exhausted(start, total) && fuel > 0 {
      var page := fetch(start);
      if page.result.Success? {
        var ts := page.result.value.transfers;
        PageKeepsWindow(from, to, ts);
        var rest := Collect(fetch, Adds(from, to, Keep), Last(from), start + DEFAULT_LIMIT, Some(page.result.value.total), fuel - 1);
        KeptInWindow(fetch, from, to, start + DEFAULT_LIMIT, Some(page.result.value.total), fuel - 1);
        if rest.result.Success? {
          AllInWindowAppend(from, to, Adds(from, to, Keep)(ts).value, rest.result.value);
        }
      }
    }
  }

  /** One page of the loop, its transfers taken one at a time: what the page
      adds and whether it is the last. */
  method TakePage<Y>(from: Instant, to: Instant, keep: TokenTransfer -> Result<Y, Error>,
                     transfers: seq<TokenTransfer>) returns (adds: Result<seq<Y>, Error>, last: bool)
    ensures adds == PageAdds(from, to, keep, transfers)
    ensures adds.Success? ==> (last <==> ReachesBefore(from, transfers))
  {
    var p := Within(from, to);
    var out: seq<Y> := [];
    last := false;
    assert transfers[0..] == transfers;
    if MapAll(keep, Filter(p, transfers)).Success? {
      assert [] + MapAll(keep, Filter(p, transfers)).value == MapAll(keep, Filter(p, transfers)).value;
    }
    for i := 0 to |transfers|
      invariant MapAll(keep, Filter(p, transfers)) == Prepend(out, MapAll(keep, Filter(p, transfers[i..])))
      invariant last <==> ReachesBefore(from, transfers[..i])
    {
      var t := transfers[i];
      FilterMapStep(p, keep, transfers, i);
      ReachesBeforeSnoc(from, transfers, i);
      if from <= BlockTimestamp(t) <= to {
        var y := keep(t);
        if y.Failure? {
          return Failure(y.error), last;
        }
        PrependPrepend(out, [y.value], MapAll(keep, Filter(p, transfers[i + 1..])));
        out := out + [y.value];
      }
      if BlockTimestamp(t) < from {
        last := true;
      }
    }
    assert transfers[..|transfers|] == transfers;
    assert transfers[|transfers|..] == [];
    assert out + [] == out;
    return Success(out), last;
  }

  lemma ReachesBeforeSnoc(from: Instant, ts: seq<TokenTransfer>, i: nat)
    requires i < |ts|
    ensures ReachesBefore(from, ts[..i + 1]) <==> ReachesBefore(from, ts[..i]) || BlockTimestamp(ts[i]) < from
  {
    var a, b := ts[..i], ts[..i + 1];
    assert forall j | 0 <= j < i :: b[j] == a[j];
    if ReachesBefore(from, b) {
      var j :| 0 <= j < |b| && BlockTimestamp(b[j]) < from;
      if j < i { assert BlockTimestamp(a[j]) < from; }
    }
    if BlockTimestamp(ts[i]) < from { assert b[i] == ts[i]; }
  }

  /** One round of the loop that goes on to the next page, after `items`
      were collected and `trace` produced. */
  lemma CollectGoesOn<Y>(fetch: int -> Run<TransfersPage, TronscanReq>,
                         adds: seq<TokenTransfer> -> Result<seq<Y>, Error>, last: seq<TokenTransfer> -> bool,
                         start: int, total: Option<int>, fuel: nat, items: seq<Y>, trace: seq<Event<TronscanReq>>,
                         page: Run<TransfersPage, TronscanReq>, added: seq<Y>,
                         start': int, total': Option<int>, fuel': nat, items': seq<Y>, trace': seq<Event<TronscanReq>>)
    requires !Exhausted(start, total) && fuel > 0
    requires page == fetch(start) && page.result.Success?
    requires adds(page.result.value.transfers) == Success(added) && !last(page.result.value.transfers)
    requires start' == start + DEFAULT_LIMIT && total' == Some(page.result.value.total) && fuel' == fuel - 1
    requires items' == items + added && trace' == trace + page.trace
    ensures Then(items, trace, Collect(fetch, adds, last, start, total, fuel)) ==
      Then(items', trace', Collect(fetch, adds, last, start', total', fuel'))
  {
    ThenThen(items, trace, added, page.trace,
             Collect(fetch, adds, last, start + DEFAULT_LIMIT, Some(page.result.value.total), fuel - 1));
  }

  /** One round of the loop that ends it, after `items` were collected and
      `trace` produced. */
  lemma CollectEnds<Y>(fetch: int -> Run<TransfersPage, TronscanReq>,
                       adds: seq<TokenTransfer> -> Result<seq<Y>, Error>, last: seq<TokenTransfer> -> bool,
                       start: int, total: Option<int>, fuel: nat, items: seq<Y>, trace: seq<Event<TronscanReq>>,
                       page: Run<TransfersPage, TronscanReq>)
    requires !Exhausted(start, total) && fuel > 0
    requires page == fetch(start)
    ensures page.result.Failure? ==>
      Then(items, trace, Collect(fetch, adds, last, start, total, fuel)) == Run(Failure(page.result.error), trace + page.trace)
    ensures page.result.Success? && adds(page.result.value.transfers).Failure? ==>
      Then(items, trace, Collect(fetch, adds, last, start, total, fuel)) ==
        Run(Failure(adds(page.result.value.transfers).error), trace + page.trace)
    ensures page.result.Success? && adds(page.result.value.transfers).Success? && last(page.result.value.transfers) ==>
      Then(items, trace, Collect(fetch, adds, last, start, total, fuel)) ==
        Run(Success(items + adds(page.result.value.transfers).value), trace + page.trace)
  {
  }

  /** The `for page in ...` loop with its inner `for transfer in ...` loop, as
      the API and the scanner both run it. */
  method CollectLoop<Y>(server: TronscanServer, apiKey: string, address: Option<string>,
                        from: Instant, to: Instant, keep: TokenTransfer -> Result<Y, Error>, fuel: nat)
    returns (r: Run<seq<Y>, TronscanReq>)
    ensures r == Collect(Fetcher(server, apiKey, address), Adds(from, to, keep), Last(from), 0, None, fuel)
  {
    var fetch, adds, last := Fetcher(server, apiKey, address), Adds(from, to, keep), Last(from);
    var pages := new TransfersPageIterator(apiKey, address, 0, DEFAULT_LIMIT);
    var items: seq<Y> := [];
    var trace: seq<Event<TronscanReq>> := [];
    var left: nat := fuel;
    var start: int, total: Option<int> := 0, None;
    ThenNothing(Collect(fetch, adds, last, 0, None, fuel));
    while true
      invariant pages.apiKey == apiKey && pages.address == address && pages.limit == DEFAULT_LIMIT
      invariant pages.start == start && pages.total == total
      invariant Collect(fetch, adds, last, 0, None, fuel) ==
        Then(items, trace, Collect(fetch, adds, last, start, total, left))
      decreases left
    {
      if left == 0 && !Exhausted(pages.start, pages.total) {
        return Run(Failure(OutOfCalls), trace);
      }
      var next := pages.Next(server);
      if next.None? {
        ThenDone(items, trace);
        return Run(Success(items), trace);
      }
      var page := next.value;
      assert page == fetch(start);
      CollectEnds(fetch, adds, last, start, total, left, items, trace, page);
      if page.result.Failure? {
        return Run(Failure(page.result.error), trace + page.trace);
      }
      var transfers := page.result.value.transfers;
      var added, reachesBefore := TakePage(from, to, keep, transfers);
      assert added == adds(transfers);
      if added.Failure? {
        return Run(Failure(added.error), trace + page.trace);
      }
      assert reachesBefore == last(transfers);
      if reachesBefore {
        return Run(Success(items + added.value), trace + page.trace);
      }
      ghost var items0, trace0, start0, total0, left0 := items, trace, start, total, left;
      items, trace := items + added.value, trace + page.trace;
      start, total, left := start + DEFAULT_LIMIT, Some(page.result.value.total), left - 1;
      CollectGoesOn(fetch, adds, last, start0, total0, left0, items0, trace0, page, added.value,
                    start, total, left, items, trace);
    }
  }

  /** `get_all_transfers` as the source runs it. */
  method GetAllTransfersLoop(server: TronscanServer, apiKey: string, address: Option<string>,
                             from: Instant, to: Instant, fuel: nat) returns (r: Run<seq<TokenTransfer>, TronscanReq>)
    ensures r == GetAllTransfers(server, apiKey, address, from, to, fuel)
  {
    r := CollectLoop(server, apiKey, address, from, to, Keep, fuel);
  }

  // ---------------------------------------------------------------------
  // Page counts

  /** The first page is always requested, at offset 0, whatever the server. */
  lemma FirstPageAlwaysRequested(server: TronscanServer, apiKey: string, address: Option<string>,
                                 from: Instant, to: Instant, fuel: nat)
    requires fuel > 0
    ensures var r := GetAllTransfers(server, apiKey, address, from, to, fuel);
      |Sends(r.trace)| >= 1 && Sends(r.trace)[0] == TransfersReq(apiKey, address, 0, DEFAULT_LIMIT)
  {
    var page := GetTransfers(server, apiKey, address, 0, DEFAULT_LIMIT);
    var r := Collect(Fetcher(server, apiKey, address), Adds(from, to, Keep), Last(from), 0, None, fuel);
    assert r.trace[..|page.trace|] == page.trace;
    SendsAppend(page.trace, r.trace[|page.trace|..]);
    assert r.trace == page.trace + r.trace[|page.trace|..];
  }

  /** Pages still to read from offset `start` when the total is `total`. */
  function PagesLeft(start: int, total: int): (k: nat)
    ensures start >= total ==> k == 0
    decreases total - start
  {
    if start >= total then 0 else 1 + PagesLeft(start + DEFAULT_LIMIT, total)
  }

  /** A listing whose total stays `total`, which every page request answers
      at once, and in which no transfer is older than the window. */
  ghost predicate StableListing(server: TronscanServer, apiKey: string, address: Option<string>, from: Instant, total: int) {
    forall start: int :: var a := server(TransfersReq(apiKey, address, start, DEFAULT_LIMIT), 0);
      a.Got? && a.page.total == total && !ReachesBefore(from, a.page.transfers)
  }

  /** A stable listing as the loop sees it: every page is one request, adds
      its transfers and does not end the loop. */
  ghost predicate StableFetch<Y>(fetch: int -> Run<TransfersPage, TronscanReq>,
                                 adds: seq<TokenTransfer> -> Result<seq<Y>, Error>, last: seq<TokenTransfer> -> bool,
                                 total: int) {
    forall start: int ::
      && fetch(start).result.Success? && fetch(start).result.value.total == total
      && adds(fetch(start).result.value.transfers).Success? && !last(fetch(start).result.value.transfers)
      && |Sends(fetch(start).trace)| == 1
  }

  lemma StableFetchOf(server: TronscanServer, apiKey: string, address: Option<string>, from: Instant, to: Instant, total: int)
    requires StableListing(server, apiKey, address, from, total)
    ensures StableFetch(Fetcher(server, apiKey, address), Adds(from, to, Keep), Last(from), total)
  {
    var fetch := Fetcher(server, apiKey, address);
    forall start: int
      ensures && fetch(start).result.Success? && fetch(start).result.value.total == total
              && Adds(from, to, Keep)(fetch(start).result.value.transfers).Success?
              && !Last(from)(fetch(start).result.value.transfers)
              && |Sends(fetch(start).trace)| == 1
    {
      var req := TransfersReq(apiKey, address, start, DEFAULT_LIMIT);
      ReliableServerAnswersOnce(server, req, true);
      var page := fetch(start);
      assert page == RetriedCall(server, req, true);
      assert Sends(page.trace) == [req] by {
        assert page.trace[1..] == [Send(req)];
        assert page.trace[1..][1..] == [];
      }
      PageKeepsWindow(from, to, page.result.value.transfers);
    }
  }

  /** On a stable listing, the loop from a known total makes exactly one
      request per page left and succeeds. */
  lemma {:induction false} StablePages<Y>(fetch: int -> Run<TransfersPage, TronscanReq>,
                                          adds: seq<TokenTransfer> -> Result<seq<Y>, Error>, last: seq<TokenTransfer> -> bool,
                                          total: int, start: int, fuel: nat)
    requires StableFetch(fetch, adds, last, total)
    requires fuel >= PagesLeft(start, total)
    ensures var r := Collect(fetch, adds, last, start, Some(total), fuel);
      r.result.Success? && |Sends(r.trace)| == PagesLeft(start, total)
    decreases total - start
  {
    if start < total {
      var page := fetch(start);
      assert |Sends(page.trace)| == 1;
      StablePages(fetch, adds, last, total, start + DEFAULT_LIMIT, fuel - 1);
      var rest := Collect(fetch, adds, last, start + DEFAULT_LIMIT, Some(total), fuel - 1);
      SendsAppend(page.trace, rest.trace);
    }
  }

  /** `ceil(total / 50)` pages, and at least the first one. */
  function PagesNeeded(total: int): nat {
    if total <= DEFAULT_LIMIT then 1 else (total + DEFAULT_LIMIT - 1) / DEFAULT_LIMIT
  }

  lemma {:induction false} PagesLeftCount(start: int, total: int)
    requires start < total
    ensures PagesLeft(start, total) == (total - start + DEFAULT_LIMIT - 1) / DEFAULT_LIMIT
    decreases total - start
  {
    if start + DEFAULT_LIMIT < total {
      PagesLeftCount(start + DEFAULT_LIMIT, total);
    }
  }

  /** `ceil(total / 50)` pages, and at least the first one, is the first page
      and the pages left after it. */
  lemma PagesNeededLeft(total: int)
    ensures PagesNeeded(total) == 1 + PagesLeft(DEFAULT_LIMIT, total)
  {
    if DEFAULT_LIMIT < total {
      PagesLeftCount(DEFAULT_LIMIT, total);
    }
  }

  /** On a stable listing, the loop from offset 0 with no total yet makes the
      first request and then one per page left, and succeeds. */
  lemma StableFromStart<Y>(fetch: int -> Run<TransfersPage, TronscanReq>,
                           adds: seq<TokenTransfer> -> Result<seq<Y>, Error>, last: seq<TokenTransfer> -> bool,
                           total: int, fuel: nat)
    requires StableFetch(fetch, adds, last, total)
    requires fuel >= 1 + PagesLeft(DEFAULT_LIMIT, total)
    ensures var r := Collect(fetch, adds, last, 0, None, fuel);
      r.result.Success? && |Sends(r.trace)| == 1 + PagesLeft(DEFAULT_LIMIT, total)
  {
    var page := fetch(0);
    assert |Sends(page.trace)| == 1;
    StablePages(fetch, adds, last, total, DEFAULT_LIMIT, fuel - 1);
    var rest := Collect(fetch, adds, last, DEFAULT_LIMIT, Some(total), fuel - 1);
    SendsAppend(page.trace, rest.trace);
  }

  /** On a stable listing of `total` transfers, `get_all_transfers` makes
      `max(1, ceil(total / 50))` requests and succeeds. */
  lemma StableListingRequests(server: TronscanServer, apiKey: string, address: Option<string>,
                              from: Instant, to: Instant, total: int, fuel: nat)
    requires StableListing(server, apiKey, address, from, total)
    requires fuel >= PagesNeeded(total)
    ensures var r := GetAllTransfers(server, apiKey, address, from, to, fuel);
      r.result.Success? && |Sends(r.trace)| == PagesNeeded(total)
  {
    StableFetchOf(server, apiKey, address, from, to, total);
    PagesNeededLeft(total);
    StableFromStart(Fetcher(server, apiKey, address), Adds(from, to, Keep), Last(from), total, fuel);
  }
}
