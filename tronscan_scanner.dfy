/** `TRC20Scanner` of app/payments/tronscan/scanner.py: for every configured
    item, the TRC20 transfers of its address over the item's window, read page
    by page until a page reaches back before the window, each in-window
    transfer mapped onto a record. */
module TronscanScanner {
  import opened Wrappers
  import opened Records
  import opened Config
  import opened Http
  import opened TronscanSchemas
  import opened TronscanApi

  const KEY: string := "TRC20"
  /** The one `RateLimiter(7, 1)` every item's `TRC20Api` shares; its waits
      are the `Wait` events of the trace. */
  const LIMITER_MAX_CALLS: int := 7
  const LIMITER_PERIOD: real := 1.0

  /** `trc20_transfer_to_record(transfer, item.address)`: an item without an
      address fails on `address.casefold()`. */
  function MapRecord(fold: string -> string, address: Option<string>): TokenTransfer -> Result<TransactionRecord, Error> {
    t => if address.None? then Failure(AttributeError) else ToRecord(t, address.value, fold)
  }

  /** The scanner's own page loop reads the same pages as `get_all_transfers`
      and maps what that returns: when it succeeds, its trace is the API's and
      its records are the API's transfers mapped one by one; when the API
      succeeds and every transfer maps, so does the scanner. */
  lemma {:induction false} CollectMapped<Y>(fetch: int -> Run<TransfersPage, TronscanReq>, from: Instant, to: Instant,
                                            keep: TokenTransfer -> Result<Y, Error>,
                                            start: int, total: Option<int>, fuel: nat)
    ensures var a := Collect(fetch, Adds(from, to, keep), Last(from), start, total, fuel);
      var b := Collect(fetch, Adds(from, to, Keep), Last(from), start, total, fuel);
      && (a.result.Success? ==> b.result.Success? && a.trace == b.trace && a.result == MapAll(keep, b.result.value))
      && (b.result.Success? && MapAll(keep, b.result.value).Success? ==> a.result.Success?)
    decreases fuel
  {
    if !Exhausted(start, total) && fuel > 0 {
      var page := fetch(start);
      if page.result.Success? {
        var ts := page.result.value.transfers;
        var kept := Filter(Within(from, to), ts);
        KeepAll(kept);
        assert Adds(from, to, Keep)(ts) == Success(kept);
        assert Adds(from, to, keep)(ts) == MapAll(keep, kept);
        var next, total' := start + DEFAULT_LIMIT, Some(page.result.value.total);
        CollectMapped(fetch, from, to, keep, next, total', fuel - 1);
        var b := Collect(fetch, Adds(from, to, Keep), Last(from), next, total', fuel - 1);
        if !Last(from)(ts) && b.result.Success? {
          MapAllAppend(keep, kept, b.result.value);
        }
      }
    }
  }

  /** The records of `get_all_transfers`'s result: one per transfer, in
      order, each dated inside the window and booked on `address`. */
  lemma RecordsInWindow(fold: string -> string, address: Option<string>, from: Instant, to: Instant,
                        ts: seq<TokenTransfer>)
    ensures var r := MapAll(MapRecord(fold, address), ts);
      AllInWindow(from, to, ts) && r.Success? ==>
        && |r.value| == |ts|
        && (address.None? ==> ts == [])
        && forall i | 0 <= i < |ts| ::
             && address.Some?
             && ToRecord(ts[i], address.value, fold) == Success(r.value[i])
             && r.value[i].operationDatetime.Some?
             && from <= r.value[i].operationDatetime.value <= to
             && r.value[i].accountNumber == address
  {
    var r := MapAll(MapRecord(fold, address), ts);
    if AllInWindow(from, to, ts) && r.Success? {
      forall i | 0 <= i < |ts|
        ensures address.Some? && ToRecord(ts[i], address.value, fold) == Success(r.value[i])
      {
        assert MapRecord(fold, address)(ts[i]).Success?;
      }
      assert forall i | 0 <= i < |ts| :: InWindow(from, to, ts[i]);
    }
  }

  /** `_work_with_item`: the window `[now - item.days, now]`, the transfer
      pages of the item's address from offset 0, every request waiting on the
      shared limiter first. */
  function WorkWithItem(server: TronscanServer, fold: string -> string, item: Item, now: Instant, fuel: nat)
    : (r: Run<seq<TransactionRecord>, TronscanReq>)
    ensures PacedSends(r.trace)
    ensures var window := ScanWindow(now, item.days);
      var api := GetAllTransfers(server, item.apiKey, item.address, window.0, window.1, fuel);
      && (r.result.Success? ==>
            && api.result.Success? && r.trace == api.trace
            && |r.result.value| == |api.result.value|
            && (item.address.None? ==> r.result.value == [])
            && forall i | 0 <= i < |api.result.value| ::
                 && item.address.Some?
                 && ToRecord(api.result.value[i], item.address.value, fold) == Success(r.result.value[i])
                 && r.result.value[i].operationDatetime.Some?
                 && window.0 <= r.result.value[i].operationDatetime.value <= now
                 && r.result.value[i].accountNumber == item.address)
      && (api.result.Success? && MapAll(MapRecord(fold, item.address), api.result.value).Success? ==>
            r.result.Success?)
  {
    var window := ScanWindow(now, item.days);
    var fetch := Fetcher(server, item.apiKey, item.address);
    var keep := MapRecord(fold, item.address);
    FetcherPaced(server, item.apiKey, item.address);
    CollectPaced(fetch, Adds(window.0, window.1, keep), Last(window.0), 0, None, fuel);
    CollectMapped(fetch, window.0, window.1, keep, 0, None, fuel);
    var api := GetAllTransfers(server, item.apiKey, item.address, window.0, window.1, fuel);
    RecordsInWindow(fold, item.address, window.0, window.1, if api.result.Success? then api.result.value else []);
    Collect(fetch, Adds(window.0, window.1, keep), Last(window.0), 0, None, fuel)
  }

  function ItemWork(server: TronscanServer, fold: string -> string, now: Instant, fuel: nat)
    : Item -> Run<seq<TransactionRecord>, TronscanReq>
  {
    item => WorkWithItem(server, fold, item, now, fuel)
  }

  /** `scan`: the items' records concatenated in item order; the first failing
      item ends the scan with its error. */
  function Scan(server: TronscanServer, fold: string -> string, items: seq<Item>, now: Instant, fuel: nat)
    : (r: Run<seq<TransactionRecord>, TronscanReq>)
    ensures r.result.Success? <==> AllSucceed(ItemWork(server, fold, now, fuel), items)
    ensures r.result.Success? ==> r == Run(Success(Collected(ItemWork(server, fold, now, fuel), items)),
                                           Traces(ItemWork(server, fold, now, fuel), items))
  {
    ForEachConcat(ItemWork(server, fold, now, fuel), items);
    ForEach(ItemWork(server, fold, now, fuel), items)
  }

  /** `_work_with_item` as the source runs it. */
  method WorkWithItemLoop(server: TronscanServer, fold: string -> string, item: Item, now: Instant, fuel: nat)
    returns (r: Run<seq<TransactionRecord>, TronscanReq>)
    ensures r == WorkWithItem(server, fold, item, now, fuel)
  {
    var window := ScanWindow(now, item.days);
    r := CollectLoop(server, item.apiKey, item.address, window.0, window.1, MapRecord(fold, item.address), fuel);
  }

  /** `scan` as the source runs it. */
  method ScanLoop(server: TronscanServer, fold: string -> string, items: seq<Item>, now: Instant, fuel: nat)
    returns (r: Run<seq<TransactionRecord>, TronscanReq>)
    ensures r == Scan(server, fold, items, now, fuel)
  {
    var records: seq<TransactionRecord> := [];
    var trace: seq<Event<TronscanReq>> := [];
    var work := ItemWork(server, fold, now, fuel);
    assert items[0..] == items;
    ThenNothing(ForEach(work, items));
    for i := 0 to |items|
      invariant Scan(server, fold, items, now, fuel) == Then(records, trace, ForEach(work, items[i..]))
    {
      ForEachStep(work, items, i, records, trace);
      var one := WorkWithItemLoop(server, fold, items[i], now, fuel);
      if one.result.Failure? {
        return Run(one.result, trace + one.trace);
      }
      records, trace := records + one.result.value, trace + one.trace;
    }
    assert items[|items|..] == [];
    ThenDone(records, trace);
    return Run(Success(records), trace);
  }
}
