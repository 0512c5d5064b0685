/** `BitfakturaScanner` of app/payments/bitfaktura/scanner.py: for every
    configured item, the item's invoices, each mapped onto one record. */
module BitfakturaScanner {
  import opened Wrappers
  import opened Records
  import opened Config
  import opened Http
  import opened BitfakturaSchemas
  import opened BitfakturaApi
  import opened PyText

  const KEY: string := "BITFACTURA"
  /** The one `RateLimiter(7, 1)` every item's `BitfakturaApi` shares. */
  const LIMITER_MAX_CALLS: int := 7
  const LIMITER_PERIOD: real := 1.0

  // ---------------------------------------------------------------------
  // As written: `fetch_all_invoices(from_date, to_date)`

  /** `_work_with_item` as written: it passes the window to
      `fetch_all_invoices`, which takes no arguments, so TypeError is raised
      before any request. */
  function WorkWithItemAsWritten(item: Item, now: Instant): Run<seq<TransactionRecord>, BitfakturaReq> {
    Run(Failure(TypeError), [])
  }

  function ItemWorkAsWritten(now: Instant): Item -> Run<seq<TransactionRecord>, BitfakturaReq> {
    item => WorkWithItemAsWritten(item, now)
  }

  function ScanAsWritten(items: seq<Item>, now: Instant): Run<seq<TransactionRecord>, BitfakturaReq> {
    ForEach(ItemWorkAsWritten(now), items)
  }

  /** As written, a configured Bitfaktura item fails every scan with
      TypeError and no invoice is ever requested, whatever the server. */
  lemma ScanAsWrittenAlwaysFails(items: seq<Item>, now: Instant)
    requires items != []
    ensures ScanAsWritten(items, now) == Run(Failure(TypeError), [])
  {
  }

  // ---------------------------------------------------------------------
  // Corrected: `fetch_all_invoices()`

  function MapRecords(invoices: seq<Invoice>): (records: seq<TransactionRecord>)
    ensures |records| == |invoices|
    ensures forall i | 0 <= i < |invoices| :: records[i] == ToRecord(invoices[i])
  {
    seq(|invoices|, i requires 0 <= i < |invoices| => ToRecord(invoices[i]))
  }

  /** `_work_with_item` with the call corrected: every invoice of the item's
      listing mapped onto one record, in order. The window it computes is
      only logged, so it selects nothing. */
  function WorkWithItem(server: BitfakturaServer, item: Item, fuel: nat): (r: Run<seq<TransactionRecord>, BitfakturaReq>)
    ensures var fetched := FetchAllInvoices(server, item.apiKey, fuel);
      && r.trace == fetched.trace
      && PacedSends(r.trace)
      && (r.result.Success? <==> fetched.result.Success?)
      && (r.result.Failure? ==> r.result.error == fetched.result.error)
      && (r.result.Success? ==>
            && |r.result.value| == |fetched.result.value|
            && forall i | 0 <= i < |fetched.result.value| ::
                 && r.result.value[i] == ToRecord(fetched.result.value[i])
                 && r.result.value[i].transactionId == IntText(fetched.result.value[i].id))
  {
    var fetched := FetchAllInvoices(server, item.apiKey, fuel);
    if fetched.result.Failure? then Run(Failure(fetched.result.error), fetched.trace)
    else Run(Success(MapRecords(fetched.result.value)), fetched.trace)
  }

  /** With the call corrected, a scan succeeds exactly when every item's
      listing does; the as-written scan of the same items never does. */
  lemma CorrectedScanSucceeds(server: BitfakturaServer, items: seq<Item>, now: Instant, fuel: nat)
    requires items != []
    requires forall i | 0 <= i < |items| :: FetchAllInvoices(server, items[i].apiKey, fuel).result.Success?
    ensures Scan(server, items, fuel).result.Success?
    ensures ScanAsWritten(items, now).result == Failure(TypeError)
  {
    forall i | 0 <= i < |items| ensures ItemWork(server, fuel)(items[i]).result.Success? {
      assert ItemWork(server, fuel)(items[i]) == WorkWithItem(server, items[i], fuel);
    }
  }

  function ItemWork(server: BitfakturaServer, fuel: nat): Item -> Run<seq<TransactionRecord>, BitfakturaReq> {
    item => WorkWithItem(server, item, fuel)
  }

  /** `scan`: the items' records concatenated in item order; the first failing
      item ends the scan with its error. */
  function Scan(server: BitfakturaServer, items: seq<Item>, fuel: nat): (r: Run<seq<TransactionRecord>, BitfakturaReq>)
    ensures r.result.Success? <==> AllSucceed(ItemWork(server, fuel), items)
    ensures r.result.Success? ==> r == Run(Success(Collected(ItemWork(server, fuel), items)),
                                           Traces(ItemWork(server, fuel), items))
  {
    ForEachConcat(ItemWork(server, fuel), items);
    ForEach(ItemWork(server, fuel), items)
  }

  /** The list comprehension of `_work_with_item`, one invoice at a time. */
  method MapRecordsLoop(invoices: seq<Invoice>) returns (records: seq<TransactionRecord>)
    ensures records == MapRecords(invoices)
  {
    records := [];
    for i := 0 to |invoices|
      invariant records == MapRecords(invoices[..i])
    {
      assert invoices[..i + 1] == invoices[..i] + [invoices[i]];
      records := records + [ToRecord(invoices[i])];
    }
    assert invoices[..|invoices|] == invoices;
  }

  /** `_work_with_item` (corrected) as the source runs it. */
  method WorkWithItemLoop(server: BitfakturaServer, item: Item, fuel: nat)
    returns (r: Run<seq<TransactionRecord>, BitfakturaReq>)
    ensures r == WorkWithItem(server, item, fuel)
  {
    var fetched := FetchAllInvoicesLoop(server, item.apiKey, fuel);
    if fetched.result.Failure? {
      return Run(Failure(fetched.result.error), fetched.trace);
    }
    var records := MapRecordsLoop(fetched.result.value);
    return Run(Success(records), fetched.trace);
  }

  /** `scan` as the source runs it. */
  method ScanLoop(server: BitfakturaServer, items: seq<Item>, fuel: nat)
    returns (r: Run<seq<TransactionRecord>, BitfakturaReq>)
    ensures r == Scan(server, items, fuel)
  {
    var records: seq<TransactionRecord> := [];
    var trace: seq<Event<BitfakturaReq>> := [];
    var work := ItemWork(server, fuel);
    assert items[0..] == items;
    ThenNothing(ForEach(work, items));
    for i := 0 to |items|
      invariant Scan(server, items, fuel) == Then(records, trace, ForEach(work, items[i..]))
    {
      ForEachStep(work, items, i, records, trace);
      var one := WorkWithItemLoop(server, items[i], fuel);
      if one.result.Failure? {
        return Run(one.result, trace + one.trace);
      }
      records, trace := records + one.result.value, trace + one.trace;
    }
    assert items[|items|..] == [];
    ThenDone(records, trace);
    return Run(Success(records), trace);
  }
}
