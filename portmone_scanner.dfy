/** `PortmoneScanner` of app/payments/portmone/scanner.py: for every configured
    item, the payments over the item's window, each mapped onto a record. */
module PortmoneScanner {
  import opened Wrappers
  import opened Records
  import opened Config
  import opened Http
  import opened PortmoneSchemas
  import opened PortmoneApi

  const KEY: string := "PORTMONE"
  /** The scanner's `RateLimiter(7, 1)`; its waits are the `Wait` events of
      the trace. */
  const LIMITER_MAX_CALLS: int := 7
  const LIMITER_PERIOD: real := 1.0

  // ---------------------------------------------------------------------
  // As written: the configuration item has no login or password

  /** `_work_with_item` as written: building the API reads `item.login`,
      which `Item` does not declare, so AttributeError is raised before any
      request. */
  function WorkWithItemAsWritten(item: Item): Run<seq<TransactionRecord>, PortmoneReq> {
    Run(Failure(AttributeError), [])
  }

  function ScanAsWritten(items: seq<Item>): Run<seq<TransactionRecord>, PortmoneReq> {
    ForEach(WorkWithItemAsWritten, items)
  }

  /** As written, a configured Portmone item fails every scan with
      AttributeError, and no request is ever made. */
  lemma ScanAsWrittenAlwaysFails(items: seq<Item>)
    requires items != []
    ensures ScanAsWritten(items) == Run(Failure(AttributeError), [])
  {
  }

  // ---------------------------------------------------------------------
  // Corrected: the item carries the gateway login and password

  /** An item together with the login and password the scanner reads. */
  datatype PortmoneItem = PortmoneItem(item: Item, login: string, password: string)

  function CredentialsOf(p: PortmoneItem): Credentials {
    Credentials(p.login, p.password, p.item.payeeId)
  }

  /** `_work_with_item`: the window `[now - days, now]`, every payment of it
      mapped onto one record, in order. */
  function WorkWithItem(server: PortmoneServer, p: PortmoneItem, now: Instant): (r: Run<seq<TransactionRecord>, PortmoneReq>)
    ensures var window := ScanWindow(now, p.item.days);
      var fetched := FetchAllPayments(server, CredentialsOf(p), window.0, window.1);
      && r.trace == fetched.trace
      && (r.result.Success? <==> fetched.result.Success?)
      && (r.result.Failure? ==> r.result.error == fetched.result.error)
      && (r.result.Success? ==>
            && |r.result.value| == |fetched.result.value|
            && forall i | 0 <= i < |fetched.result.value| :: r.result.value[i] == ToRecord(fetched.result.value[i]))
  {
    var window := ScanWindow(now, p.item.days);
    var fetched := FetchAllPayments(server, CredentialsOf(p), window.0, window.1);
    if fetched.result.Failure? then Run(Failure(fetched.result.error), fetched.trace)
    else
      var payments := fetched.result.value;
      Run(Success(seq(|payments|, i requires 0 <= i < |payments| => ToRecord(payments[i]))), fetched.trace)
  }

  function ItemWork(server: PortmoneServer, now: Instant): PortmoneItem -> Run<seq<TransactionRecord>, PortmoneReq> {
    p => WorkWithItem(server, p, now)
  }

  /** `scan`: the items' records concatenated in item order; the first failing
      item ends the scan with its error. */
  function Scan(server: PortmoneServer, items: seq<PortmoneItem>, now: Instant): (r: Run<seq<TransactionRecord>, PortmoneReq>)
    ensures r.result.Success? <==> AllSucceed(ItemWork(server, now), items)
    ensures r.result.Success? ==> r == Run(Success(Collected(ItemWork(server, now), items)),
                                           Traces(ItemWork(server, now), items))
  {
    ForEachConcat(ItemWork(server, now), items);
    ForEach(ItemWork(server, now), items)
  }

  /** `scan` as the source runs it. */
  method ScanLoop(server: PortmoneServer, items: seq<PortmoneItem>, now: Instant)
    returns (r: Run<seq<TransactionRecord>, PortmoneReq>)
    ensures r == Scan(server, items, now)
  {
    var records: seq<TransactionRecord> := [];
    var trace: seq<Event<PortmoneReq>> := [];
    var work := ItemWork(server, now);
    assert items[0..] == items;
    ThenNothing(ForEach(work, items));
    for i := 0 to |items|
      invariant Scan(server, items, now) == Then(records, trace, ForEach(work, items[i..]))
    {
      ForEachStep(work, items, i, records, trace);
      var window := ScanWindow(now, items[i].item.days);
      var fetched := FetchAllPaymentsLoop(server, CredentialsOf(items[i]), window.0, window.1);
      if fetched.result.Failure? {
        return Run(Failure(fetched.result.error), trace + fetched.trace);
      }
      var payments := fetched.result.value;
      var mapped := seq(|payments|, j requires 0 <= j < |payments| => ToRecord(payments[j]));
      records, trace := records + mapped, trace + fetched.trace;
    }
    assert items[|items|..] == [];
    ThenDone(records, trace);
    return Run(Success(records), trace);
  }
}
