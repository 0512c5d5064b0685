/** `PrivatScanner` of app/payments/privat/scanner.py: for every configured
    item, the account names from the balances, then the statement over the
    item's window, each transaction mapped onto a record. */
module PrivatScanner {
  import opened Wrappers
  import opened Records
  import opened Config
  import opened Http
  import opened PrivatSchemas
  import opened PrivatApi

  const KEY: string := "PRIVAT"
  /** The scanner's `RateLimiter(7, 1)`; its waits are the `Wait` events of
      the trace. */
  const LIMITER_MAX_CALLS: int := 7
  const LIMITER_PERIOD: real := 1.0

  /** `privat_transaction_to_record(·, acc_name_map, CURRENCY_CODES)`. */
  function MapRecord(names: map<string, string>): Transaction -> Result<TransactionRecord, Error> {
    tx => ToRecord(tx, names, CURRENCY_CODES)
  }

  /** `_work_with_item`: the window `[now - days, now]`, whose ends are sent
      as the Europe/Kyiv calendar dates `kyivDate` gives; the balances, then
      the statement, then one record per transaction in order. */
  function WorkWithItem(server: PrivatServer, kyivDate: Instant -> Date, item: Item, now: Instant,
                        fuel: nat): (r: Run<seq<TransactionRecord>, PrivatReq>)
    ensures var balances := FetchAllBalances(server, item.apiKey, fuel);
      var window := ScanWindow(now, item.days);
      var txs := FetchAllTransactions(server, item.apiKey, kyivDate(window.0), kyivDate(window.1), fuel);
      && (r.result.Success? <==>
            (&& balances.result.Success? && txs.result.Success?
             && forall i | 0 <= i < |txs.result.value| ::
                  ToRecord(txs.result.value[i], AccNameMap(balances.result.value), CURRENCY_CODES).Success?))
      && (r.result.Success? ==>
            && |r.result.value| == |txs.result.value|
            && forall i | 0 <= i < |txs.result.value| ::
                 Success(r.result.value[i]) == ToRecord(txs.result.value[i], AccNameMap(balances.result.value), CURRENCY_CODES))
    ensures BalancesFirst(Sends(r.trace))
    ensures forall i | 0 <= i < |Sends(r.trace)| :: Sends(r.trace)[i].token == item.apiKey
    ensures PacedSends(r.trace)
  {
    var window := ScanWindow(now, item.days);
    var balances := FetchAllBalances(server, item.apiKey, fuel);
    if balances.result.Failure? then Run(Failure(balances.result.error), balances.trace)
    else
      var names := AccNameMap(balances.result.value);
      var txs := FetchAllTransactions(server, item.apiKey, kyivDate(window.0), kyivDate(window.1), fuel);
      SendsAppend(balances.trace, txs.trace);
      PacedAppend(balances.trace, txs.trace);
      if txs.result.Failure? then Run(Failure(txs.result.error), balances.trace + txs.trace)
      else Run(MapAll(MapRecord(names), txs.result.value), balances.trace + txs.trace)
  }

  /** No balance request comes after a statement request. */
  predicate BalancesFirst(reqs: seq<PrivatReq>) {
    forall i, j | 0 <= i < j < |reqs| :: reqs[j].BalancesReq? ==> reqs[i].BalancesReq?
  }

  function ItemWork(server: PrivatServer, kyivDate: Instant -> Date, now: Instant,
                    fuel: nat): Item -> Run<seq<TransactionRecord>, PrivatReq> {
    item => WorkWithItem(server, kyivDate, item, now, fuel)
  }

  /** `scan`: the items' records concatenated in item order; the first failing
      item ends the scan with its error. */
  function Scan(server: PrivatServer, kyivDate: Instant -> Date, items: seq<Item>, now: Instant,
                fuel: nat): (r: Run<seq<TransactionRecord>, PrivatReq>)
    ensures r.result.Success? <==> AllSucceed(ItemWork(server, kyivDate, now, fuel), items)
    ensures r.result.Success? ==> r == Run(Success(Collected(ItemWork(server, kyivDate, now, fuel), items)),
                                           Traces(ItemWork(server, kyivDate, now, fuel), items))
  {
    ForEachConcat(ItemWork(server, kyivDate, now, fuel), items);
    ForEach(ItemWork(server, kyivDate, now, fuel), items)
  }

  /** `_work_with_item` as the source runs it: both cursor loops, the name
      map, then a loop appending one record per transaction. */
  method WorkWithItemLoop(server: PrivatServer, kyivDate: Instant -> Date, item: Item, now: Instant,
                          fuel: nat) returns (r: Run<seq<TransactionRecord>, PrivatReq>)
    ensures r == WorkWithItem(server, kyivDate, item, now, fuel)
  {
    var window := ScanWindow(now, item.days);
    var balances := CursorLoop(BalancesRequest(item.apiKey), server.balances, [Wait], [], fuel);
    if balances.result.Failure? {
      return Run(Failure(balances.result.error), balances.trace);
    }
    var names := AccNameMap(balances.result.value);
    var txs := CursorLoop(TransactionsRequest(item.apiKey, kyivDate(window.0), kyivDate(window.1)),
                          server.transactions, [Wait], [], fuel);
    if txs.result.Failure? {
      return Run(Failure(txs.result.error), balances.trace + txs.trace);
    }
    var records := MapEach(MapRecord(names), txs.result.value);
    return Run(records, balances.trace + txs.trace);
  }

  /** `scan` as the source runs it. */
  method ScanLoop(server: PrivatServer, kyivDate: Instant -> Date, items: seq<Item>, now: Instant,
                  fuel: nat) returns (r: Run<seq<TransactionRecord>, PrivatReq>)
    ensures r == Scan(server, kyivDate, items, now, fuel)
  {
    var records: seq<TransactionRecord> := [];
    var trace: seq<Event<PrivatReq>> := [];
    var work := ItemWork(server, kyivDate, now, fuel);
    assert items[0..] == items;
    ThenNothing(ForEach(work, items));
    for i := 0 to |items|
      invariant Scan(server, kyivDate, items, now, fuel) == Then(records, trace, ForEach(work, items[i..]))
    {
      ForEachStep(work, items, i, records, trace);
      var one := WorkWithItemLoop(server, kyivDate, items[i], now, fuel);
      if one.result.Failure? {
        return Run(one.result, trace + one.trace);
      }
      records, trace := records + one.result.value, trace + one.trace;
    }
    assert items[|items|..] == [];
    ThenDone(records, trace);
    return Run(Success(records), trace);
  }
}
