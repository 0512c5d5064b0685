/** `MonoScanner` of app/payments/mono/scanner.py: for every configured item,
    the client info, then every account's statement over the item's window,
    each transaction mapped onto a record. */
module MonoScanner {
  import opened Wrappers
  import opened Records
  import opened Config
  import opened Http
  import opened MonoSchemas
  import opened MonoApi

  const KEY: string := "MONO"
  /** The one `RateLimiter(7, 60)` every item's `MonoApi` shares; its waits are
      the `Wait` events of the trace. */
  const LIMITER_MAX_CALLS: int := 7
  const LIMITER_PERIOD: real := 60.0

  /** `mono_transaction_to_record(client_info, account, ·, CURRENCY_CODES)`. */
  function MapRecord(client: ClientInfo, account: Account): Transaction -> Result<TransactionRecord, Error> {
    tx => ToRecord(client, account, tx, CURRENCY_CODES)
  }

  /** One account: its whole statement over `[from, to]` (Unix seconds), each
      transaction mapped once, in order. */
  function AccountRecords(server: MonoServer, token: string, client: ClientInfo, from: int, to: int,
                          fuel: nat, account: Account): (r: Run<seq<TransactionRecord>, MonoReq>)
    ensures r.trace == FetchAll(server, token, account.id, from, to, fuel).trace
    ensures r.result.Success? ==> FetchAll(server, token, account.id, from, to, fuel).result.Success?
    ensures r.result.Success? ==>
      var fetched := FetchAll(server, token, account.id, from, to, fuel).result.value;
      && |r.result.value| == |fetched|
      && forall i | 0 <= i < |fetched| ::
           ToRecord(client, account, fetched[i], CURRENCY_CODES) == Success(r.result.value[i])
    ensures r.result.Failure? ==>
      || (FetchAll(server, token, account.id, from, to, fuel).result.Failure? &&
          r.result.error == FetchAll(server, token, account.id, from, to, fuel).result.error)
      || (FetchAll(server, token, account.id, from, to, fuel).result.Success? &&
          exists tx | tx in FetchAll(server, token, account.id, from, to, fuel).result.value ::
           ToRecord(client, account, tx, CURRENCY_CODES) == Failure(r.result.error))
  {
    var fetched := FetchAll(server, token, account.id, from, to, fuel);
    if fetched.result.Failure? then Run(Failure(fetched.result.error), fetched.trace)
    else Run(MapAll(MapRecord(client, account), fetched.result.value), fetched.trace)
  }

  function AccountWork(server: MonoServer, token: string, client: ClientInfo, from: int, to: int,
                       fuel: nat): Account -> Run<seq<TransactionRecord>, MonoReq> {
    account => AccountRecords(server, token, client, from, to, fuel, account)
  }

  /** `_work_with_item`: the window `[now - days, now]` in Unix seconds, one
      client-info request, then the accounts in listed order. */
  function WorkWithItem(server: MonoServer, item: Item, now: Instant, fuel: nat): (r: Run<seq<TransactionRecord>, MonoReq>)
    ensures |r.trace| >= 2 && r.trace[..2] == [Wait, Send(ClientInfoReq(item.apiKey))]
    ensures FetchClientInfo(server, item.apiKey).result.Failure? ==>
      r == Run(Failure(FetchClientInfo(server, item.apiKey).result.error), [Wait, Send(ClientInfoReq(item.apiKey))])
    ensures FetchClientInfo(server, item.apiKey).result.Success? ==>
      var window := ScanWindow(now, item.days);
      var client := FetchClientInfo(server, item.apiKey).result.value;
      var work := AccountWork(server, item.apiKey, client, UnixSeconds(window.0), UnixSeconds(window.1), fuel);
      && (r.result.Success? <==> AllSucceed(work, client.accounts))
      && (r.result.Success? ==> r.result.value == Collected(work, client.accounts))
  {
    var window := ScanWindow(now, item.days);
    var info := FetchClientInfo(server, item.apiKey);
    if info.result.Failure? then Run(Failure(info.result.error), info.trace)
    else
      var client := info.result.value;
      var work := AccountWork(server, item.apiKey, client, UnixSeconds(window.0), UnixSeconds(window.1), fuel);
      ForEachConcat(work, client.accounts);
      Then([], info.trace, ForEach(work, client.accounts))
  }

  function ItemWork(server: MonoServer, now: Instant, fuel: nat): Item -> Run<seq<TransactionRecord>, MonoReq> {
    item => WorkWithItem(server, item, now, fuel)
  }

  /** `scan`: the items' records concatenated in item order; the first failing
      item ends the scan with its error. */
  function Scan(server: MonoServer, items: seq<Item>, now: Instant, fuel: nat): (r: Run<seq<TransactionRecord>, MonoReq>)
    ensures r.result.Success? <==> AllSucceed(ItemWork(server, now, fuel), items)
    ensures r.result.Success? ==> r == Run(Success(Collected(ItemWork(server, now, fuel), items)),
                                           Traces(ItemWork(server, now, fuel), items))
  {
    ForEachConcat(ItemWork(server, now, fuel), items);
    ForEach(ItemWork(server, now, fuel), items)
  }

  /** `_work_with_item` as the source runs it: a loop over the accounts, each
      statement mapped transaction by transaction. */
  method WorkWithItemLoop(server: MonoServer, item: Item, now: Instant, fuel: nat)
    returns (r: Run<seq<TransactionRecord>, MonoReq>)
    ensures r == WorkWithItem(server, item, now, fuel)
  {
    var window := ScanWindow(now, item.days);
    var from, to := UnixSeconds(window.0), UnixSeconds(window.1);
    var info := FetchClientInfo(server, item.apiKey);
    if info.result.Failure? {
      return Run(Failure(info.result.error), info.trace);
    }
    var client := info.result.value;
    var accounts := client.accounts;
    var work := AccountWork(server, item.apiKey, client, from, to, fuel);
    var records: seq<TransactionRecord> := [];
    var trace := info.trace;
    assert accounts[0..] == accounts;
    for i := 0 to |accounts|
      invariant WorkWithItem(server, item, now, fuel) == Then(records, trace, ForEach(work, accounts[i..]))
    {
      var account := accounts[i];
      ForEachStep(work, accounts, i, records, trace);
      var fetched := FetchAllTransactions(server, item.apiKey, account.id, from, to, fuel);
      if fetched.result.Failure? {
        return Run(Failure(fetched.result.error), trace + fetched.trace);
      }
      var mapped := MapEach(MapRecord(client, account), fetched.result.value);
      if mapped.Failure? {
        return Run(Failure(mapped.error), trace + fetched.trace);
      }
      records, trace := records + mapped.value, trace + fetched.trace;
    }
    assert accounts[|accounts|..] == [];
    ThenDone(records, trace);
    return Run(Success(records), trace);
  }

  /** `scan` as the source runs it. */
  method ScanLoop(server: MonoServer, items: seq<Item>, now: Instant, fuel: nat)
    returns (r: Run<seq<TransactionRecord>, MonoReq>)
    ensures r == Scan(server, items, now, fuel)
  {
    var records: seq<TransactionRecord> := [];
    var trace: seq<Event<MonoReq>> := [];
    var work := ItemWork(server, now, fuel);
    assert items[0..] == items;
    ThenNothing(ForEach(work, items));
    for i := 0 to |items|
      invariant Scan(server, items, now, fuel) == Then(records, trace, ForEach(work, items[i..]))
    {
      ForEachStep(work, items, i, records, trace);
      var one := WorkWithItemLoop(server, items[i], now, fuel);
      if one.result.Failure? {
        return Run(one.result, trace + one.trace);
      }
      records, trace := records + one.result.value, trace + one.trace;
    }
    assert items[|items|..] == [];
    ThenDone(records, trace);
    return Run(Success(records), trace);
  }
}
