/** `ERC20Scanner` of app/payments/etherscan/scanner.py: the token transfers
    of one fixed wallet over the last 365 days, for the first configured item
    only. */
module EtherscanScanner {
  import opened Wrappers
  import opened Records
  import opened Config
  import opened Http
  import opened EtherscanSchemas
  import opened EtherscanApi

  const KEY: string := "ERC20"
  /** The scanner's `RateLimiter(2, 1)`; the API never calls it. */
  const LIMITER_MAX_CALLS: int := 2
  const LIMITER_PERIOD: real := 1.0
  /** The window is always 365 days; `item.days` is not read. */
  const WINDOW_DAYS: int := 365
  /** The wallet every scan reads, whatever the item's own address. */
  const SCANNED_ADDRESS: string := "0x19Cf249E7e423b5Bd2d41FD62e7f3adbfdEe5B47"

  /** `from_date <= transaction.block_timestamp <= to_date`. */
  function InWindow(from: Instant, to: Instant): Transaction -> bool {
    tx => from <= BlockTimestamp(tx) <= to
  }

  function MapRecord(fold: string -> string, intOf: string -> Option<int>): Transaction -> Result<TransactionRecord, Error> {
    tx => ToRecord(tx, SCANNED_ADDRESS, fold, intOf)
  }

  /** `_work_with_item`: every transfer of the wallet inside
      `[now - 365 days, now]` mapped onto one record, in listing order; the
      first transfer that cannot be mapped raises. */
  function WorkWithItem(server: EtherscanServer, fold: string -> string, intOf: string -> Option<int>,
                        item: Item, now: Instant, fuel: nat): (r: Run<seq<TransactionRecord>, EtherscanReq>)
    ensures var fetched := FetchAllTransactions(server, item.apiKey, SCANNED_ADDRESS, fuel);
      && r.trace == fetched.trace
      && NoWaits(r.trace)
      && (fetched.result.Failure? ==> r.result == Failure(fetched.result.error))
      && (r.result.Success? ==>
            var kept := Filter(InWindow(now - WINDOW_DAYS * MICROS_PER_DAY, now), fetched.result.value);
            && |r.result.value| == |kept|
            && forall i | 0 <= i < |kept| ::
                 && ToRecord(kept[i], SCANNED_ADDRESS, fold, intOf) == Success(r.result.value[i])
                 && r.result.value[i].operationDatetime.Some?
                 && now - WINDOW_DAYS * MICROS_PER_DAY <= r.result.value[i].operationDatetime.value <= now
                 && r.result.value[i].accountNumber == Some(SCANNED_ADDRESS))
      && (r.result.Failure? && fetched.result.Success? ==>
            var kept := Filter(InWindow(now - WINDOW_DAYS * MICROS_PER_DAY, now), fetched.result.value);
            exists i | 0 <= i < |kept| :: ToRecord(kept[i], SCANNED_ADDRESS, fold, intOf) == Failure(r.result.error))
  {
    var window := ScanWindow(now, WINDOW_DAYS);
    var fetched := FetchAllTransactions(server, item.apiKey, SCANNED_ADDRESS, fuel);
    if fetched.result.Failure? then Run(Failure(fetched.result.error), fetched.trace)
    else
      WindowRecords(fold, intOf, window.0, window.1, fetched.result.value);
      Run(MapAll(MapRecord(fold, intOf), Filter(InWindow(window.0, window.1), fetched.result.value)), fetched.trace)
  }

  /** The records of the in-window transfers: one per transfer, in order,
      each dated inside the window and booked on the scanned wallet. */
  lemma WindowRecords(fold: string -> string, intOf: string -> Option<int>, from: Instant, to: Instant,
                      txs: seq<Transaction>)
    ensures var kept := Filter(InWindow(from, to), txs);
      var r := MapAll(MapRecord(fold, intOf), kept);
      && (r.Success? ==>
            && |r.value| == |kept|
            && forall i | 0 <= i < |kept| ::
                 && ToRecord(kept[i], SCANNED_ADDRESS, fold, intOf) == Success(r.value[i])
                 && r.value[i].operationDatetime.Some?
                 && from <= r.value[i].operationDatetime.value <= to
                 && r.value[i].accountNumber == Some(SCANNED_ADDRESS))
      && (r.Failure? ==> exists i | 0 <= i < |kept| :: ToRecord(kept[i], SCANNED_ADDRESS, fold, intOf) == Failure(r.error))
  {
    var kept := Filter(InWindow(from, to), txs);
    var r := MapAll(MapRecord(fold, intOf), kept);
    if r.Success? {
      forall i | 0 <= i < |kept|
        ensures ToRecord(kept[i], SCANNED_ADDRESS, fold, intOf) == Success(r.value[i])
        ensures from <= BlockTimestamp(kept[i]) <= to
      {
        assert MapRecord(fold, intOf)(kept[i]).Success?;
        assert InWindow(from, to)(kept[i]);
      }
    } else {
      var i :| 0 <= i < |kept| && MapRecord(fold, intOf)(kept[i]) == Failure(r.error);
      assert ToRecord(kept[i], SCANNED_ADDRESS, fold, intOf) == Failure(r.error);
    }
  }

  /** `scan`: only the first item is scanned (the loop breaks after it). */
  function Scan(server: EtherscanServer, fold: string -> string, intOf: string -> Option<int>,
                items: seq<Item>, now: Instant, fuel: nat): (r: Run<seq<TransactionRecord>, EtherscanReq>)
    ensures items == [] ==> r == Run(Success([]), [])
    ensures items != [] ==> r == WorkWithItem(server, fold, intOf, items[0], now, fuel)
  {
    if items == [] then Run(Success([]), [])
    else WorkWithItem(server, fold, intOf, items[0], now, fuel)
  }

  /** Items after the first are never read. */
  lemma OnlyFirstItemScanned(server: EtherscanServer, fold: string -> string, intOf: string -> Option<int>,
                             item: Item, rest: seq<Item>, now: Instant, fuel: nat)
    ensures Scan(server, fold, intOf, [item] + rest, now, fuel) == Scan(server, fold, intOf, [item], now, fuel)
  {
  }

  /** The item's own address, name and days make no difference: only its API
      key does. */
  lemma OnlyApiKeyMatters(server: EtherscanServer, fold: string -> string, intOf: string -> Option<int>,
                          a: Item, b: Item, now: Instant, fuel: nat)
    requires a.apiKey == b.apiKey
    ensures WorkWithItem(server, fold, intOf, a, now, fuel) == WorkWithItem(server, fold, intOf, b, now, fuel)
  {
  }

  /** `_work_with_item` as the source runs it. */
  method WorkWithItemLoop(server: EtherscanServer, fold: string -> string, intOf: string -> Option<int>,
                          item: Item, now: Instant, fuel: nat) returns (r: Run<seq<TransactionRecord>, EtherscanReq>)
    ensures r == WorkWithItem(server, fold, intOf, item, now, fuel)
  {
    var window := ScanWindow(now, WINDOW_DAYS);
    var fetched := FetchAllTransactionsLoop(server, item.apiKey, SCANNED_ADDRESS, fuel);
    if fetched.result.Failure? {
      return Run(Failure(fetched.result.error), fetched.trace);
    }
    var records := MapWhereEach(InWindow(window.0, window.1), MapRecord(fold, intOf), fetched.result.value);
    return Run(records, fetched.trace);
  }

  /** `scan` as the source runs it: the item loop ends after its first round. */
  method ScanLoop(server: EtherscanServer, fold: string -> string, intOf: string -> Option<int>,
                  items: seq<Item>, now: Instant, fuel: nat) returns (r: Run<seq<TransactionRecord>, EtherscanReq>)
    ensures r == Scan(server, fold, intOf, items, now, fuel)
  {
    r := Run(Success([]), []);
    for i := 0 to |items|
      invariant i == 0 && r == Run(Success([]), [])
    {
      r := WorkWithItemLoop(server, fold, intOf, items[i], now, fuel);
      break;
    }
  }
}
