/** `scan` and `remove_duplicates` of app/scan_command.py: every configured
    scanner runs in a fixed order, the records of each are deduplicated on
    their transaction id, and what was collected is upserted into the
    BigQuery table in one go. */
module ScanCommand {
  import opened Wrappers
  import opened Records
  import opened Config
  import opened SqlText
  import opened BigQueryClient
  import BigQueryTable
  import Qp
  import PrivatScanner
  import MonoScanner
  import BitfakturaScanner
  import EtherscanScanner
  import TronscanScanner
  import PortmoneScanner

  // ---------------------------------------------------------------------
  // remove_duplicates

  /** Where `id` first occurs among the records, or `|d|` when it does not. */
  function Find(d: seq<TransactionRecord>, id: string): (k: nat)
    ensures k <= |d|
    ensures k < |d| ==> d[k].transactionId == id
    ensures forall j | 0 <= j < k :: d[j].transactionId != id
    decreases |d|
  {
    if d == [] then 0
    else if d[0].transactionId == id then 0
    else 1 + Find(d[1..], id)
  }

  /** Some record carries the id. */
  predicate HasId(d: seq<TransactionRecord>, id: string) {
    exists i | 0 <= i < |d| :: d[i].transactionId == id
  }

  /** No two records share an id. */
  predicate DistinctIds(d: seq<TransactionRecord>) {
    forall i, j | 0 <= i < j < |d| :: d[i].transactionId != d[j].transactionId
  }

  /** The id occurs exactly when its first occurrence is inside the list. */
  lemma FindHasId(d: seq<TransactionRecord>, id: string)
    ensures HasId(d, id) <==> Find(d, id) < |d|
  {
    if HasId(d, id) {
      var i :| 0 <= i < |d| && d[i].transactionId == id;
      assert Find(d, id) <= i;
    }
  }

  /** A record added at the end moves no first occurrence that was already
      there. */
  lemma FindAppend(d: seq<TransactionRecord>, r: TransactionRecord, id: string)
    ensures Find(d + [r], id) ==
      if Find(d, id) < |d| then Find(d, id) else if r.transactionId == id then |d| else |d| + 1
  {
    var k, e := Find(d, id), d + [r];
    if k < |d| {
      assert e[k] == d[k];
    } else if r.transactionId == id {
      assert e[|d|] == r;
    }
    forall j | 0 <= j < |d| ensures e[j] == d[j] {}
  }

  /** `records_map[record.transaction_id] = record`: a known id keeps its
      place and takes the new record, a new one is added at the end. */
  function Put(d: seq<TransactionRecord>, r: TransactionRecord): (e: seq<TransactionRecord>)
    ensures |d| <= |e| <= |d| + 1
  {
    var k := Find(d, r.transactionId);
    if k < |d| then d[k := r] else d + [r]
  }

  /** `remove_duplicates(records)`: the dictionary built record by record,
      then its values in insertion order. */
  function RemoveDuplicates(records: seq<TransactionRecord>): (d: seq<TransactionRecord>)
    ensures |d| <= |records|
    ensures records != [] ==> d != []
  {
    if records == [] then []
    else Put(RemoveDuplicates(records[..|records| - 1]), records[|records| - 1])
  }

  /** Put keeps the ids distinct and adds exactly the record's id. */
  lemma PutMeaning(d: seq<TransactionRecord>, r: TransactionRecord)
    requires DistinctIds(d)
    ensures DistinctIds(Put(d, r))
    ensures forall id :: HasId(Put(d, r), id) <==> HasId(d, id) || id == r.transactionId
    ensures forall i | 0 <= i < |Put(d, r)| ::
      Put(d, r)[i] == r || (i < |d| && Put(d, r)[i] == d[i] && d[i].transactionId != r.transactionId)
  {
    var k, e := Find(d, r.transactionId), Put(d, r);
    forall id ensures HasId(e, id) <==> HasId(d, id) || id == r.transactionId {
      if HasId(e, id) {
        var i :| 0 <= i < |e| && e[i].transactionId == id;
        if e[i] != r {
          assert d[i] == e[i];
        }
      }
      if HasId(d, id) {
        var i :| 0 <= i < |d| && d[i].transactionId == id;
        assert e[i].transactionId == id;
      }
      if id == r.transactionId {
        var i := if k < |d| then k else |d|;
        assert e[i] == r;
      }
    }
  }

  /** The ids of a list with one more record are the old ones and its id. */
  lemma HasIdSnoc(pre: seq<TransactionRecord>, r: TransactionRecord, id: string)
    ensures HasId(pre + [r], id) <==> HasId(pre, id) || id == r.transactionId
  {
    var records := pre + [r];
    if HasId(records, id) {
      var i :| 0 <= i < |records| && records[i].transactionId == id;
      if i < |pre| {
        assert pre[i] == records[i];
      }
    }
    if HasId(pre, id) {
      var i :| 0 <= i < |pre| && pre[i].transactionId == id;
      assert records[i] == pre[i];
    }
    if id == r.transactionId {
      assert records[|pre|] == r;
    }
  }

  /** The ids of the result are the ids of the input. */
  lemma {:induction false} RemoveDuplicatesIds(records: seq<TransactionRecord>)
    ensures DistinctIds(RemoveDuplicates(records))
    ensures forall id :: HasId(RemoveDuplicates(records), id) <==> HasId(records, id)
    decreases |records|
  {
    if records != [] {
      var pre, r := records[..|records| - 1], records[|records| - 1];
      RemoveDuplicatesIds(pre);
      PutMeaning(RemoveDuplicates(pre), r);
      assert records == pre + [r];
      forall id ensures HasId(records, id) <==> HasId(pre, id) || id == r.transactionId {
        HasIdSnoc(pre, r, id);
      }
    }
  }

  /** Where `id` last occurs among the records, or -1 when it does not. */
  function Last(d: seq<TransactionRecord>, id: string): (k: int)
    ensures -1 <= k < |d|
    ensures 0 <= k ==> d[k].transactionId == id
    ensures forall j | k < j < |d| :: d[j].transactionId != id
  {
    if d == [] then -1
    else if d[|d| - 1].transactionId == id then |d| - 1
    else Last(d[..|d| - 1], id)
  }

  /** The record kept for an id is its last occurrence in the input. */
  lemma {:induction false} RemoveDuplicatesLastWins(records: seq<TransactionRecord>)
    ensures forall i | 0 <= i < |RemoveDuplicates(records)| ::
      var id := RemoveDuplicates(records)[i].transactionId;
      0 <= Last(records, id) && RemoveDuplicates(records)[i] == records[Last(records, id)]
    decreases |records|
  {
    if records != [] {
      var pre, r := records[..|records| - 1], records[|records| - 1];
      var out := RemoveDuplicates(pre);
      RemoveDuplicatesLastWins(pre);
      RemoveDuplicatesIds(pre);
      PutMeaning(out, r);
      var e := Put(out, r);
      assert RemoveDuplicates(records) == e;
      forall i | 0 <= i < |e|
        ensures 0 <= Last(records, e[i].transactionId) && e[i] == records[Last(records, e[i].transactionId)]
      {
        if e[i] != r {
          assert i < |out| && e[i] == out[i];
          assert records[Last(pre, out[i].transactionId)] == pre[Last(pre, out[i].transactionId)];
        }
      }
    }
  }

  /** Every record of the input is represented: its id is kept, by the last
      record that carries it. */
  lemma RemoveDuplicatesKeepsEveryId(records: seq<TransactionRecord>, k: nat)
    requires k < |records|
    ensures exists i | 0 <= i < |RemoveDuplicates(records)| ::
      RemoveDuplicates(records)[i].transactionId == records[k].transactionId
  {
    RemoveDuplicatesIds(records);
    assert HasId(records, records[k].transactionId);
  }

  /** The result follows the first occurrences of the ids in the input: a
      dictionary keeps a key where it was first inserted. */
  lemma {:induction false} RemoveDuplicatesFirstOrder(records: seq<TransactionRecord>)
    ensures forall i, j | 0 <= i < j < |RemoveDuplicates(records)| ::
      Find(records, RemoveDuplicates(records)[i].transactionId) < Find(records, RemoveDuplicates(records)[j].transactionId)
    decreases |records|
  {
    if records != [] {
      var pre, r := records[..|records| - 1], records[|records| - 1];
      RemoveDuplicatesFirstOrder(pre);
      RemoveDuplicatesIds(pre);
      assert records == pre + [r];
      PutKeepsFirstOrder(pre, RemoveDuplicates(pre), r);
    }
  }

  /** One record of `remove_duplicates`: if the dictionary `d` holds the
      ids of `pre` in the order of their first occurrences, putting `r`
      keeps it so for `pre + [r]`. */
  lemma PutKeepsFirstOrder(pre: seq<TransactionRecord>, d: seq<TransactionRecord>, r: TransactionRecord)
    requires DistinctIds(d)
    requires forall id :: HasId(d, id) <==> HasId(pre, id)
    requires forall i, j | 0 <= i < j < |d| :: Find(pre, d[i].transactionId) < Find(pre, d[j].transactionId)
    ensures var e := Put(d, r);
      forall i, j | 0 <= i < j < |e| :: Find(pre + [r], e[i].transactionId) < Find(pre + [r], e[j].transactionId)
  {
    var e := Put(d, r);
    var k := Find(d, r.transactionId);
    // Every id of `d` first occurs in `pre`, where `pre + [r]` agrees.
    forall i | 0 <= i < |d|
      ensures Find(pre + [r], d[i].transactionId) == Find(pre, d[i].transactionId) < |pre|
    {
      assert HasId(d, d[i].transactionId);
      FindHasId(pre, d[i].transactionId);
      FindAppend(pre, r, d[i].transactionId);
    }
    if k < |d| {
      assert forall i | 0 <= i < |e| :: e[i].transactionId == d[i].transactionId;
    } else {
      FindHasId(d, r.transactionId);
      FindHasId(pre, r.transactionId);
      FindAppend(pre, r, r.transactionId);
      assert e[|d|] == r;
      assert forall i | 0 <= i < |d| :: e[i] == d[i];
    }
  }

  // ---------------------------------------------------------------------
  // scan

  /** The scanner classes `scan` knows. */
  datatype ScannerKind = Privat | Mono | Facturownia | Bitfaktura | Erc20 | Trc20 | Portmone

  /** `scanner_types`, in the order `scan` runs them. */
  const SCANNER_ORDER: seq<ScannerKind> := [Privat, Mono, Facturownia, Bitfaktura, Erc20, Trc20, Portmone]

  /** `FacturowniaScanner.KEY`; that scanner is not part of this model. */
  const FACTUROWNIA_KEY: string := "FACTUROWNIA"

  /** `ScannerType.KEY`: the configuration key of each scanner. */
  function KeyOf(kind: ScannerKind): string {
    match kind
    case Privat => PrivatScanner.KEY
    case Mono => MonoScanner.KEY
    case Facturownia => FACTUROWNIA_KEY
    case Bitfaktura => BitfakturaScanner.KEY
    case Erc20 => EtherscanScanner.KEY
    case Trc20 => TronscanScanner.KEY
    case Portmone => PortmoneScanner.KEY
  }

  /** Every scanner runs once, and no two read the same configuration key. */
  lemma ScannerOrderDistinct()
    ensures |SCANNER_ORDER| == 7 && Distinct(SCANNER_ORDER)
    ensures forall a: ScannerKind :: a in SCANNER_ORDER
    ensures forall a: ScannerKind, b: ScannerKind :: KeyOf(a) == KeyOf(b) ==> a == b
  {
    forall a: ScannerKind ensures a in SCANNER_ORDER {
      var k := match a
        case Privat => 0 case Mono => 1 case Facturownia => 2 case Bitfaktura => 3
        case Erc20 => 4 case Trc20 => 5 case Portmone => 6;
      assert SCANNER_ORDER[k] == a;
    }
    forall a: ScannerKind, b: ScannerKind | KeyOf(a) == KeyOf(b) ensures a == b {
      assert KeyOf(a)[0] == KeyOf(b)[0] && |KeyOf(a)| == |KeyOf(b)|;
      if KeyOf(a)[0] == 'P' {
        assert KeyOf(a)[1] == KeyOf(b)[1];
      }
    }
  }

  /** `payment_config.root`: the configured items under each key. */
  type PaymentConfig = map<string, seq<Item>>

  /** `payment_config.root.get(ScannerType.KEY)`, an absent key read as no
      items (both are false for the walrus test). */
  function ItemsOf(config: PaymentConfig, kind: ScannerKind): (items: seq<Item>)
    ensures KeyOf(kind) !in config ==> items == []
  {
    if KeyOf(kind) in config then config[KeyOf(kind)] else []
  }

  /** What `ScannerType(items).scan()` returns or raises; each scanner is
      modelled in its own module. */
  type Scanners = (ScannerKind, seq<Item>) -> Result<seq<TransactionRecord>, Error>

  /** The scanner has items and raises. */
  predicate Fails(config: PaymentConfig, scanners: Scanners, kind: ScannerKind) {
    ItemsOf(config, kind) != [] && scanners(kind, ItemsOf(config, kind)).Failure?
  }

  /** The records `scan` collects from the scanners `kinds` run in order: a
      scanner without items is skipped, the records of each one are
      deduplicated and appended, and the first exception ends the run. */
  function Collect(config: PaymentConfig, scanners: Scanners, kinds: seq<ScannerKind>)
    : (r: Result<seq<TransactionRecord>, Error>)
    decreases |kinds|
  {
    if kinds == [] then Success([])
    else
      match Collect(config, scanners, kinds[..|kinds| - 1])
      case Failure(e) => Failure(e)
      case Success(acc) =>
        var kind := kinds[|kinds| - 1];
        var items := ItemsOf(config, kind);
        if items == [] then Success(acc)
        else
          match scanners(kind, items)
          case Failure(e) => Failure(e)
          case Success(found) => Success(acc + RemoveDuplicates(found))
  }

  /** The run fails exactly when a scanner with items raises, and then with
      the exception of the first one to raise. */
  lemma {:induction false} CollectFailsLoud(config: PaymentConfig, scanners: Scanners, kinds: seq<ScannerKind>)
    ensures Collect(config, scanners, kinds).Failure? <==>
      exists i | 0 <= i < |kinds| :: Fails(config, scanners, kinds[i])
    ensures Collect(config, scanners, kinds).Failure? ==>
      exists i | 0 <= i < |kinds| ::
        && Fails(config, scanners, kinds[i])
        && (forall j | 0 <= j < i :: !Fails(config, scanners, kinds[j]))
        && Collect(config, scanners, kinds).error == scanners(kinds[i], ItemsOf(config, kinds[i])).error
    decreases |kinds|
  {
    if kinds != [] {
      var pre := kinds[..|kinds| - 1];
      CollectFailsLoud(config, scanners, pre);
      forall i | 0 <= i < |pre| ensures kinds[i] == pre[i] {}
      if Collect(config, scanners, pre).Success? && Fails(config, scanners, kinds[|pre|]) {
        assert forall j | 0 <= j < |pre| :: !Fails(config, scanners, kinds[j]);
      }
    }
  }

  /** Once a prefix of the run has raised, the whole run raises the same. */
  lemma {:induction false} CollectStops(config: PaymentConfig, scanners: Scanners, kinds: seq<ScannerKind>, n: nat)
    requires n <= |kinds| && Collect(config, scanners, kinds[..n]).Failure?
    ensures Collect(config, scanners, kinds) == Collect(config, scanners, kinds[..n])
    decreases |kinds| - n
  {
    if n < |kinds| {
      assert kinds[..n + 1][..n] == kinds[..n];
      CollectStops(config, scanners, kinds, n + 1);
    } else {
      assert kinds[..n] == kinds;
    }
  }

  /** A scanner without items is never run: what it would have returned
      does not change the outcome. */
  lemma {:induction false} CollectSkipsUnconfigured(config: PaymentConfig, scanners: Scanners, other: Scanners,
                                                    kinds: seq<ScannerKind>)
    requires forall k: ScannerKind | ItemsOf(config, k) != [] :: scanners(k, ItemsOf(config, k)) == other(k, ItemsOf(config, k))
    ensures Collect(config, scanners, kinds) == Collect(config, other, kinds)
    decreases |kinds|
  {
    if kinds != [] {
      CollectSkipsUnconfigured(config, scanners, other, kinds[..|kinds| - 1]);
    }
  }

  /** Scanners without items at the end of the order add nothing. */
  lemma {:induction false} CollectSkipsTail(config: PaymentConfig, scanners: Scanners, kinds: seq<ScannerKind>, n: nat)
    requires n <= |kinds|
    requires forall j | n <= j < |kinds| :: ItemsOf(config, kinds[j]) == []
    ensures Collect(config, scanners, kinds) == Collect(config, scanners, kinds[..n])
    decreases |kinds|
  {
    if n < |kinds| {
      var pre := kinds[..|kinds| - 1];
      assert pre[..n] == kinds[..n];
      CollectSkipsTail(config, scanners, pre, n);
    } else {
      assert kinds[..n] == kinds;
    }
  }

  /** The deduplicated records of a scanner with items that returned, and
      nothing otherwise. */
  function Found(config: PaymentConfig, scanners: Scanners, kind: ScannerKind): seq<TransactionRecord> {
    var items := ItemsOf(config, kind);
    if items == [] then []
    else match scanners(kind, items)
      case Failure(_) => []
      case Success(records) => RemoveDuplicates(records)
  }

  /** Every record collected comes from a scanner with items that returned,
      as one of the deduplicated records of its run. */
  lemma {:induction false} CollectSources(config: PaymentConfig, scanners: Scanners, kinds: seq<ScannerKind>)
    requires Collect(config, scanners, kinds).Success?
    ensures forall x | 0 <= x < |Collect(config, scanners, kinds).value| :: exists i | 0 <= i < |kinds| ::
      Collect(config, scanners, kinds).value[x] in Found(config, scanners, kinds[i])
    decreases |kinds|
  {
    if kinds != [] {
      var pre := kinds[..|kinds| - 1];
      CollectSources(config, scanners, pre);
      var acc := Collect(config, scanners, pre).value;
      var out := Collect(config, scanners, kinds).value;
      var last := |kinds| - 1;
      assert out == acc + Found(config, scanners, kinds[last]);
      forall x | 0 <= x < |out|
        ensures exists i | 0 <= i < |kinds| :: out[x] in Found(config, scanners, kinds[i])
      {
        if x < |acc| {
          var i :| 0 <= i < |pre| && acc[x] in Found(config, scanners, pre[i]);
          assert kinds[i] == pre[i];
        } else {
          assert out[x] == Found(config, scanners, kinds[last])[x - |acc|];
        }
      }
    }
  }

  /** Deduplication is per scanner: two scanners that return the same record
      both contribute it, so the list sent to the table holds it twice. */
  lemma CrossScannerDuplicatesKept(r: TransactionRecord, items: seq<Item>)
    requires items != []
    ensures var config := map[KeyOf(Privat) := items, KeyOf(Mono) := items];
      var scanners := (k: ScannerKind, its: seq<Item>) => Success([r]);
      Collect(config, scanners, SCANNER_ORDER) == Success([r, r])
  {
    var config := map[KeyOf(Privat) := items, KeyOf(Mono) := items];
    var scanners := (k: ScannerKind, its: seq<Item>) => Success([r]);
    ScannerOrderDistinct();
    assert RemoveDuplicates([r]) == [r] by {
      assert [r][..0] == [];
    }
    var o := SCANNER_ORDER;
    assert o[..1][..0] == [] && o[..2][..1] == o[..1];
    assert Collect(config, scanners, o[..1]) == Success([] + [r]);
    assert Collect(config, scanners, o[..2]) == Success([r] + [r]);
    assert [r] + [r] == [r, r];
    forall j | 2 <= j < |o| ensures ItemsOf(config, o[j]) == [] {
      assert o[j] != Privat && o[j] != Mono;
    }
    CollectSkipsTail(config, scanners, o, 2);
  }

  // ---------------------------------------------------------------------
  // The upsert

  /** The MERGE keys of the transactions table. */
  const PRIMARY_KEYS: seq<string> := ["transaction_id", "bank_or_system"]

  /** The keys are distinct fields of the record, so the MERGE names every
      field once. */
  lemma PrimaryKeysAreFields()
    ensures Distinct(PRIMARY_KEYS) && forall k | k in PRIMARY_KEYS :: k in FIELD_NAMES
    ensures forall f :: f in MergeColumns(PRIMARY_KEYS, FIELD_NAMES) <==> f in FIELD_NAMES
    ensures Distinct(MergeColumns(PRIMARY_KEYS, FIELD_NAMES))
  {
    FieldNamesDistinct();
    assert FIELD_NAMES[16] == "transaction_id" && FIELD_NAMES[1] == "bank_or_system";
    assert Distinct(PRIMARY_KEYS) by {
      assert PRIMARY_KEYS[0][0] != PRIMARY_KEYS[1][0];
    }
    MergeColumnsEachOnce(PRIMARY_KEYS, FIELD_NAMES);
  }

  /** `scan(settings)` with the scheduler, the logging and the credentials
      left out: the client is passed in. With no records nothing is sent
      and no table is made; otherwise one table is made and upserted. */
  method Scan(config: PaymentConfig, scanners: Scanners, client: Client, tableId: string,
              decText: real -> string, tsText: Instant -> string)
    returns (err: Option<Error>, table: BigQueryTable.Table?)
    requires client.Valid()
    modifies client
    ensures client.Valid()
    ensures var c := Collect(config, scanners, SCANNER_ORDER);
      && (c.Failure? ==> err == Some(c.error) && table == null && client.log == old(client.log))
      && (c.Success? && c.value == [] ==> err == None && table == null && client.log == old(client.log))
      && (c.Success? && c.value != [] ==>
            && table != null && fresh(table)
            && table.tableId == tableId && table.primaryKeys == PRIMARY_KEYS && table.client == client
            && table.fields == FIELD_NAMES && table.insert == Qp.InsertCall
            && var r := BigQueryTable.Upsert(client.raises, |old(client.log)|, tableId, PRIMARY_KEYS, FIELD_NAMES,
                 BigQueryTable.StagingCalls(table.insert, BigQueryTable.TempId(tableId), table.schema, c.value));
               && client.log == old(client.log) + r.0 && err == r.1
               && client.tables == Outcome(client.raises, |old(client.log)|, old(client.tables), r.0))
  {
    var c := CollectScanners(config, scanners);
    if c.Failure? {
      return Some(c.error), null;
    }
    if c.value == [] {
      return None, null;
    }
    table := new BigQueryTable.Table(tableId, PRIMARY_KEYS, client, decText, tsText);
    err := table.UpsertRecords(c.value);
  }

  /** The scanner loop of `scan`: each scanner with items in turn, its
      records deduplicated and appended, the first exception ending the
      loop. */
  method CollectScanners(config: PaymentConfig, scanners: Scanners) returns (r: Result<seq<TransactionRecord>, Error>)
    ensures r == Collect(config, scanners, SCANNER_ORDER)
  {
    var transactions: seq<TransactionRecord> := [];
    for i := 0 to |SCANNER_ORDER|
      invariant Collect(config, scanners, SCANNER_ORDER[..i]) == Success(transactions)
    {
      var kind := SCANNER_ORDER[i];
      assert SCANNER_ORDER[..i + 1][..i] == SCANNER_ORDER[..i];
      var items := ItemsOf(config, kind);
      if items != [] {
        var found := scanners(kind, items);
        if found.Failure? {
          CollectStops(config, scanners, SCANNER_ORDER, i + 1);
          return Failure(found.error);
        }
        transactions := transactions + RemoveDuplicates(found.value);
      }
    }
    assert SCANNER_ORDER[..|SCANNER_ORDER|] == SCANNER_ORDER;
    return Success(transactions);
  }
}
