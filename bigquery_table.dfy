/** `Table` of app/bigquery_table/table.py: a BigQuery table of transaction
    records, recreated, appended to, and upserted through a temporary staging
    table that a MERGE folds into it. */
module BigQueryTable {
  import opened Wrappers
  import opened Records
  import opened SqlText
  import opened BigQueryClient
  import Qp

  /** `BATCH_SIZE`: records per staging insert. */
  const BATCH_SIZE: nat := 10

  // ---------------------------------------------------------------------
  // Batches

  /** `itertools.batched(xs, n)`: consecutive chunks of `n`, the last one
      possibly shorter. */
  function Batches<T>(xs: seq<T>, n: nat): (bs: seq<seq<T>>)
    requires n > 0
    ensures forall i | 0 <= i < |bs| :: 1 <= |bs[i]| <= n
    ensures forall i | 0 <= i < |bs| - 1 :: |bs[i]| == n
    ensures xs == [] <==> bs == []
    decreases |xs|
  {
    if xs == [] then []
    else if |xs| <= n then [xs]
    else [xs[..n]] + Batches(xs[n..], n)
  }

  /** The chunks joined back together. */
  function Concat<T>(bs: seq<seq<T>>): seq<T> {
    if bs == [] then [] else bs[0] + Concat(bs[1..])
  }

  /** Batching loses, repeats and reorders nothing. */
  lemma {:induction false} BatchesConcat<T>(xs: seq<T>, n: nat)
    requires n > 0
    ensures Concat(Batches(xs, n)) == xs
    decreases |xs|
  {
    if |xs| > n {
      BatchesConcat(xs[n..], n);
      var bs := Batches(xs, n);
      assert bs[0] == xs[..n] && bs[1..] == Batches(xs[n..], n);
      assert xs == xs[..n] + xs[n..];
    } else if xs != [] {
      assert Batches(xs, n)[1..] == [];
      assert xs + [] == xs;
    }
  }

  /** The first batch is the first `n` items, or all of them when fewer. */
  lemma FirstBatch<T>(xs: seq<T>, n: nat)
    requires n > 0 && xs != []
    ensures Batches(xs, n)[0] == xs[..Min(n, |xs|)]
  {
    if |xs| <= n {
      assert xs[..|xs|] == xs;
    }
  }

  // ---------------------------------------------------------------------
  // The calls

  /** The record's schema, as `generate_schema` derives it. */
  function Schema(): (schema: seq<SchemaField>)
    ensures |schema| == FIELD_COUNT
  {
    RecordSchema();
    GenerateSchema(FIELD_NAMES, FIELD_ANNOTATIONS).value
  }

  /** `f"{table_id}_temp"`. */
  function TempId(tableId: string): string {
    tableId + "_temp"
  }

  /** `delete_table(id, not_found_ok=True)`. */
  function Drop(tableId: string): Call {
    DeleteTable(tableId, true)
  }

  /** `recreate`: drop the table if it is there, then create it with the
      schema (`exists_ok=True`). */
  function RecreateCalls(tableId: string, schema: seq<SchemaField>): seq<Call> {
    [Drop(tableId), CreateTable(tableId, schema, true)]
  }

  /** The call `insert_records(client, table, records)` makes: the table
      holds `Qp.InsertCall`. */
  type InsertCall = (string, seq<TransactionRecord>) -> Call

  /** The staging insert of each batch. */
  function InsertCalls(insert: InsertCall, tempId: string, batches: seq<seq<TransactionRecord>>): (calls: seq<Call>)
    ensures |calls| == |batches|
    decreases |batches|
  {
    if batches == [] then [] else [insert(tempId, batches[0])] + InsertCalls(insert, tempId, batches[1..])
  }

  /** One insert per batch, in batch order. */
  lemma {:induction false} InsertCallsEach(insert: InsertCall, tempId: string, batches: seq<seq<TransactionRecord>>)
    ensures forall i | 0 <= i < |batches| :: InsertCalls(insert, tempId, batches)[i] == insert(tempId, batches[i])
    decreases |batches|
  {
    if batches != [] {
      InsertCallsEach(insert, tempId, batches[1..]);
      var calls := InsertCalls(insert, tempId, batches);
      forall i | 1 <= i < |batches|
        ensures calls[i] == insert(tempId, batches[i])
      {
        assert calls[i] == InsertCalls(insert, tempId, batches[1..])[i - 1];
        assert batches[1..][i - 1] == batches[i];
      }
    }
  }

  /** `_create_temp_table`, corrected: create the staging table, then insert
      every batch of the records. */
  function StagingCalls(insert: InsertCall, tempId: string, schema: seq<SchemaField>, records: seq<TransactionRecord>)
    : seq<Call>
  {
    [CreateTable(tempId, schema, true)] + InsertCalls(insert, tempId, Batches(records, BATCH_SIZE))
  }

  /** `_create_temp_table` as written: the batch loop breaks after its first
      batch, so at most `BATCH_SIZE` records are staged. */
  function StagingCallsAsWritten(insert: InsertCall, tempId: string, schema: seq<SchemaField>,
                                 records: seq<TransactionRecord>): seq<Call>
  {
    [CreateTable(tempId, schema, true)]
    + (if records == [] then [] else [insert(tempId, Batches(records, BATCH_SIZE)[0])])
  }

  /** The staging calls of `_create_temp_table`, as written or corrected. */
  function TempStaging(insert: InsertCall, tempId: string, schema: seq<SchemaField>, records: seq<TransactionRecord>,
                       asWritten: bool): seq<Call>
  {
    if asWritten then StagingCallsAsWritten(insert, tempId, schema, records)
    else StagingCalls(insert, tempId, schema, records)
  }

  /** The position of a column among the fields; past the end when it is not
      one of them. */
  function ColumnOf(fields: seq<string>, name: string): (k: nat)
    ensures k <= |fields| && (k < |fields| <==> name in fields)
    ensures k < |fields| ==> fields[k] == name
  {
    if fields == [] then 0
    else if fields[0] == name then 0
    else 1 + ColumnOf(fields[1..], name)
  }

  /** The columns `ON T.k = S.k AND ...` compares, by position. */
  function KeyColumns(keys: seq<string>, fields: seq<string>): seq<nat> {
    seq(|keys|, i requires 0 <= i < |keys| => ColumnOf(fields, keys[i]))
  }

  /** The MERGE of the staging table into the table, on the keys, over every
      field of the record. */
  function MergeCall(tableId: string, keys: seq<string>, fields: seq<string>): Call {
    Query(Some(MergeQuery(tableId, TempId(tableId), keys, fields)), [],
          MergeInto(tableId, TempId(tableId), KeyColumns(keys, fields)))
  }

  /** `upsert_records` with the given staging calls, its first call made at
      position `at`: the calls made and the exception raised. The temporary
      table is dropped first; an exception while dropping or staging
      propagates at once; otherwise the MERGE runs and the temporary table is
      dropped whatever the MERGE did, an exception of the drop replacing that
      of the MERGE. */
  function Upsert(raises: (Call, nat) -> bool, at: nat, tableId: string, keys: seq<string>, fields: seq<string>,
                  staging: seq<Call>): (seq<Call>, Option<Error>)
  {
    var drop := Drop(TempId(tableId));
    if raises(drop, at) then ([drop], Some(GoogleApiError))
    else
      var staged := Perform(raises, at + 1, staging);
      if staged.1.Some? then ([drop] + staged.0, staged.1)
      else
        var merge := MergeCall(tableId, keys, fields);
        ([drop] + staged.0 + [merge, drop],
         if raises(drop, at + 2 + |staged.0|) then Some(GoogleApiError)
         else if raises(merge, at + 1 + |staged.0|) then Some(GoogleApiError) else None)
  }

  /** The upsert is the drop and the staging performed in turn, then, if
      nothing raised, the MERGE and the drop. */
  lemma UpsertSplit(raises: (Call, nat) -> bool, at: nat, tableId: string, keys: seq<string>, fields: seq<string>,
                    staging: seq<Call>)
    ensures Upsert(raises, at, tableId, keys, fields, staging) ==
      var p := Perform(raises, at, [Drop(TempId(tableId))] + staging);
      var merge := MergeCall(tableId, keys, fields);
      var m := at + |p.0|;
      if p.1.Some? then p
      else (p.0 + [merge, Drop(TempId(tableId))],
            if raises(Drop(TempId(tableId)), m + 1) then Some(GoogleApiError)
            else if raises(merge, m) then Some(GoogleApiError) else None)
  {
    PerformCons(raises, at, Drop(TempId(tableId)), staging);
  }

  /** The exception of the MERGE made at position `m` and of the drop of the
      temporary table after it: the drop's, which replaces the MERGE's, else
      the MERGE's. */
  function MergeErr(raises: (Call, nat) -> bool, m: nat, tableId: string, keys: seq<string>, fields: seq<string>)
    : (err: Option<Error>)
    ensures err.None? <==> !raises(Drop(TempId(tableId)), m + 1) && !raises(MergeCall(tableId, keys, fields), m)
  {
    if raises(Drop(TempId(tableId)), m + 1) then Some(GoogleApiError)
    else if raises(MergeCall(tableId, keys, fields), m) then Some(GoogleApiError) else None
  }

  /** The part of the upsert after its first drop, from position `at`: the
      staging, then, if nothing raised, the MERGE and the drop. */
  function StageThenMerge(raises: (Call, nat) -> bool, at: nat, tableId: string, keys: seq<string>,
                          fields: seq<string>, staging: seq<Call>): (seq<Call>, Option<Error>)
  {
    var staged := Perform(raises, at, staging);
    if staged.1.Some? then staged
    else (staged.0 + [MergeCall(tableId, keys, fields), Drop(TempId(tableId))],
          MergeErr(raises, at + |staged.0|, tableId, keys, fields))
  }

  /** An exception while staging ends the part after the first drop there;
      otherwise every staging call is made, then the MERGE and the drop. */
  lemma StageThenMergeParts(raises: (Call, nat) -> bool, at: nat, tableId: string, keys: seq<string>,
                            fields: seq<string>, staging: seq<Call>)
    ensures var p := Perform(raises, at, staging);
      StageThenMerge(raises, at, tableId, keys, fields, staging) ==
        if p.1.Some? then p
        else (staging + [MergeCall(tableId, keys, fields), Drop(TempId(tableId))],
              MergeErr(raises, at + |staging|, tableId, keys, fields))
  {
    if Perform(raises, at, staging).1.None? {
      PerformMadeAll(raises, at, staging);
    }
  }

  /** The upsert is its first drop followed, when that went through, by the
      staging and the MERGE. */
  lemma UpsertAfterDrop(raises: (Call, nat) -> bool, at: nat, tableId: string, keys: seq<string>,
                        fields: seq<string>, staging: seq<Call>)
    ensures var s := StageThenMerge(raises, at + 1, tableId, keys, fields, staging);
      Upsert(raises, at, tableId, keys, fields, staging) ==
        if raises(Drop(TempId(tableId)), at) then ([Drop(TempId(tableId))], Some(GoogleApiError))
        else ([Drop(TempId(tableId))] + s.0, s.1)
  {
    var staged := Perform(raises, at + 1, staging);
    assert (at + 1 + |staged.0|) + 1 == at + 2 + |staged.0|;
    assert [Drop(TempId(tableId))] + (staged.0 + [MergeCall(tableId, keys, fields), Drop(TempId(tableId))])
        == [Drop(TempId(tableId))] + staged.0 + [MergeCall(tableId, keys, fields), Drop(TempId(tableId))];
  }

  // ---------------------------------------------------------------------
  // What the protocol promises

  /** `recreate` drops before it creates, and creates only once the drop
      went through. */
  lemma RecreateDropsThenCreates(raises: (Call, nat) -> bool, at: nat, tableId: string, schema: seq<SchemaField>)
    ensures var r := Perform(raises, at, RecreateCalls(tableId, schema));
      && (r.1.None? <==> !raises(Drop(tableId), at) && !raises(CreateTable(tableId, schema, true), at + 1))
      && (raises(Drop(tableId), at) ==> r.0 == [Drop(tableId)])
      && (!raises(Drop(tableId), at) ==> r.0 == RecreateCalls(tableId, schema))
  {
    RecreatePerform(raises, at, tableId, schema);
  }

  /** `Perform` on the two calls of `recreate`, unfolded. */
  lemma RecreatePerform(raises: (Call, nat) -> bool, at: nat, tableId: string, schema: seq<SchemaField>)
    ensures Perform(raises, at, RecreateCalls(tableId, schema)) ==
      if raises(Drop(tableId), at) then ([Drop(tableId)], Some(GoogleApiError))
      else if raises(CreateTable(tableId, schema, true), at + 1) then (RecreateCalls(tableId, schema), Some(GoogleApiError))
      else (RecreateCalls(tableId, schema), None)
  {
    var create := CreateTable(tableId, schema, true);
    PerformCons(raises, at, Drop(tableId), [create]);
    PerformCons(raises, at + 1, create, []);
    assert [create] == [create] + [] && RecreateCalls(tableId, schema) == [Drop(tableId)] + [create];
  }

  /** A `recreate` that goes through leaves the table there and empty, and
      no other table changed. */
  lemma RecreateEmpties(raises: (Call, nat) -> bool, at: nat, tables: Tables, tableId: string, schema: seq<SchemaField>)
    requires Perform(raises, at, RecreateCalls(tableId, schema)).1.None?
    ensures Outcome(raises, at, tables, Perform(raises, at, RecreateCalls(tableId, schema)).0) == tables[tableId := []]
  {
    RecreatePerform(raises, at, tableId, schema);
    var create := CreateTable(tableId, schema, true);
    OutcomeCons(raises, at, tables, Drop(tableId), [create]);
    OutcomeOne(raises, at + 1, tables - {tableId}, create);
    assert RecreateCalls(tableId, schema) == [Drop(tableId)] + [create];
    assert (tables - {tableId})[tableId := []] == tables[tableId := []];
  }

  /** The upsert succeeds exactly when none of its calls raises: not the
      first drop, no staging call, not the MERGE and not the final drop. */
  lemma UpsertSucceeds(raises: (Call, nat) -> bool, at: nat, tableId: string, keys: seq<string>, fields: seq<string>,
                       staging: seq<Call>)
    ensures Upsert(raises, at, tableId, keys, fields, staging).1.None? <==>
      && !raises(Drop(TempId(tableId)), at)
      && (forall i | 0 <= i < |staging| :: !raises(staging[i], at + 1 + i))
      && !raises(MergeCall(tableId, keys, fields), at + 1 + |staging|)
      && !raises(Drop(TempId(tableId)), at + 2 + |staging|)
  {
    PerformMeaning(raises, at + 1, staging);
  }

  /** Once the temporary table is created and staged, the MERGE runs and the
      temporary table is dropped right after it, whether the MERGE raises or
      not; the upsert then succeeds exactly when neither the MERGE nor that
      drop raises. */
  lemma UpsertDropsTempAfterMerge(raises: (Call, nat) -> bool, at: nat, tableId: string, keys: seq<string>,
                                  fields: seq<string>, staging: seq<Call>)
    requires !raises(Drop(TempId(tableId)), at)
    requires forall i | 0 <= i < |staging| :: !raises(staging[i], at + 1 + i)
    ensures var r := Upsert(raises, at, tableId, keys, fields, staging);
      && r.0 == [Drop(TempId(tableId))] + staging + [MergeCall(tableId, keys, fields), Drop(TempId(tableId))]
      && (r.1.None? <==>
            !raises(MergeCall(tableId, keys, fields), at + 1 + |staging|) && !raises(Drop(TempId(tableId)), at + 2 + |staging|))
  {
    PerformMeaning(raises, at + 1, staging);
  }

  /** An exception while creating or staging the temporary table ends the
      upsert there: no MERGE, and the temporary table is not dropped. */
  lemma UpsertStagingFailureLeavesTemp(raises: (Call, nat) -> bool, at: nat, tableId: string, keys: seq<string>,
                                       fields: seq<string>, staging: seq<Call>)
    requires !raises(Drop(TempId(tableId)), at)
    requires exists i | 0 <= i < |staging| :: raises(staging[i], at + 1 + i)
    ensures var r := Upsert(raises, at, tableId, keys, fields, staging);
      && r.1 == Some(GoogleApiError)
      && 2 <= |r.0| <= |staging| + 1
      && r.0 == ([Drop(TempId(tableId))] + staging)[..|r.0|]
      && raises(r.0[|r.0| - 1], at + |r.0| - 1)
  {
    var drop := Drop(TempId(tableId));
    var p := Perform(raises, at + 1, staging);
    var staged := p.0;
    assert p.1 == Some(GoogleApiError) && 1 <= |staged| && staged == staging[..|staged|]
        && raises(staged[|staged| - 1], at + 1 + |staged| - 1) by {
      var i :| 0 <= i < |staging| && raises(staging[i], at + 1 + i);
      PerformRaises(raises, at + 1, staging, i);
      PerformFails(raises, at + 1, staging);
    }
    var made := [drop] + staged;
    assert Upsert(raises, at, tableId, keys, fields, staging) == (made, Some(GoogleApiError));
    assert ([drop] + staging)[..|made|] == made;
    assert made[|made| - 1] == staged[|staged| - 1] && at + |made| - 1 == at + 1 + |staged| - 1;
  }

  /** Corrected, the staging table receives every record: the staged batches
      are at most `BATCH_SIZE` records each, all full but the last, and joined
      they are the records in order. */
  lemma StagingCallsStageAll(insert: InsertCall, tempId: string, schema: seq<SchemaField>, records: seq<TransactionRecord>)
    ensures var batches := Batches(records, BATCH_SIZE);
      && StagingCalls(insert, tempId, schema, records) == [CreateTable(tempId, schema, true)] + InsertCalls(insert, tempId, batches)
      && Concat(batches) == records
      && forall i | 0 <= i < |batches| :: 1 <= |batches[i]| <= BATCH_SIZE
  {
    BatchesConcat(records, BATCH_SIZE);
  }

  /** As written, a non-empty list stages only its first `BATCH_SIZE` records:
      with more than that, the rest never reach the staging table, while the
      corrected staging inserts a second batch starting at record 10. */
  lemma AsWrittenStagesFirstBatchOnly(insert: InsertCall, tempId: string, schema: seq<SchemaField>,
                                      records: seq<TransactionRecord>)
    requires |records| > BATCH_SIZE
    ensures StagingCallsAsWritten(insert, tempId, schema, records) ==
      [CreateTable(tempId, schema, true), insert(tempId, records[..BATCH_SIZE])]
    ensures |StagingCalls(insert, tempId, schema, records)| >= 3
    ensures StagingCalls(insert, tempId, schema, records)[2] == insert(tempId, Batches(records[BATCH_SIZE..], BATCH_SIZE)[0])
    ensures records[BATCH_SIZE] == Batches(records[BATCH_SIZE..], BATCH_SIZE)[0][0]
  {
    FirstBatch(records, BATCH_SIZE);
    FirstBatch(records[BATCH_SIZE..], BATCH_SIZE);
    var bs := Batches(records, BATCH_SIZE);
    assert bs[1..] == Batches(records[BATCH_SIZE..], BATCH_SIZE);
    assert InsertCalls(insert, tempId, bs)[1] == InsertCalls(insert, tempId, bs[1..])[0];
  }

  // ---------------------------------------------------------------------
  // What the upsert does to the tables

  /** The staging of the batches with the insert. */
  function Staging(insert: InsertCall, tempId: string, schema: seq<SchemaField>, batches: seq<seq<TransactionRecord>>)
    : seq<Call>
  {
    [CreateTable(tempId, schema, true)] + InsertCalls(insert, tempId, batches)
  }

  /** The insert's statement adds the batch's rows to the table it names. */
  ghost predicate AppendsRows(insert: InsertCall) {
    forall t, b :: insert(t, b).Query? && insert(t, b).statement == Append(t, Qp.Rows(b))
  }

  /** `insert_records` of `qp` adds the batch's rows. */
  lemma QpInsertAppendsRows()
    ensures AppendsRows(Qp.InsertCall)
  {
    forall t, b
      ensures Qp.InsertCall(t, b).Query? && Qp.InsertCall(t, b).statement == Append(t, Qp.Rows(b))
    {
    }
  }

  /** Staging inserts that go through add the rows of every batch, in
      order, to the staging table and change nothing else. */
  lemma {:induction false} InsertsAppend(insert: InsertCall, raises: (Call, nat) -> bool, at: nat, tables: Tables,
                                         tempId: string, batches: seq<seq<TransactionRecord>>)
    requires AppendsRows(insert) && tempId in tables
    requires Perform(raises, at, InsertCalls(insert, tempId, batches)).1.None?
    ensures Outcome(raises, at, tables, InsertCalls(insert, tempId, batches)) ==
      tables[tempId := tables[tempId] + Qp.Rows(Concat(batches))]
    decreases |batches|
  {
    if batches == [] {
      assert Qp.Rows(Concat(batches)) == [] && tables[tempId] + [] == tables[tempId];
      assert tables[tempId := tables[tempId]] == tables;
    } else {
      var c := insert(tempId, batches[0]);
      var rest := InsertCalls(insert, tempId, batches[1..]);
      var r1, r2 := Qp.Rows(batches[0]), Qp.Rows(Concat(batches[1..]));
      var t1 := tables[tempId := tables[tempId] + r1];
      PerformCons(raises, at, c, rest);
      OutcomeCons(raises, at, tables, c, rest);
      InsertsAppend(insert, raises, at + 1, t1, tempId, batches[1..]);
      assert Concat(batches) == batches[0] + Concat(batches[1..]);
      Qp.RowsConcat(batches[0], Concat(batches[1..]));
      AppendTwice(tables, tempId, r1, r2);
    }
  }

  /** A table set twice holds what it was set to last. */
  lemma UpdateTwice(tables: Tables, id: string, a: seq<Row>, b: seq<Row>)
    ensures tables[id := a][id := b] == tables[id := b]
  {
  }

  /** Rows added to a table in two goes are the two parts added at once. */
  lemma AppendTwice(tables: Tables, id: string, a: seq<Row>, b: seq<Row>)
    requires id in tables
    ensures tables[id := tables[id] + a][id := tables[id] + a + b] == tables[id := tables[id] + (a + b)]
  {
    assert tables[id] + a + b == tables[id] + (a + b);
  }

  /** The first drop and a staging that go through leave the staging table
      holding exactly the rows of the batches, and no other table changed. */
  lemma {:induction false} StagedContents(insert: InsertCall, raises: (Call, nat) -> bool, at: nat, tables: Tables,
                                          temp: string, schema: seq<SchemaField>, batches: seq<seq<TransactionRecord>>)
    requires AppendsRows(insert)
    requires Perform(raises, at, [Drop(temp)] + Staging(insert, temp, schema, batches)).1.None?
    ensures Outcome(raises, at, tables, [Drop(temp)] + Staging(insert, temp, schema, batches)) ==
      (tables - {temp})[temp := Qp.Rows(Concat(batches))]
  {
    var drop, create := Drop(temp), CreateTable(temp, schema, true);
    var inserts := InsertCalls(insert, temp, batches);
    PerformCons(raises, at, drop, [create] + inserts);
    PerformCons(raises, at + 1, create, inserts);
    OutcomeCons(raises, at, tables, drop, [create] + inserts);
    OutcomeCons(raises, at + 1, tables - {temp}, create, inserts);
    var t2 := (tables - {temp})[temp := []];
    assert Apply(create, tables - {temp}) == t2;
    InsertsAppend(insert, raises, at + 2, t2, temp, batches);
    var rows := Qp.Rows(Concat(batches));
    assert t2[temp] + rows == rows;
    UpdateTwice(tables - {temp}, temp, [], rows);
  }

  /** Corrected, the first drop and a staging that go through leave the
      staging table holding exactly the records' rows. */
  lemma StagingCallsContents(insert: InsertCall, raises: (Call, nat) -> bool, at: nat, tables: Tables,
                             temp: string, schema: seq<SchemaField>, records: seq<TransactionRecord>)
    requires AppendsRows(insert)
    requires Perform(raises, at, [Drop(temp)] + StagingCalls(insert, temp, schema, records)).1.None?
    ensures Outcome(raises, at, tables, [Drop(temp)] + StagingCalls(insert, temp, schema, records)) ==
      (tables - {temp})[temp := Qp.Rows(records)]
  {
    var batches := Batches(records, BATCH_SIZE);
    assert StagingCalls(insert, temp, schema, records) == Staging(insert, temp, schema, batches);
    StagedContents(insert, raises, at, tables, temp, schema, batches);
    BatchesConcat(records, BATCH_SIZE);
  }

  /** A MERGE that goes through, then the drop of the staging table: the
      table becomes the MERGE of its rows with the staging table's, the
      staging table is gone exactly when the drop goes through, and no other
      table changes. */
  lemma MergeThenDropContents(raises: (Call, nat) -> bool, m: nat, tables: Tables, tableId: string,
                              keys: seq<string>, fields: seq<string>)
    requires tableId in tables && TempId(tableId) in tables
    requires !raises(MergeCall(tableId, keys, fields), m)
    ensures var after := Outcome(raises, m, tables, [MergeCall(tableId, keys, fields), Drop(TempId(tableId))]);
      && tableId in after
      && after[tableId] == Merge(tables[tableId], tables[TempId(tableId)], KeyColumns(keys, fields))
      && (TempId(tableId) in after <==> raises(Drop(TempId(tableId)), m + 1))
  {
    var temp := TempId(tableId);
    assert temp != tableId by {
      assert |temp| == |tableId| + 5;
    }
    var merge := MergeCall(tableId, keys, fields);
    OutcomeCons(raises, m, tables, merge, [Drop(temp)]);
    OutcomeOne(raises, m + 1, Apply(merge, tables), Drop(temp));
  }

  /** The MERGE and the drop after it change no table but the target and
      the staging table. */
  lemma MergeThenDropKeepsOthers(raises: (Call, nat) -> bool, m: nat, tables: Tables, tableId: string,
                                 keys: seq<string>, fields: seq<string>)
    ensures var after := Outcome(raises, m, tables, [MergeCall(tableId, keys, fields), Drop(TempId(tableId))]);
      forall id | id != tableId && id != TempId(tableId) ::
        (id in after <==> id in tables) && (id in tables ==> after[id] == tables[id])
  {
    var merge := MergeCall(tableId, keys, fields);
    OutcomeCons(raises, m, tables, merge, [Drop(TempId(tableId))]);
    OutcomeOne(raises, m + 1, Outcome(raises, m, tables, [merge]), Drop(TempId(tableId)));
  }

  /** When the first drop, the staging and the MERGE go through, and the
      staging left the staging table holding `rows`, the table becomes the
      MERGE of its rows with those, the staging table is gone exactly when the
      final drop goes through, and no other table changes. */
  lemma MergedContents(raises: (Call, nat) -> bool, at: nat, tables: Tables, tableId: string,
                       keys: seq<string>, fields: seq<string>, staging: seq<Call>, rows: seq<Row>)
    requires tableId in tables
    requires !raises(Drop(TempId(tableId)), at) && Perform(raises, at + 1, staging).1.None?
    requires Outcome(raises, at, tables, [Drop(TempId(tableId))] + staging) == (tables - {TempId(tableId)})[TempId(tableId) := rows]
    requires !raises(MergeCall(tableId, keys, fields), at + 1 + |staging|)
    ensures var after := Outcome(raises, at, tables, Upsert(raises, at, tableId, keys, fields, staging).0);
      && tableId in after
      && after[tableId] == Merge(tables[tableId], rows, KeyColumns(keys, fields))
      && (TempId(tableId) in after <==> raises(Drop(TempId(tableId)), at + 2 + |staging|))
  {
    var temp := TempId(tableId);
    assert temp != tableId by {
      assert |temp| == |tableId| + 5;
    }
    UpsertOutcome(raises, at, tables, tableId, keys, fields, staging);
    var staged := (tables - {temp})[temp := rows];
    assert staged[tableId] == tables[tableId] && staged[temp] == rows;
    MergeThenDropContents(raises, at + 1 + |staging|, staged, tableId, keys, fields);
  }

  /** Under the same conditions, no table but the target and the staging
      table changes. */
  lemma MergedKeepsOthers(raises: (Call, nat) -> bool, at: nat, tables: Tables, tableId: string,
                          keys: seq<string>, fields: seq<string>, staging: seq<Call>, rows: seq<Row>)
    requires !raises(Drop(TempId(tableId)), at) && Perform(raises, at + 1, staging).1.None?
    requires Outcome(raises, at, tables, [Drop(TempId(tableId))] + staging) == (tables - {TempId(tableId)})[TempId(tableId) := rows]
    ensures var after := Outcome(raises, at, tables, Upsert(raises, at, tableId, keys, fields, staging).0);
      forall id | id != tableId && id != TempId(tableId) ::
        (id in after <==> id in tables) && (id in tables ==> after[id] == tables[id])
  {
    UpsertOutcome(raises, at, tables, tableId, keys, fields, staging);
    MergeThenDropKeepsOthers(raises, at + 1 + |staging|, (tables - {TempId(tableId)})[TempId(tableId) := rows],
                             tableId, keys, fields);
  }

  /** An upsert that succeeds made every call, none of them raising. */
  lemma UpsertGoesThrough(raises: (Call, nat) -> bool, at: nat, tableId: string, keys: seq<string>, fields: seq<string>,
                          staging: seq<Call>)
    requires Upsert(raises, at, tableId, keys, fields, staging).1.None?
    ensures !raises(Drop(TempId(tableId)), at) && Perform(raises, at + 1, staging).1.None?
    ensures !raises(MergeCall(tableId, keys, fields), at + 1 + |staging|)
    ensures !raises(Drop(TempId(tableId)), at + 2 + |staging|)
  {
    PerformSucceeds(raises, at + 1, staging);
  }

  /** Once the first drop and the staging go through, the MERGE and the
      final drop are made, and the upsert fails exactly when one of them
      raises. */
  lemma UpsertStaged(raises: (Call, nat) -> bool, at: nat, tableId: string, keys: seq<string>, fields: seq<string>,
                     staging: seq<Call>)
    requires !raises(Drop(TempId(tableId)), at) && Perform(raises, at + 1, staging).1.None?
    ensures Upsert(raises, at, tableId, keys, fields, staging) ==
      ([Drop(TempId(tableId))] + staging + [MergeCall(tableId, keys, fields), Drop(TempId(tableId))],
       if raises(Drop(TempId(tableId)), at + 2 + |staging|) then Some(GoogleApiError)
       else if raises(MergeCall(tableId, keys, fields), at + 1 + |staging|) then Some(GoogleApiError) else None)
  {
    PerformMadeAll(raises, at + 1, staging);
  }

  /** Once the first drop and the staging go through, the upsert's effect is
      theirs followed by that of the MERGE and the final drop. */
  lemma UpsertOutcome(raises: (Call, nat) -> bool, at: nat, tables: Tables, tableId: string, keys: seq<string>,
                      fields: seq<string>, staging: seq<Call>)
    requires !raises(Drop(TempId(tableId)), at) && Perform(raises, at + 1, staging).1.None?
    ensures Outcome(raises, at, tables, Upsert(raises, at, tableId, keys, fields, staging).0) ==
      Outcome(raises, at + 1 + |staging|, Outcome(raises, at, tables, [Drop(TempId(tableId))] + staging),
              [MergeCall(tableId, keys, fields), Drop(TempId(tableId))])
  {
    var xs, ys := [Drop(TempId(tableId))] + staging, [MergeCall(tableId, keys, fields), Drop(TempId(tableId))];
    UpsertStaged(raises, at, tableId, keys, fields, staging);
    assert Upsert(raises, at, tableId, keys, fields, staging).0 == xs + ys;
    OutcomeAppend(raises, at, tables, xs, ys);
  }

  /** Corrected, a successful upsert leaves the table as the MERGE of its
      rows with every record's, drops the staging table and changes no other
      table. */
  lemma UpsertContents(insert: InsertCall, raises: (Call, nat) -> bool, at: nat, tables: Tables, tableId: string, keys: seq<string>,
                       fields: seq<string>, schema: seq<SchemaField>, records: seq<TransactionRecord>)
    requires AppendsRows(insert) && tableId in tables
    requires Upsert(raises, at, tableId, keys, fields, StagingCalls(insert, TempId(tableId), schema, records)).1.None?
    ensures var r := Upsert(raises, at, tableId, keys, fields, StagingCalls(insert, TempId(tableId), schema, records));
      var after := Outcome(raises, at, tables, r.0);
      && tableId in after && TempId(tableId) !in after
      && after[tableId] == Merge(tables[tableId], Qp.Rows(records), KeyColumns(keys, fields))
      && forall id | id != tableId && id != TempId(tableId) ::
           (id in after <==> id in tables) && (id in tables ==> after[id] == tables[id])
  {
    var temp := TempId(tableId);
    var staging := StagingCalls(insert, temp, schema, records);
    UpsertGoesThrough(raises, at, tableId, keys, fields, staging);
    PerformCons(raises, at, Drop(temp), staging);
    StagingCallsContents(insert, raises, at, tables, temp, schema, records);
    MergedContents(raises, at, tables, tableId, keys, fields, staging, Qp.Rows(records));
    MergedKeepsOthers(raises, at, tables, tableId, keys, fields, staging, Qp.Rows(records));
  }

  /** As written, a successful upsert leaves the table as the MERGE of its
      rows with the first `BATCH_SIZE` records' only. */
  lemma UpsertAsWrittenContents(insert: InsertCall, raises: (Call, nat) -> bool, at: nat, tables: Tables, tableId: string,
                                keys: seq<string>, fields: seq<string>, schema: seq<SchemaField>,
                                records: seq<TransactionRecord>)
    requires AppendsRows(insert) && tableId in tables
    requires Upsert(raises, at, tableId, keys, fields,
                    StagingCallsAsWritten(insert, TempId(tableId), schema, records)).1.None?
    ensures var r := Upsert(raises, at, tableId, keys, fields,
                            StagingCallsAsWritten(insert, TempId(tableId), schema, records));
      var after := Outcome(raises, at, tables, r.0);
      && tableId in after && TempId(tableId) !in after
      && after[tableId] == Merge(tables[tableId], Qp.Rows(records[..Min(BATCH_SIZE, |records|)]), KeyColumns(keys, fields))
      && forall id | id != tableId && id != TempId(tableId) ::
           (id in after <==> id in tables) && (id in tables ==> after[id] == tables[id])
  {
    var temp := TempId(tableId);
    var batches: seq<seq<TransactionRecord>> := if records == [] then [] else [Batches(records, BATCH_SIZE)[0]];
    if records == [] {
      assert InsertCalls(insert, temp, batches) == [];
      assert Concat(batches) == [] == records[..0];
    } else {
      assert InsertCalls(insert, temp, batches) == [insert(temp, batches[0])];
      FirstBatch(records, BATCH_SIZE);
      assert Concat(batches) == batches[0] + Concat(batches[1..]);
      assert Concat(batches) == records[..Min(BATCH_SIZE, |records|)];
    }
    var staging := Staging(insert, temp, schema, batches);
    assert StagingCallsAsWritten(insert, temp, schema, records) == staging;
    UpsertGoesThrough(raises, at, tableId, keys, fields, staging);
    PerformCons(raises, at, Drop(temp), staging);
    StagedContents(insert, raises, at, tables, temp, schema, batches);
    MergedContents(raises, at, tables, tableId, keys, fields, staging, Qp.Rows(records[..Min(BATCH_SIZE, |records|)]));
    MergedKeepsOthers(raises, at, tables, tableId, keys, fields, staging, Qp.Rows(records[..Min(BATCH_SIZE, |records|)]));
  }

  /** Corrected, when the records' keys are set and distinct, a successful
      upsert stores every record as the only row with its key, leaves each
      row no record matches in its place, and brings in nothing else. */
  lemma UpsertStoresRecords(insert: InsertCall, raises: (Call, nat) -> bool, at: nat, tables: Tables, tableId: string, keys: seq<string>,
                            fields: seq<string>, schema: seq<SchemaField>, records: seq<TransactionRecord>)
    requires AppendsRows(insert) && tableId in tables
    requires UniqueKeys(Qp.Rows(records), KeyColumns(keys, fields))
    requires Upsert(raises, at, tableId, keys, fields, StagingCalls(insert, TempId(tableId), schema, records)).1.None?
    ensures var r := Upsert(raises, at, tableId, keys, fields, StagingCalls(insert, TempId(tableId), schema, records));
      var after := Outcome(raises, at, tables, r.0);
      var kc := KeyColumns(keys, fields);
      && tableId in after
      && (forall j | 0 <= j < |records| :: Cells(records[j]) in after[tableId])
      && (forall j, row | 0 <= j < |records| && row in after[tableId] && Key(row, kc) == Key(Cells(records[j]), kc) ::
            row == Cells(records[j]))
      && (forall i | 0 <= i < |tables[tableId]| && (forall j | 0 <= j < |records| :: !Matches(tables[tableId][i], Cells(records[j]), kc)) ::
            i < |after[tableId]| && after[tableId][i] == tables[tableId][i])
      && (forall row | row in after[tableId] :: row in tables[tableId] || row in Qp.Rows(records))
  {
    var kc := KeyColumns(keys, fields);
    var source := Qp.Rows(records);
    Qp.RowsEach(records);
    UpsertContents(insert, raises, at, tables, tableId, keys, fields, schema, records);
    MergeUpserts(tables[tableId], source, kc);
    MergeRowsFrom(tables[tableId], source, kc);
    MergeKeepsUnmatched(tables[tableId], source, kc);
    forall i | 0 <= i < |tables[tableId]| && (forall j | 0 <= j < |records| :: !Matches(tables[tableId][i], Cells(records[j]), kc))
      ensures forall s | s in source :: !Matches(tables[tableId][i], s, kc)
    {
      forall s | s in source
        ensures !Matches(tables[tableId][i], s, kc)
      {
        var j :| 0 <= j < |source| && source[j] == s;
        assert s == Cells(records[j]);
      }
    }
  }

  /** As written, a record past the first `BATCH_SIZE` whose key is neither
      in the table nor among the first `BATCH_SIZE` records is missing from
      the table after a successful upsert: no row has its key. */
  lemma AsWrittenLosesLaterRecords(insert: InsertCall, raises: (Call, nat) -> bool, at: nat, tables: Tables, tableId: string,
                                   keys: seq<string>, fields: seq<string>, schema: seq<SchemaField>,
                                   records: seq<TransactionRecord>, j: nat)
    requires AppendsRows(insert) && tableId in tables
    requires BATCH_SIZE <= j < |records|
    requires Upsert(raises, at, tableId, keys, fields,
                    StagingCallsAsWritten(insert, TempId(tableId), schema, records)).1.None?
    requires forall row | row in tables[tableId] :: Key(row, KeyColumns(keys, fields)) != Key(Cells(records[j]), KeyColumns(keys, fields))
    requires forall i | 0 <= i < BATCH_SIZE ::
      Key(Cells(records[i]), KeyColumns(keys, fields)) != Key(Cells(records[j]), KeyColumns(keys, fields))
    ensures var r := Upsert(raises, at, tableId, keys, fields,
                            StagingCallsAsWritten(insert, TempId(tableId), schema, records));
      var after := Outcome(raises, at, tables, r.0);
      && tableId in after
      && forall row | row in after[tableId] :: Key(row, KeyColumns(keys, fields)) != Key(Cells(records[j]), KeyColumns(keys, fields))
  {
    var kc := KeyColumns(keys, fields);
    var source := Qp.Rows(records[..BATCH_SIZE]);
    UpsertAsWrittenContents(insert, raises, at, tables, tableId, keys, fields, schema, records);
    MergeRowsFrom(tables[tableId], source, kc);
    forall s | s in source
      ensures Key(s, kc) != Key(Cells(records[j]), kc)
    {
      var i :| 0 <= i < |source| && source[i] == s;
      assert s == Cells(records[i]);
    }
  }

  /** An oracle under which only the call at position `k` raises. */
  function FailsAt(k: nat): (Call, nat) -> bool {
    (c: Call, i: nat) => i == k
  }

  /** Under `FailsAt(k)`, calls made before position `k` all go through. */
  lemma {:induction false} FailsLater(k: nat, at: nat, calls: seq<Call>)
    requires at + |calls| <= k
    ensures Perform(FailsAt(k), at, calls) == (calls, None)
    decreases |calls|
  {
    if calls != [] {
      FailsLater(k, at + 1, calls[1..]);
      assert calls == [calls[0]] + calls[1..];
    }
  }

  /** Corrected, once the first drop, the staging and the MERGE went
      through, the table is the MERGE of its rows with every record's,
      whatever the final drop does. */
  lemma UpsertMergedContents(insert: InsertCall, raises: (Call, nat) -> bool, at: nat, tables: Tables, tableId: string,
                             keys: seq<string>, fields: seq<string>, schema: seq<SchemaField>,
                             records: seq<TransactionRecord>)
    requires AppendsRows(insert) && tableId in tables
    requires !raises(Drop(TempId(tableId)), at)
    requires Perform(raises, at + 1, StagingCalls(insert, TempId(tableId), schema, records)).1.None?
    requires !raises(MergeCall(tableId, keys, fields), at + 1 + |StagingCalls(insert, TempId(tableId), schema, records)|)
    ensures var staging := StagingCalls(insert, TempId(tableId), schema, records);
      var after := Outcome(raises, at, tables, Upsert(raises, at, tableId, keys, fields, staging).0);
      tableId in after && after[tableId] == Merge(tables[tableId], Qp.Rows(records), KeyColumns(keys, fields))
  {
    PerformCons(raises, at, Drop(TempId(tableId)), StagingCalls(insert, TempId(tableId), schema, records));
    StagingCallsContents(insert, raises, at, tables, TempId(tableId), schema, records);
    MergedContents(raises, at, tables, tableId, keys, fields, StagingCalls(insert, TempId(tableId), schema, records),
                   Qp.Rows(records));
  }

  /** The final drop can raise after the MERGE went through: with an oracle
      that raises only at the final drop's position (`at + 2` plus the
      number of staging calls), the MERGE goes through, the upsert fails, and
      yet the table was merged. The terms are written out in full rather
      than bound to names. */
  lemma UpsertFailsAfterMerge(insert: InsertCall, at: nat, tables: Tables, tableId: string, keys: seq<string>,
                              fields: seq<string>, schema: seq<SchemaField>, records: seq<TransactionRecord>)
    requires AppendsRows(insert) && tableId in tables
    ensures !FailsAt(at + 2 + |StagingCalls(insert, TempId(tableId), schema, records)|)
               (MergeCall(tableId, keys, fields), at + 1 + |StagingCalls(insert, TempId(tableId), schema, records)|)
    ensures Upsert(FailsAt(at + 2 + |StagingCalls(insert, TempId(tableId), schema, records)|), at, tableId, keys,
                   fields, StagingCalls(insert, TempId(tableId), schema, records)).1
            == Some(GoogleApiError)
    ensures tableId in
      Outcome(FailsAt(at + 2 + |StagingCalls(insert, TempId(tableId), schema, records)|), at, tables,
              Upsert(FailsAt(at + 2 + |StagingCalls(insert, TempId(tableId), schema, records)|), at, tableId, keys,
                     fields, StagingCalls(insert, TempId(tableId), schema, records)).0)
    ensures Outcome(FailsAt(at + 2 + |StagingCalls(insert, TempId(tableId), schema, records)|), at, tables,
                    Upsert(FailsAt(at + 2 + |StagingCalls(insert, TempId(tableId), schema, records)|), at, tableId,
                           keys, fields, StagingCalls(insert, TempId(tableId), schema, records)).0)[tableId]
            == Merge(tables[tableId], Qp.Rows(records), KeyColumns(keys, fields))
  {
    FailsLater(at + 2 + |StagingCalls(insert, TempId(tableId), schema, records)|, at + 1,
               StagingCalls(insert, TempId(tableId), schema, records));
    UpsertStaged(FailsAt(at + 2 + |StagingCalls(insert, TempId(tableId), schema, records)|), at, tableId, keys, fields,
                 StagingCalls(insert, TempId(tableId), schema, records));
    UpsertMergedContents(insert, FailsAt(at + 2 + |StagingCalls(insert, TempId(tableId), schema, records)|), at, tables,
                         tableId, keys, fields, schema, records);
  }

  /** A log extended twice is the log extended once by both parts. */
  lemma AppendAssoc(a: seq<Call>, b: seq<Call>, c: seq<Call>)
    ensures a + b + c == a + (b + c)
  {
  }

  // ---------------------------------------------------------------------
  // The table

  class Table {
    const tableId: string
    const primaryKeys: seq<string>
    const client: Client
    /** The schema and the field list, computed once at construction. */
    const schema: seq<SchemaField>
    const fields: seq<string>
    /** `str(Decimal)` and `strftime` as the INSERT text renders them. */
    const decText: real -> string
    const tsText: Instant -> string
    /** The staging insert, `qp.insert_records`. */
    const insert: InsertCall

    /** `Table(table_id, TransactionRecord, primary_keys, client)`. */
    constructor (tableId: string, primaryKeys: seq<string>, client: Client, decText: real -> string,
                 tsText: Instant -> string)
      ensures this.tableId == tableId && this.primaryKeys == primaryKeys && this.client == client
      ensures this.decText == decText && this.tsText == tsText
      ensures schema == Schema() && fields == FIELD_NAMES && insert == Qp.InsertCall
    {
      this.tableId := tableId;
      this.primaryKeys := primaryKeys;
      this.client := client;
      this.decText := decText;
      this.tsText := tsText;
      insert := Qp.InsertCall;
      var generated := GenerateSchemaLoop(FIELD_NAMES, FIELD_ANNOTATIONS);
      RecordSchema();
      schema := generated.value;
      fields := FIELD_NAMES;
    }

    /** `recreate`. */
    method Recreate() returns (err: Option<Error>)
      requires client.Valid()
      modifies client
      ensures client.Valid()
      ensures client.log == old(client.log) + Perform(client.raises, |old(client.log)|, RecreateCalls(tableId, schema)).0
      ensures err == Perform(client.raises, |old(client.log)|, RecreateCalls(tableId, schema)).1
    {
      RecreatePerform(client.raises, |client.log|, tableId, schema);
      err := client.Execute(DeleteTable(tableId, true));
      if err.Some? {
        return;
      }
      err := client.Execute(CreateTable(tableId, schema, true));
    }

    /** `insert_records`: the INSERT text, None for no records, sent as it
      is; its statement adds the records' rows. */
    method InsertRecords(records: seq<TransactionRecord>) returns (err: Option<Error>)
      requires client.Valid()
      modifies client
      ensures client.Valid()
      ensures var call := Query(BuildInsertQuery(tableId, records, decText, tsText), [], Append(tableId, Qp.Rows(records)));
        && client.log == old(client.log) + [call]
        && err == if client.raises(call, |old(client.log)|) then Some(GoogleApiError) else None
    {
      var query := BuildInsertQuery(tableId, records, decText, tsText);
      err := client.Execute(Query(query, [], Append(tableId, Qp.Rows(records))));
    }

    /** `_create_temp_table`, corrected: create the staging table, then
      stage every batch, the first exception ending it. */
    method CreateTempTable(tempId: string, records: seq<TransactionRecord>) returns (err: Option<Error>)
      requires client.Valid()
      modifies client
      ensures client.Valid()
      ensures var r := Perform(client.raises, |old(client.log)|, StagingCalls(insert, tempId, schema, records));
        client.log == old(client.log) + r.0 && err == r.1
    {
      var batches := Batches(records, BATCH_SIZE);
      PerformCons(client.raises, |client.log|, CreateTable(tempId, schema, true), InsertCalls(insert, tempId, batches));
      err := client.Execute(CreateTable(tempId, schema, true));
      if err.Some? {
        return;
      }
      assert |client.log| == |old(client.log)| + 1;
      err := InsertBatches(tempId, batches);
      AppendAssoc(old(client.log), [CreateTable(tempId, schema, true)],
                  Perform(client.raises, |old(client.log)| + 1, InsertCalls(insert, tempId, batches)).0);
    }

    /** The batch loop of `_create_temp_table`, corrected: one insert per
      batch, in batch order, until one raises. */
    method InsertBatches(tempId: string, batches: seq<seq<TransactionRecord>>) returns (err: Option<Error>)
      requires client.Valid()
      modifies client
      ensures client.Valid()
      ensures var r := Perform(client.raises, |old(client.log)|, InsertCalls(insert, tempId, batches));
        client.log == old(client.log) + r.0 && err == r.1
    {
      err := PerformAll(client, InsertCalls(insert, tempId, batches));
    }

    /** `_create_temp_table` as written: the loop body runs for the first
      batch only, then breaks. */
    method CreateTempTableAsWritten(tempId: string, records: seq<TransactionRecord>) returns (err: Option<Error>)
      requires client.Valid()
      modifies client
      ensures client.Valid()
      ensures var r := Perform(client.raises, |old(client.log)|, StagingCallsAsWritten(insert, tempId, schema, records));
        client.log == old(client.log) + r.0 && err == r.1
    {
      var batches := Batches(records, BATCH_SIZE);
      ghost var first := if batches == [] then [] else [insert(tempId, batches[0])];
      PerformCons(client.raises, |client.log|, CreateTable(tempId, schema, true), first);
      err := client.Execute(CreateTable(tempId, schema, true));
      if err.Some? {
        return;
      }
      if batches == [] {
        return;
      }
      PerformCons(client.raises, |client.log|, first[0], []);
      assert first == [first[0]] + [];
      err := client.Execute(insert(tempId, batches[0]));
    }

    /** `upsert_records`, corrected; the tables are what its calls made of
      them. */
    method UpsertRecords(records: seq<TransactionRecord>) returns (err: Option<Error>)
      requires client.Valid()
      modifies client
      ensures client.Valid()
      ensures var r := Upsert(client.raises, |old(client.log)|, tableId, primaryKeys, fields,
                              StagingCalls(insert, TempId(tableId), schema, records));
        && client.log == old(client.log) + r.0 && err == r.1
        && client.tables == Outcome(client.raises, |old(client.log)|, old(client.tables), r.0)
    {
      var tempId := TempId(tableId);
      ghost var log0 := client.log;
      ghost var staging := StagingCalls(insert, tempId, schema, records);
      ghost var rest := StageThenMerge(client.raises, |log0| + 1, tableId, primaryKeys, fields, staging);
      UpsertAfterDrop(client.raises, |log0|, tableId, primaryKeys, fields, staging);
      err := client.Execute(Drop(tempId));
      ghost var made := [Drop(tempId)];
      if err.None? {
        assert |client.log| == |log0| + 1;
        err := StageAndMerge(tempId, records, false);
        assert TempStaging(insert, tempId, schema, records, false) == staging;
        made := [Drop(tempId)] + rest.0;
        AppendAssoc(log0, [Drop(tempId)], rest.0);
      }
      OutcomeAppend(client.raises, 0, client.initial, log0, made);
    }

    /** `upsert_records` as written: only the first batch is staged. */
    method UpsertRecordsAsWritten(records: seq<TransactionRecord>) returns (err: Option<Error>)
      requires client.Valid()
      modifies client
      ensures client.Valid()
      ensures var r := Upsert(client.raises, |old(client.log)|, tableId, primaryKeys, fields,
                              StagingCallsAsWritten(insert, TempId(tableId), schema, records));
        && client.log == old(client.log) + r.0 && err == r.1
        && client.tables == Outcome(client.raises, |old(client.log)|, old(client.tables), r.0)
    {
      var tempId := TempId(tableId);
      ghost var log0 := client.log;
      ghost var staging := StagingCallsAsWritten(insert, tempId, schema, records);
      ghost var rest := StageThenMerge(client.raises, |log0| + 1, tableId, primaryKeys, fields, staging);
      UpsertAfterDrop(client.raises, |log0|, tableId, primaryKeys, fields, staging);
      err := client.Execute(Drop(tempId));
      ghost var made := [Drop(tempId)];
      if err.None? {
        assert |client.log| == |log0| + 1;
        err := StageAndMerge(tempId, records, true);
        assert TempStaging(insert, tempId, schema, records, true) == staging;
        made := [Drop(tempId)] + rest.0;
        AppendAssoc(log0, [Drop(tempId)], rest.0);
      }
      OutcomeAppend(client.raises, 0, client.initial, log0, made);
    }

    /** `_create_temp_table`, corrected or as written. */
    method CreateStaging(tempId: string, records: seq<TransactionRecord>, asWritten: bool) returns (err: Option<Error>)
      requires client.Valid()
      modifies client
      ensures client.Valid()
      ensures var r := Perform(client.raises, |old(client.log)|, TempStaging(insert, tempId, schema, records, asWritten));
        client.log == old(client.log) + r.0 && err == r.1
    {
      if asWritten {
        err := CreateTempTableAsWritten(tempId, records);
      } else {
        err := CreateTempTable(tempId, records);
      }
    }

    /** What `upsert_records` does after its first drop: `_create_temp_table`
      (corrected, or as written), then, if that went through, the MERGE and
      the drop. */
    method StageAndMerge(tempId: string, records: seq<TransactionRecord>, asWritten: bool) returns (err: Option<Error>)
      requires tempId == TempId(tableId)
      requires client.Valid()
      modifies client
      ensures client.Valid()
      ensures var s := StageThenMerge(client.raises, |old(client.log)|, tableId, primaryKeys, fields,
                                      TempStaging(insert, tempId, schema, records, asWritten));
        client.log == old(client.log) + s.0 && err == s.1
    {
      ghost var staging := TempStaging(insert, tempId, schema, records, asWritten);
      StageThenMergeParts(client.raises, |client.log|, tableId, primaryKeys, fields, staging);
      err := CreateStaging(tempId, records, asWritten);
      if err.None? {
        PerformMadeAll(client.raises, |old(client.log)|, staging);
        assert |client.log| == |old(client.log)| + |staging|;
        err := MergeThenDrop(tempId);
        AppendAssoc(old(client.log), staging, [MergeCall(tableId, primaryKeys, fields), Drop(tempId)]);
      }
    }

    /** The `try`/`finally` of `upsert_records`: the MERGE, then the drop of
      the temporary table whatever the MERGE did. */
    method MergeThenDrop(tempId: string) returns (err: Option<Error>)
      requires tempId == TempId(tableId)
      requires client.Valid()
      modifies client
      ensures client.Valid()
      ensures client.log == old(client.log) + [MergeCall(tableId, primaryKeys, fields), Drop(tempId)]
      ensures err == MergeErr(client.raises, |old(client.log)|, tableId, primaryKeys, fields)
    {
      var mergeQuery := MergeQuery(tableId, tempId, primaryKeys, fields);
      var mergeErr := client.Execute(Query(Some(mergeQuery), [], MergeInto(tableId, tempId, KeyColumns(primaryKeys, fields))));
      var dropErr := client.Execute(DeleteTable(tempId, true));
      err := if dropErr.Some? then dropErr else mergeErr;
    }
  }
}
