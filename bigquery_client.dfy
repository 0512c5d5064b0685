/** The BigQuery client as app/bigquery_table/ sees it: every call it makes is
    recorded in order, whether a call raises is decided by an oracle the
    client is built with, and the tables of the project are what the calls
    that went through made of them. */
module BigQueryClient {
  import opened Wrappers
  import opened Records
  import opened SqlText

  /** `ScalarQueryParameter(name, type, value)`. */
  datatype Param = Param(name: string, bqType: string, value: Cell)

  /** A row of a table: its cells in column order. */
  type Row = seq<Cell>

  /** The tables of the project, by id. */
  type Tables = map<string, seq<Row>>

  /** What the statement a query sends does to the tables once its job
      succeeds; the SQL text itself is not parsed here. */
  datatype Statement =
    | /** `INSERT INTO table (...) VALUES ...`: the rows are added. */
      Append(tableId: string, rows: seq<Row>)
    | /** `MERGE target T USING source S ON T.k = S.k AND ...`, every other
          column updated when matched, the whole row inserted when not. The
          keys are column positions. */
      MergeInto(target: string, source: string, keys: seq<nat>)

  /** The client calls the table code makes; a query is waited for with
      `result()`, so a failing job raises at its call. A query carries the
      statement its text was built to run. */
  datatype Call =
    | DeleteTable(tableId: string, notFoundOk: bool)
    | CreateTable(tableId: string, schema: seq<SchemaField>, existsOk: bool)
    | Query(text: Option<string>, params: seq<Param>, statement: Statement)

  // ---------------------------------------------------------------------
  // MERGE

  /** The key cells of a row; NULL for a key column past the row's end. */
  function Key(row: Row, keys: seq<nat>): seq<Cell> {
    seq(|keys|, i requires 0 <= i < |keys| => if keys[i] < |row| then row[keys[i]] else Null)
  }

  /** `T.k1 = S.k1 AND ...`: the key cells agree and none is NULL, since
      `NULL = NULL` is not true. */
  predicate Matches(t: Row, s: Row, keys: seq<nat>) {
    Null !in Key(t, keys) && Key(t, keys) == Key(s, keys)
  }

  /** `WHEN MATCHED THEN UPDATE SET`: every non-key column takes the source
      row's cell, the key columns keep the target's. */
  function Updated(t: Row, s: Row, keys: seq<nat>): Row {
    seq(|s|, j requires 0 <= j < |s| => if j in keys && j < |t| then t[j] else s[j])
  }

  /** A matched row, updated, is the source row: its key cells already agree. */
  lemma UpdatedIsSource(t: Row, s: Row, keys: seq<nat>)
    requires Matches(t, s, keys)
    ensures Updated(t, s, keys) == s
  {
    forall j | 0 <= j < |s| && j in keys && j < |t|
      ensures t[j] == s[j]
    {
      var i :| 0 <= i < |keys| && keys[i] == j;
      assert Key(t, keys)[i] == Key(s, keys)[i];
    }
  }

  /** The first source row the target row matches. */
  function FirstMatch(t: Row, source: seq<Row>, keys: seq<nat>): Option<Row> {
    if source == [] then None
    else if Matches(t, source[0], keys) then Some(source[0])
    else FirstMatch(t, source[1..], keys)
  }

  /** The row found is a source row the target row matches; none is found
      exactly when no source row matches. */
  lemma {:induction false} FirstMatchMeaning(t: Row, source: seq<Row>, keys: seq<nat>)
    ensures var m := FirstMatch(t, source, keys);
      && (m.Some? ==> m.value in source && Matches(t, m.value, keys))
      && (m.None? <==> forall s | s in source :: !Matches(t, s, keys))
    decreases |source|
  {
    if source != [] && !Matches(t, source[0], keys) {
      FirstMatchMeaning(t, source[1..], keys);
      assert forall s | s in source :: s == source[0] || s in source[1..];
    }
  }

  /** Whether some target row matches the source row. */
  predicate MatchedIn(target: seq<Row>, s: Row, keys: seq<nat>) {
    exists t | t in target :: Matches(t, s, keys)
  }

  /** `WHEN NOT MATCHED THEN INSERT`: the source rows no target row matches,
      in order. */
  function Unmatched(target: seq<Row>, source: seq<Row>, keys: seq<nat>): seq<Row> {
    if source == [] then []
    else (if MatchedIn(target, source[0], keys) then [] else [source[0]]) + Unmatched(target, source[1..], keys)
  }

  /** The rows inserted are exactly the source rows no target row matches. */
  lemma {:induction false} UnmatchedMeaning(target: seq<Row>, source: seq<Row>, keys: seq<nat>)
    ensures var u := Unmatched(target, source, keys);
      && (forall s | s in u :: s in source && !MatchedIn(target, s, keys))
      && (forall s | s in source && !MatchedIn(target, s, keys) :: s in u)
    decreases |source|
  {
    if source != [] {
      UnmatchedMeaning(target, source[1..], keys);
      assert forall s | s in source :: s == source[0] || s in source[1..];
    }
  }

  /** The target's rows after the MERGE: each matched row updated from the
      source row it matches, in place, then the unmatched source rows. (When
      two source rows match one target row the service raises; the model
      takes the first.) */
  function Merge(target: seq<Row>, source: seq<Row>, keys: seq<nat>): seq<Row> {
    seq(|target|, i requires 0 <= i < |target| =>
          match FirstMatch(target[i], source, keys)
          case Some(s) => Updated(target[i], s, keys)
          case None => target[i])
    + Unmatched(target, source, keys)
  }

  /** No key cell of the rows is NULL and no two rows share their key. */
  predicate UniqueKeys(rows: seq<Row>, keys: seq<nat>) {
    && (forall i | 0 <= i < |rows| :: Null !in Key(rows[i], keys))
    && (forall i, j | 0 <= i < |rows| && 0 <= j < |rows| && i != j :: Key(rows[i], keys) != Key(rows[j], keys))
  }

  /** Every row after a MERGE was a target row or a source row. */
  lemma MergeRowsFrom(target: seq<Row>, source: seq<Row>, keys: seq<nat>)
    ensures forall row | row in Merge(target, source, keys) :: row in target || row in source
  {
    var m := Merge(target, source, keys);
    forall row | row in m
      ensures row in target || row in source
    {
      var k :| 0 <= k < |m| && m[k] == row;
      if k < |target| {
        var f := FirstMatch(target[k], source, keys);
        FirstMatchMeaning(target[k], source, keys);
        if f.Some? {
          UpdatedIsSource(target[k], f.value, keys);
        }
      } else {
        assert row in Unmatched(target, source, keys);
        UnmatchedMeaning(target, source, keys);
      }
    }
  }

  /** MERGE on keys the source holds once each is an upsert: every source
      row ends up in the target, and it is the only row with its key. */
  lemma MergeUpserts(target: seq<Row>, source: seq<Row>, keys: seq<nat>)
    requires UniqueKeys(source, keys)
    ensures forall s | s in source :: s in Merge(target, source, keys)
    ensures forall s, row | s in source && row in Merge(target, source, keys) && Key(row, keys) == Key(s, keys) :: row == s
  {
    var m := Merge(target, source, keys);
    UnmatchedMeaning(target, source, keys);
    forall s | s in source
      ensures s in m
      ensures forall row | row in m && Key(row, keys) == Key(s, keys) :: row == s
    {
      var b :| 0 <= b < |source| && source[b] == s;
      if MatchedIn(target, s, keys) {
        var t :| t in target && Matches(t, s, keys);
        var i :| 0 <= i < |target| && target[i] == t;
        var f := FirstMatch(t, source, keys);
        FirstMatchMeaning(t, source, keys);
        SameKeySameRow(source, keys, f.value, s);
        UpdatedIsSource(t, s, keys);
        assert m[i] == s;
      } else {
        assert s in Unmatched(target, source, keys);
      }
      forall row | row in m && Key(row, keys) == Key(s, keys)
        ensures row == s
      {
        var k :| 0 <= k < |m| && m[k] == row;
        if k < |target| {
          var f := FirstMatch(target[k], source, keys);
          FirstMatchMeaning(target[k], source, keys);
          if f.Some? {
            UpdatedIsSource(target[k], f.value, keys);
            SameKeySameRow(source, keys, f.value, s);
          } else {
            assert false;
          }
        } else {
          assert row in Unmatched(target, source, keys);
          SameKeySameRow(source, keys, row, s);
        }
      }
    }
  }

  /** Two rows of a source with unique keys that share a key are the same row. */
  lemma SameKeySameRow(source: seq<Row>, keys: seq<nat>, a: Row, b: Row)
    requires UniqueKeys(source, keys) && a in source && b in source
    ensures Key(a, keys) == Key(b, keys) <==> a == b
  {
    var i :| 0 <= i < |source| && source[i] == a;
    var j :| 0 <= j < |source| && source[j] == b;
  }

  /** A target row no source row matches is left as it was, in its place. */
  lemma MergeKeepsUnmatched(target: seq<Row>, source: seq<Row>, keys: seq<nat>)
    ensures |Merge(target, source, keys)| >= |target|
    ensures forall i | 0 <= i < |target| && (forall s | s in source :: !Matches(target[i], s, keys)) ::
      Merge(target, source, keys)[i] == target[i]
  {
    forall i | 0 <= i < |target|
      ensures FirstMatch(target[i], source, keys).None? <==> forall s | s in source :: !Matches(target[i], s, keys)
    {
      FirstMatchMeaning(target[i], source, keys);
    }
  }

  // ---------------------------------------------------------------------
  // The effect of calls

  /** What a call that goes through does to the tables. A query on a table
      that is not there changes nothing. */
  function Apply(call: Call, tables: Tables): (r: Tables)
    ensures call.DeleteTable? ==> r == tables - {call.tableId}
    ensures call.CreateTable? ==> call.tableId in r && r[call.tableId] == (if call.tableId in tables then tables[call.tableId] else [])
  {
    match call
    case DeleteTable(id, _) => tables - {id}
    case CreateTable(id, _, _) => if id in tables then tables else tables[id := []]
    case Query(_, _, Append(id, rows)) => if id in tables then tables[id := tables[id] + rows] else tables
    case Query(_, _, MergeInto(target, source, keys)) =>
      if target in tables && source in tables then tables[target := Merge(tables[target], tables[source], keys)]
      else tables
  }

  /** The tables after the calls, made from position `at` on: each call that
      does not raise takes effect, one that raises changes nothing. */
  function Outcome(raises: (Call, nat) -> bool, at: nat, tables: Tables, calls: seq<Call>): Tables
    decreases |calls|
  {
    if calls == [] then tables
    else
      var before := Outcome(raises, at, tables, calls[..|calls| - 1]);
      if raises(calls[|calls| - 1], at + |calls| - 1) then before else Apply(calls[|calls| - 1], before)
  }

  /** Two call lists in turn: the second starts from what the first left,
      at the position after it. */
  lemma {:induction false} OutcomeAppend(raises: (Call, nat) -> bool, at: nat, tables: Tables, xs: seq<Call>, ys: seq<Call>)
    ensures Outcome(raises, at, tables, xs + ys) == Outcome(raises, at + |xs|, Outcome(raises, at, tables, xs), ys)
    decreases |ys|
  {
    if ys == [] {
      assert xs + ys == xs;
    } else {
      assert (xs + ys)[..|xs + ys| - 1] == xs + ys[..|ys| - 1];
      OutcomeAppend(raises, at, tables, xs, ys[..|ys| - 1]);
    }
  }

  /** One call: it takes effect unless it raises. */
  lemma OutcomeOne(raises: (Call, nat) -> bool, at: nat, tables: Tables, c: Call)
    ensures Outcome(raises, at, tables, [c]) == if raises(c, at) then tables else Apply(c, tables)
  {
    assert [c][..0] == [];
  }

  /** A call list is its first call, then the rest from the next position. */
  lemma OutcomeCons(raises: (Call, nat) -> bool, at: nat, tables: Tables, c: Call, rest: seq<Call>)
    ensures Outcome(raises, at, tables, [c] + rest) ==
      Outcome(raises, at + 1, if raises(c, at) then tables else Apply(c, tables), rest)
  {
    OutcomeAppend(raises, at, tables, [c], rest);
    OutcomeOne(raises, at, tables, c);
  }

  // ---------------------------------------------------------------------
  // The client

  class Client {
    /** The calls made so far, oldest first. */
    var log: seq<Call>
    /** The tables of the project as the calls made so far left them. */
    ghost var tables: Tables
    /** The tables when the client was made. */
    ghost const initial: Tables
    /** Whether a call raises a google.api_core exception, given the number
      of calls made before it. */
    const raises: (Call, nat) -> bool

    /** The tables are the outcome of the calls logged. */
    ghost predicate Valid()
      reads this
    {
      tables == Outcome(raises, 0, initial, log)
    }

    constructor (raises: (Call, nat) -> bool, ghost tables: Tables)
      ensures Valid() && log == [] && this.raises == raises && this.tables == tables
    {
      log := [];
      this.raises := raises;
      this.tables := tables;
      initial := tables;
    }

    /** Makes one call: it is recorded, it raises when the oracle says so,
      and otherwise it takes effect. */
    method Execute(call: Call) returns (err: Option<Error>)
      requires Valid()
      modifies this
      ensures Valid()
      ensures log == old(log) + [call]
      ensures err == if raises(call, |old(log)|) then Some(GoogleApiError) else None
      ensures tables == if err.Some? then old(tables) else Apply(call, old(tables))
    {
      assert (log + [call])[..|log|] == log;
      err := if raises(call, |log|) then Some(GoogleApiError) else None;
      if err.None? {
        tables := Apply(call, tables);
      }
      log := log + [call];
    }
  }

  // ---------------------------------------------------------------------
  // Calls in turn

  /** Calls made one after another from position `at` until one raises: the
      calls made (the one that raised is the last of them) and the
      exception, if any. */
  function Perform(raises: (Call, nat) -> bool, at: nat, calls: seq<Call>): (r: (seq<Call>, Option<Error>))
    ensures |r.0| <= |calls|
    decreases |calls|
  {
    if calls == [] then ([], None)
    else if raises(calls[0], at) then ([calls[0]], Some(GoogleApiError))
    else var rest := Perform(raises, at + 1, calls[1..]); ([calls[0]] + rest.0, rest.1)
  }

  /** Without an exception every call is made; with one, the calls made are
      a prefix of the list that ends with the first call that raises. */
  lemma PerformMeaning(raises: (Call, nat) -> bool, at: nat, calls: seq<Call>)
    ensures var r := Perform(raises, at, calls);
      && (r.1.None? <==> forall i | 0 <= i < |calls| :: !raises(calls[i], at + i))
      && (r.1.None? ==> r.0 == calls)
      && (r.1.Some? ==> r.1 == Some(GoogleApiError) && 1 <= |r.0| && r.0 == calls[..|r.0|])
      && (r.1.Some? ==> raises(r.0[|r.0| - 1], at + |r.0| - 1) && forall i | 0 <= i < |r.0| - 1 :: !raises(r.0[i], at + i))
  {
    PerformSucceeds(raises, at, calls);
    PerformFails(raises, at, calls);
  }

  /** No exception exactly when no call raises at its position, and then
      every call is made. */
  lemma {:induction false} PerformSucceeds(raises: (Call, nat) -> bool, at: nat, calls: seq<Call>)
    ensures var r := Perform(raises, at, calls);
      && (r.1.None? <==> forall i | 0 <= i < |calls| :: !raises(calls[i], at + i))
      && (r.1.None? ==> r.0 == calls)
    decreases |calls|
  {
    if Perform(raises, at, calls).1.None? {
      PerformMadeAll(raises, at, calls);
    }
    if calls != [] && !raises(calls[0], at) {
      var rest := calls[1..];
      PerformSucceeds(raises, at + 1, rest);
      if Perform(raises, at + 1, rest).1.None? {
        forall i | 0 < i < |calls|
          ensures !raises(calls[i], at + i)
        {
          assert calls[i] == rest[i - 1] && at + i == at + 1 + (i - 1);
        }
      } else {
        var i :| 0 <= i < |rest| && raises(rest[i], at + 1 + i);
        assert rest[i] == calls[i + 1] && at + 1 + i == at + (i + 1);
      }
    }
  }

  /** Without an exception, every call was made. */
  lemma {:induction false} PerformMadeAll(raises: (Call, nat) -> bool, at: nat, calls: seq<Call>)
    requires Perform(raises, at, calls).1.None?
    ensures Perform(raises, at, calls).0 == calls
    decreases |calls|
  {
    if calls != [] {
      PerformMadeAll(raises, at + 1, calls[1..]);
      assert calls == [calls[0]] + calls[1..];
    }
  }

  /** A call that raises at its position makes the calls end in an
      exception. */
  lemma {:induction false} PerformRaises(raises: (Call, nat) -> bool, at: nat, calls: seq<Call>, i: nat)
    requires i < |calls| && raises(calls[i], at + i)
    ensures Perform(raises, at, calls).1 == Some(GoogleApiError)
    decreases i
  {
    if i > 0 && !raises(calls[0], at) {
      assert calls[1..][i - 1] == calls[i] && at + 1 + (i - 1) == at + i;
      PerformRaises(raises, at + 1, calls[1..], i - 1);
    }
  }

  /** With an exception, the calls made are a prefix of the list, none
      raising but the last. */
  lemma {:induction false} PerformFails(raises: (Call, nat) -> bool, at: nat, calls: seq<Call>)
    ensures var r := Perform(raises, at, calls);
      && (r.1.Some? ==> r.1 == Some(GoogleApiError) && 1 <= |r.0| && r.0 == calls[..|r.0|])
      && (r.1.Some? ==> raises(r.0[|r.0| - 1], at + |r.0| - 1) && forall i | 0 <= i < |r.0| - 1 :: !raises(r.0[i], at + i))
    decreases |calls|
  {
    if calls != [] && !raises(calls[0], at) {
      PerformFails(raises, at + 1, calls[1..]);
      var rest := Perform(raises, at + 1, calls[1..]);
      if rest.1.Some? {
        var made := [calls[0]] + rest.0;
        assert made == calls[..|made|];
        forall i | 0 <= i < |made| - 1
          ensures !raises(made[i], at + i)
        {
          if i > 0 {
            assert made[i] == rest.0[i - 1];
          }
        }
      }
    }
  }

  /** Performing two call lists in turn is performing them joined, up to the
      first that raises. */
  lemma {:induction false} PerformAppend(raises: (Call, nat) -> bool, at: nat, xs: seq<Call>, ys: seq<Call>)
    ensures Perform(raises, at, xs + ys) ==
      var a := Perform(raises, at, xs);
      if a.1.Some? then a else (a.0 + Perform(raises, at + |xs|, ys).0, Perform(raises, at + |xs|, ys).1)
    decreases |xs|
  {
    if xs == [] {
      assert xs + ys == ys;
      assert [] + Perform(raises, at, ys).0 == Perform(raises, at, ys).0;
    } else {
      assert (xs + ys)[1..] == xs[1..] + ys;
      PerformAppend(raises, at + 1, xs[1..], ys);
      if !raises(xs[0], at) && Perform(raises, at + 1, xs[1..]).1.None? {
        var b := Perform(raises, at + |xs|, ys).0;
        assert [xs[0]] + (Perform(raises, at + 1, xs[1..]).0 + b) == ([xs[0]] + Perform(raises, at + 1, xs[1..]).0) + b;
      }
    }
  }

  /** One call of the loop below that does not raise. */
  lemma PerformStep(raises: (Call, nat) -> bool, at: nat, calls: seq<Call>, i: nat)
    requires i < |calls| && !raises(calls[i], at + i)
    ensures calls[..i] + Perform(raises, at + i, calls[i..]).0 == calls[..i + 1] + Perform(raises, at + (i + 1), calls[i + 1..]).0
    ensures Perform(raises, at + i, calls[i..]).1 == Perform(raises, at + (i + 1), calls[i + 1..]).1
    ensures calls[..i + 1] == calls[..i] + [calls[i]]
  {
    assert calls[i..][1..] == calls[i + 1..];
    assert calls[..i + 1] == calls[..i] + [calls[i]];
  }

  /** Before the loop below: nothing made yet. */
  lemma PerformStarts(raises: (Call, nat) -> bool, at: nat, calls: seq<Call>)
    ensures Perform(raises, at, calls).0 == calls[..0] + Perform(raises, at + 0, calls[0..]).0
    ensures Perform(raises, at, calls).1 == Perform(raises, at + 0, calls[0..]).1
  {
    assert calls[0..] == calls && calls[..0] + Perform(raises, at, calls).0 == Perform(raises, at, calls).0;
  }

  /** One call of the loop below that raises: it is the last one made. */
  lemma PerformStops(raises: (Call, nat) -> bool, at: nat, calls: seq<Call>, i: nat)
    requires i < |calls| && raises(calls[i], at + i)
    ensures calls[..i] + Perform(raises, at + i, calls[i..]).0 == calls[..i + 1]
    ensures Perform(raises, at + i, calls[i..]).1 == Some(GoogleApiError)
  {
    assert calls[..i + 1] == calls[..i] + [calls[i]];
  }

  /** After the loop below: every call made and no exception. */
  lemma PerformEnds(raises: (Call, nat) -> bool, at: nat, calls: seq<Call>)
    ensures calls[..|calls|] + Perform(raises, at + |calls|, calls[|calls|..]).0 == calls
    ensures Perform(raises, at + |calls|, calls[|calls|..]).1 == None
  {
    assert calls[..|calls|] == calls && calls[|calls|..] == [];
  }

  /** Performing a list is performing its first call, then the rest from the
      next position unless that call raised. */
  lemma PerformCons(raises: (Call, nat) -> bool, at: nat, c: Call, rest: seq<Call>)
    ensures Perform(raises, at, [c] + rest) ==
      if raises(c, at) then ([c], Some(GoogleApiError))
      else ([c] + Perform(raises, at + 1, rest).0, Perform(raises, at + 1, rest).1)
  {
    assert ([c] + rest)[0] == c && ([c] + rest)[1..] == rest;
  }

  /** The calls made one after another, stopping at the first exception. */
  method PerformAll(client: Client, calls: seq<Call>) returns (err: Option<Error>)
    requires client.Valid()
    modifies client
    ensures client.Valid()
    ensures client.log == old(client.log) + Perform(client.raises, |old(client.log)|, calls).0
    ensures err == Perform(client.raises, |old(client.log)|, calls).1
  {
    ghost var at := |client.log|;
    PerformStarts(client.raises, at, calls);
    for i := 0 to |calls|
      invariant client.Valid()
      invariant Perform(client.raises, at, calls).0 == calls[..i] + Perform(client.raises, at + i, calls[i..]).0
      invariant Perform(client.raises, at, calls).1 == Perform(client.raises, at + i, calls[i..]).1
      invariant client.log == old(client.log) + calls[..i]
    {
      assert |client.log| == at + i;
      err := client.Execute(calls[i]);
      if err.Some? {
        PerformStops(client.raises, at, calls, i);
        return;
      }
      PerformStep(client.raises, at, calls, i);
    }
    PerformEnds(client.raises, at, calls);
    return None;
  }
}
