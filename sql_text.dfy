/** The SQL text of app/bigquery_table/utils.py: quoted literals and names,
    the table schema read off the record's annotations, and the INSERT and
    MERGE statements. */
module SqlText {
  import opened Wrappers
  import opened Records
  import opened PyText

  // ---------------------------------------------------------------------
  // String literals

  /** `SPECIAL_CHARS`, in the dictionary's order: a character and its
      replacement. */
  const SPECIAL_CHARS: seq<(char, string)> :=
    [('\\', "\\\\"), ('\'', "\""), ('\n', " "), ('\r', " "), ('\t', " ")]

  /** `s.replace(src, rep)` for a one-character `src`. */
  function Replace(s: string, src: char, rep: string): (r: string)
    ensures src !in rep ==> src !in r
  {
    if s == [] then [] else (if s[0] == src then rep else [s[0]]) + Replace(s[1..], src, rep)
  }

  lemma {:induction false} ReplaceAppend(a: string, b: string, src: char, rep: string)
    ensures Replace(a + b, src, rep) == Replace(a, src, rep) + Replace(b, src, rep)
    decreases |a|
  {
    if a == [] {
      assert a + b == b;
    } else {
      assert (a + b)[1..] == a[1..] + b;
      ReplaceAppend(a[1..], b, src, rep);
    }
  }

  lemma {:induction false} ReplaceAbsent(s: string, src: char, rep: string)
    requires src !in s
    ensures Replace(s, src, rep) == s
    decreases |s|
  {
    if s != [] {
      ReplaceAbsent(s[1..], src, rep);
      assert s == [s[0]] + s[1..];
    }
  }

  /** What one character of a literal becomes. */
  function EscapeChar(c: char): string {
    if c == '\\' then "\\\\"
    else if c == '\'' then "\""
    else if c == '\n' || c == '\r' || c == '\t' then " "
    else [c]
  }

  /** The body of a literal: every character escaped on its own. Only a
      backslash grows (it is doubled). */
  function EscapedBody(s: string): (r: string)
    ensures '\'' !in r && '\n' !in r && '\r' !in r && '\t' !in r
    ensures |r| == |s| + Count('\\', s)
  {
    if s == [] then [] else EscapeChar(s[0]) + EscapedBody(s[1..])
  }

  /** What `escape_string` returns: NULL for None; otherwise the text in
      single quotes, and no quote, line break or tab inside them. */
  function Escape(value: Option<string>): (r: string)
    ensures value.None? ==> r == "NULL"
    ensures value.Some? ==> |r| >= 2 && r[0] == '\'' == r[|r| - 1]
    ensures value.Some? ==> var body := r[1..|r| - 1];
      '\'' !in body && '\n' !in body && '\r' !in body && '\t' !in body
  {
    if value.None? then "NULL" else "'" + EscapedBody(value.value) + "'"
  }

  /** Reading a literal's body back: a doubled backslash is one backslash. */
  function Unescape(r: string): string
    decreases |r|
  {
    if r == [] then []
    else if |r| >= 2 && r[0] == '\\' && r[1] == '\\' then "\\" + Unescape(r[2..])
    else [r[0]] + Unescape(r[1..])
  }

  /** Text without quotes, line breaks and tabs comes back unchanged from its
      literal: only those characters are lost by escaping. */
  lemma {:induction false} UnescapeEscaped(s: string)
    requires '\'' !in s && '\n' !in s && '\r' !in s && '\t' !in s
    ensures Unescape(EscapedBody(s)) == s
    decreases |s|
  {
    if s != [] {
      var r := EscapedBody(s);
      assert '\'' !in s[1..] && '\n' !in s[1..] && '\r' !in s[1..] && '\t' !in s[1..];
      UnescapeEscaped(s[1..]);
      if s[0] == '\\' {
        assert r[2..] == EscapedBody(s[1..]);
      } else {
        assert r[0] == s[0] && r[1..] == EscapedBody(s[1..]);
      }
      assert s == [s[0]] + s[1..];
    }
  }

  /** The position of `c` among the special characters, or their count when
      it is none of them. */
  function SpecialIndex(c: char): (k: nat)
    ensures k <= |SPECIAL_CHARS|
    ensures k < |SPECIAL_CHARS| ==> SPECIAL_CHARS[k].0 == c
    ensures forall j | 0 <= j < k :: SPECIAL_CHARS[j].0 != c
  {
    if c == '\\' then 0 else if c == '\'' then 1 else if c == '\n' then 2
    else if c == '\r' then 3 else if c == '\t' then 4 else 5
  }

  /** One character after the first `k` replacements of the loop. */
  function StageChar(k: nat, c: char): string {
    var j := SpecialIndex(c);
    if j < k && j < |SPECIAL_CHARS| then SPECIAL_CHARS[j].1 else [c]
  }

  /** A text after the first `k` replacements of the loop. */
  function Stage(k: nat, s: string): string {
    if s == [] then [] else StageChar(k, s[0]) + Stage(k, s[1..])
  }

  lemma StageCharBounds(c: char)
    ensures StageChar(0, c) == [c]
    ensures StageChar(|SPECIAL_CHARS|, c) == EscapeChar(c)
  {
    if c == '\\' {
      assert SpecialIndex(c) == 0;
    } else if c == '\'' {
      assert SpecialIndex(c) == 1;
    } else if c == '\n' || c == '\r' || c == '\t' {
      assert 2 <= SpecialIndex(c) < 5;
    } else {
      assert SpecialIndex(c) == 5;
    }
  }

  lemma {:induction false} StageBounds(s: string)
    ensures Stage(0, s) == s
    ensures Stage(|SPECIAL_CHARS|, s) == EscapedBody(s)
    decreases |s|
  {
    if s != [] {
      StageBounds(s[1..]);
      StageCharBounds(s[0]);
      assert s == [s[0]] + s[1..];
    }
  }

  lemma ReplaceStageChar(k: nat, c: char)
    requires k < |SPECIAL_CHARS|
    ensures Replace(StageChar(k, c), SPECIAL_CHARS[k].0, SPECIAL_CHARS[k].1) == StageChar(k + 1, c)
  {
    var j := SpecialIndex(c);
    if j < k {
      assert SPECIAL_CHARS[k].0 !in SPECIAL_CHARS[j].1;
      ReplaceAbsent(SPECIAL_CHARS[j].1, SPECIAL_CHARS[k].0, SPECIAL_CHARS[k].1);
    }
  }

  /** One round of the loop: replacing the next special character in the
      text so far gives the text after one more replacement. */
  lemma {:induction false} ReplaceStage(k: nat, s: string)
    requires k < |SPECIAL_CHARS|
    ensures Replace(Stage(k, s), SPECIAL_CHARS[k].0, SPECIAL_CHARS[k].1) == Stage(k + 1, s)
    decreases |s|
  {
    if s != [] {
      ReplaceAppend(StageChar(k, s[0]), Stage(k, s[1..]), SPECIAL_CHARS[k].0, SPECIAL_CHARS[k].1);
      ReplaceStage(k, s[1..]);
      ReplaceStageChar(k, s[0]);
    }
  }

  /** `escape_string(value)`: the replacements one after another, in the
      dictionary's order. Because a backslash is doubled before anything else
      is replaced and no replacement brings in a later special character, the
      outcome is every character escaped on its own. */
  method EscapeString(value: Option<string>) returns (r: string)
    ensures r == Escape(value)
  {
    if value.None? {
      return "NULL";
    }
    var v := value.value;
    StageBounds(value.value);
    for k := 0 to |SPECIAL_CHARS|
      invariant v == Stage(k, value.value)
    {
      var (src, rep) := SPECIAL_CHARS[k];
      ReplaceStage(k, value.value);
      v := Replace(v, src, rep);
    }
    return "'" + v + "'";
  }

  /** `wrap_name(name)`: the name in backquotes. */
  function WrapName(name: string): (r: string)
    ensures |r| == |name| + 2 && r[0] == '`' == r[|r| - 1] && r[1..|r| - 1] == name
  {
    "`" + name + "`"
  }

  /** `wrap_value(value)`: NULL, a NUMERIC cast of the Decimal's text, a UTC
      TIMESTAMP of the datetime's `%Y-%m-%d %H:%M:%S` text, the int's digits,
      or a string literal. `str()` of a Decimal and `strftime` are passed in. */
  function WrapValue(c: Cell, decText: real -> string, tsText: Instant -> string): (r: string)
    ensures c.Null? <==> r == "NULL"
    ensures c.Text? ==> r == Escape(Some(c.s))
    ensures c.Integer? ==> |r| >= 1 && (r[0] == '-' ==> forall i | 1 <= i < |r| :: '0' <= r[i] <= '9')
    ensures c.Integer? ==> (r[0] != '-' ==> forall i | 0 <= i < |r| :: '0' <= r[i] <= '9')
    ensures c.Integer? ==> ParseInt(r) == c.i
    ensures c.Dec? ==> r == "CAST('" + decText(c.d) + "' AS NUMERIC)"
    ensures c.Timestamp? ==> r == "TIMESTAMP('" + tsText(c.t) + " UTC')"
  {
    match c
    case Null => "NULL"
    case Dec(d) => "CAST('" + decText(d) + "' AS NUMERIC)"
    case Timestamp(t) => "TIMESTAMP('" + tsText(t) + " UTC')"
    case Integer(i) => IntTextRoundTrip(i); IntText(i)
    case Text(s) => Escape(Some(s))
  }

  /** A value renders on one line when the passed-in formatting does. */
  lemma WrapValueOneLine(c: Cell, decText: real -> string, tsText: Instant -> string)
    requires c.Dec? ==> '\n' !in decText(c.d)
    requires c.Timestamp? ==> '\n' !in tsText(c.t)
    ensures '\n' !in WrapValue(c, decText, tsText)
  {
    var r := WrapValue(c, decText, tsText);
    if c.Text? {
      assert r == "'" + EscapedBody(c.s) + "'";
    } else if c.Integer? {
      assert forall i | 0 <= i < |r| :: r[i] == '-' || '0' <= r[i] <= '9';
    }
  }

  // ---------------------------------------------------------------------
  // Schema

  datatype Mode = NULLABLE | REQUIRED

  /** `bigquery.SchemaField(name, field_type, mode=mode)`. */
  datatype SchemaField = SchemaField(name: string, fieldType: string, mode: Mode)

  /** `PYTHON_TO_BIGQUERY_TYPE_MAP.get(t)`. */
  function SchemaType(t: PyType): Option<string> {
    match t
    case StrType => Some("STRING")
    case IntType => Some("INT64")
    case DecimalType => Some("NUMERIC")
    case DateTimeType => Some("TIMESTAMP")
    case _ => None
  }

  /** `a` names the mapped class `t`, bare or as `t | None`. */
  predicate Supported(a: Annotation, t: PyType) {
    SchemaType(t).Some? && (a == Bare(t) || a == PipeUnion([t, NoneType]) || a == PipeUnion([NoneType, t]))
  }

  /** The schema field of one model field: a bare class is REQUIRED and
      `X | None` is NULLABLE; the class must be one the type map knows, and
      any other annotation raises TypeError. */
  function SchemaFieldOf(name: string, a: Annotation): (r: Result<SchemaField, Error>)
    ensures r.Failure? ==> r.error == TypeError
    ensures r.Success? ==> r.value.name == name
    ensures r.Success? ==> (r.value.mode == NULLABLE <==> Admits(a, NoneType))
  {
    match a
    case Bare(t) =>
      if SchemaType(t).None? then Failure(TypeError) else Success(SchemaField(name, SchemaType(t).value, REQUIRED))
    case PipeUnion(args) =>
      if |args| == 2 && NoneType in args then
        var t := if args[0] != NoneType then args[0] else args[1];
        if SchemaType(t).None? then Failure(TypeError) else Success(SchemaField(name, SchemaType(t).value, NULLABLE))
      else Failure(TypeError)
    case OtherGeneric(_) => Failure(TypeError)
  }

  /** The annotations with a schema field are exactly the mapped classes,
      bare or as `t | None`, and the field's type is the one mapped from a
      class the annotation admits. */
  lemma SchemaFieldSupported(name: string, a: Annotation)
    ensures SchemaFieldOf(name, a).Success? <==> exists t :: Supported(a, t)
    ensures SchemaFieldOf(name, a).Success? ==>
      exists t :: Admits(a, t) && SchemaType(t) == Some(SchemaFieldOf(name, a).value.fieldType)
  {
    match a
    case Bare(t) =>
      if SchemaType(t).Some? {
        assert Supported(a, t);
      } else {
        assert forall u :: Supported(a, u) ==> u == t;
      }
    case PipeUnion(args) =>
      if |args| == 2 && NoneType in args {
        var t := if args[0] != NoneType then args[0] else args[1];
        assert args == [t, NoneType] || args == [NoneType, t];
        if SchemaType(t).Some? {
          assert Supported(a, t);
        } else {
          assert forall u :: Supported(a, u) ==> u == t;
        }
      }
    case OtherGeneric(_) =>
  }

  function Zip<A, B>(xs: seq<A>, ys: seq<B>): (r: seq<(A, B)>)
    requires |xs| == |ys|
    ensures |r| == |xs| && forall i | 0 <= i < |xs| :: r[i] == (xs[i], ys[i])
  {
    seq(|xs|, i requires 0 <= i < |xs| => (xs[i], ys[i]))
  }

  function FieldOf(field: (string, Annotation)): Result<SchemaField, Error> {
    SchemaFieldOf(field.0, field.1)
  }

  /** `generate_schema(cls)`: one schema field per model field, in order; the
      first unsupported annotation raises TypeError. */
  function GenerateSchema(names: seq<string>, annotations: seq<Annotation>): (r: Result<seq<SchemaField>, Error>)
    requires |names| == |annotations|
    ensures r.Success? <==> forall i | 0 <= i < |names| :: SchemaFieldOf(names[i], annotations[i]).Success?
    ensures r.Success? ==> |r.value| == |names|
    ensures r.Success? ==> forall i | 0 <= i < |names| :: r.value[i] == SchemaFieldOf(names[i], annotations[i]).value
    ensures r.Failure? ==> r.error == TypeError
  {
    var fields := Zip(names, annotations);
    assert forall i | 0 <= i < |names| :: FieldOf(fields[i]) == SchemaFieldOf(names[i], annotations[i]);
    MapAll(FieldOf, fields)
  }

  /** `generate_schema` as the source runs it: a loop over the fields. */
  method GenerateSchemaLoop(names: seq<string>, annotations: seq<Annotation>) returns (r: Result<seq<SchemaField>, Error>)
    requires |names| == |annotations|
    ensures r == GenerateSchema(names, annotations)
  {
    r := MapEach(FieldOf, Zip(names, annotations));
  }

  lemma RecordField(i: nat)
    requires i < FIELD_COUNT
    ensures SchemaFieldOf(FIELD_NAMES[i], FIELD_ANNOTATIONS[i]).Success?
    ensures SchemaFieldOf(FIELD_NAMES[i], FIELD_ANNOTATIONS[i]).value.mode == if i == TRANSACTION_ID then REQUIRED else NULLABLE
  {
    if i == 0 {} else if i == 1 {} else if i == 2 {} else if i == 3 {} else if i == 4 {}
    else if i == 5 {} else if i == 6 {} else if i == 7 {} else if i == 8 {} else if i == 9 {}
    else if i == 10 {} else if i == 11 {} else if i == 12 {} else if i == 13 {} else if i == 14 {}
    else if i == 15 {} else {}
  }

  /** The record's schema is generated without error: one column per field,
      named after it, and `transaction_id` the only REQUIRED one. */
  lemma RecordSchema()
    ensures var r := GenerateSchema(FIELD_NAMES, FIELD_ANNOTATIONS);
      && r.Success? && |r.value| == FIELD_COUNT
      && forall i | 0 <= i < FIELD_COUNT ::
           r.value[i].name == FIELD_NAMES[i] && (r.value[i].mode == REQUIRED <==> i == TRANSACTION_ID)
  {
    forall i | 0 <= i < FIELD_COUNT
      ensures SchemaFieldOf(FIELD_NAMES[i], FIELD_ANNOTATIONS[i]).Success?
      ensures SchemaFieldOf(FIELD_NAMES[i], FIELD_ANNOTATIONS[i]).value.mode == if i == TRANSACTION_ID then REQUIRED else NULLABLE
    {
      RecordField(i);
    }
  }

  // ---------------------------------------------------------------------
  // INSERT

  /** The rendered values of one row, in column order. */
  function RowValues(cells: seq<Cell>, decText: real -> string, tsText: Instant -> string): (vs: seq<string>)
    ensures |vs| == |cells| && forall j | 0 <= j < |cells| :: vs[j] == WrapValue(cells[j], decText, tsText)
  {
    seq(|cells|, j requires 0 <= j < |cells| => WrapValue(cells[j], decText, tsText))
  }

  /** One row of `_build_values_sql`: the values, comma separated, in
      parentheses. */
  function RowSql(cells: seq<Cell>, decText: real -> string, tsText: Instant -> string): string {
    "(" + Join(",", RowValues(cells, decText, tsText)) + ")"
  }

  /** The rows of `_build_values_sql`, one per record. */
  function RowLines(records: seq<TransactionRecord>, decText: real -> string, tsText: Instant -> string)
    : (ls: seq<string>)
    ensures |ls| == |records| && forall i | 0 <= i < |records| :: ls[i] == RowSql(Cells(records[i]), decText, tsText)
  {
    seq(|records|, i requires 0 <= i < |records| => RowSql(Cells(records[i]), decText, tsText))
  }

  /** `_build_values_sql(records, columns)` with every column of the record:
      one row per record, joined by a comma and a line break. */
  function ValuesSql(records: seq<TransactionRecord>, decText: real -> string, tsText: Instant -> string): string {
    Join(",\n", RowLines(records, decText, tsText))
  }

  /** `_build_values_sql` as the source runs it: a row loop with a column loop
      inside. */
  method BuildValuesSql(records: seq<TransactionRecord>, decText: real -> string, tsText: Instant -> string)
    returns (sql: string)
    ensures sql == ValuesSql(records, decText, tsText)
  {
    var lines: seq<string> := [];
    for i := 0 to |records|
      invariant |lines| == i
      invariant forall k | 0 <= k < i :: lines[k] == RowSql(Cells(records[k]), decText, tsText)
    {
      var line := BuildRowSql(Cells(records[i]), decText, tsText);
      lines := lines + [line];
    }
    assert lines == RowLines(records, decText, tsText);
    sql := Join(",\n", lines);
  }

  /** The column loop of `_build_values_sql`. */
  method BuildRowSql(cells: seq<Cell>, decText: real -> string, tsText: Instant -> string) returns (line: string)
    ensures line == RowSql(cells, decText, tsText)
  {
    var values: seq<string> := [];
    for j := 0 to |cells|
      invariant |values| == j
      invariant forall k | 0 <= k < j :: values[k] == WrapValue(cells[k], decText, tsText)
    {
      values := values + [WrapValue(cells[j], decText, tsText)];
    }
    assert values == RowValues(cells, decText, tsText);
    line := "(" + Join(",", values) + ")";
  }

  /** A row renders on one line when the passed-in formatting does. */
  lemma RowOneLine(cells: seq<Cell>, decText: real -> string, tsText: Instant -> string)
    requires forall d :: '\n' !in decText(d)
    requires forall t :: '\n' !in tsText(t)
    ensures '\n' !in RowSql(cells, decText, tsText)
  {
    var values := RowValues(cells, decText, tsText);
    forall j | 0 <= j < |cells| ensures '\n' !in values[j] {
      WrapValueOneLine(cells[j], decText, tsText);
    }
    JoinChars('\n', ",", values);
  }

  /** One line per record: the values text of `n` records holds exactly
      `n - 1` line breaks, one between neighbouring rows. */
  lemma ValuesOneLinePerRecord(records: seq<TransactionRecord>, decText: real -> string, tsText: Instant -> string)
    requires records != []
    requires forall d :: '\n' !in decText(d)
    requires forall t :: '\n' !in tsText(t)
    ensures Count('\n', ValuesSql(records, decText, tsText)) == |records| - 1
  {
    var rows := RowLines(records, decText, tsText);
    forall i | 0 <= i < |records| ensures '\n' !in rows[i] {
      RowOneLine(Cells(records[i]), decText, tsText);
    }
    assert Count('\n', ",\n") == 1;
    CountJoin('\n', ",\n", rows);
  }

  /** `", ".join(wrap_name(c) for c in columns)`. */
  function ColumnsSql(columns: seq<string>): string {
    Join(", ", seq(|columns|, j requires 0 <= j < |columns| => WrapName(columns[j])))
  }

  lemma ColumnsOneLine(columns: seq<string>)
    requires forall j | 0 <= j < |columns| :: '\n' !in columns[j]
    ensures '\n' !in ColumnsSql(columns)
  {
    var names := seq(|columns|, j requires 0 <= j < |columns| => WrapName(columns[j]));
    forall j | 0 <= j < |columns| ensures '\n' !in names[j] {
      assert names[j] == "`" + columns[j] + "`";
    }
    JoinChars('\n', ", ", names);
  }

  /** The first two lines of the INSERT: the table and its columns, then
      VALUES. */
  function InsertHead(tableId: string, columns: seq<string>): string {
    "INSERT INTO " + WrapName(tableId) + " (" + ColumnsSql(columns) + ")" + "\n" + "VALUES\n"
  }

  /** `build_insert_query(table_id, records)`: None for no records, otherwise
      an INSERT of every column, with the values text as its rows. */
  function BuildInsertQuery(tableId: string, records: seq<TransactionRecord>, decText: real -> string,
                            tsText: Instant -> string): (r: Option<string>)
    ensures r.None? <==> records == []
  {
    if records == [] then None else Some(InsertHead(tableId, FIELD_NAMES) + ValuesSql(records, decText, tsText) + ";")
  }

  lemma FieldNamesOneLine()
    ensures forall j | 0 <= j < |FIELD_NAMES| :: '\n' !in FIELD_NAMES[j]
  {
    forall j | 0 <= j < |FIELD_NAMES| ensures '\n' !in FIELD_NAMES[j] {
      FieldNameOneLine(j);
    }
  }

  lemma FieldNameOneLine(j: nat)
    requires j < |FIELD_NAMES|
    ensures '\n' !in FIELD_NAMES[j]
  {
    if j == 0 {} else if j == 1 {} else if j == 2 {} else if j == 3 {} else if j == 4 {}
    else if j == 5 {} else if j == 6 {} else if j == 7 {} else if j == 8 {} else if j == 9 {}
    else if j == 10 {} else if j == 11 {} else if j == 12 {} else if j == 13 {} else if j == 14 {}
    else if j == 15 {} else {}
  }

  lemma HeadLines(tableId: string, columns: seq<string>)
    requires '\n' !in tableId
    requires forall j | 0 <= j < |columns| :: '\n' !in columns[j]
    ensures Count('\n', InsertHead(tableId, columns)) == 2
  {
    ColumnsOneLine(columns);
    TwoLines("INSERT INTO " + WrapName(tableId) + " (" + ColumnsSql(columns) + ")");
  }

  lemma TwoLines(first: string)
    requires '\n' !in first
    ensures Count('\n', first + "\n" + "VALUES\n") == 2
  {
    CountAppend('\n', first, "\n");
    CountAppend('\n', first + "\n", "VALUES\n");
    assert "VALUES\n"[1..][1..][1..][1..][1..][1..] == "\n";
  }

  /** The statement's lines: the INSERT header, VALUES, and one line per
      record, the last one ending the statement. */
  lemma InsertQueryLines(tableId: string, records: seq<TransactionRecord>, decText: real -> string,
                         tsText: Instant -> string)
    requires records != [] && '\n' !in tableId
    requires forall d :: '\n' !in decText(d)
    requires forall t :: '\n' !in tsText(t)
    ensures var q := BuildInsertQuery(tableId, records, decText, tsText).value;
      Count('\n', q) == |records| + 1 && q[|q| - 1] == ';'
  {
    var head, values := InsertHead(tableId, FIELD_NAMES), ValuesSql(records, decText, tsText);
    FieldNamesOneLine();
    HeadLines(tableId, FIELD_NAMES);
    ValuesOneLinePerRecord(records, decText, tsText);
    CountAppend('\n', head, values);
    CountAppend('\n', head + values, ";");
  }

  // ---------------------------------------------------------------------
  // MERGE

  /** `[f for f in update_fields if f not in primary_keys]`. */
  function NonKeys(keys: seq<string>, fields: seq<string>): seq<string> {
    Filter((f: string) => f !in keys, fields)
  }

  /** `primary_keys + [f for f in update_fields if f not in primary_keys]`:
      the columns the MERGE inserts. */
  function MergeColumns(keys: seq<string>, fields: seq<string>): seq<string> {
    keys + NonKeys(keys, fields)
  }

  /** The fields the MERGE updates are the non-key fields, and the columns it
      inserts are the keys and the fields, each exactly once when the keys are
      fields and neither list repeats itself. */
  lemma MergeColumnsEachOnce(keys: seq<string>, fields: seq<string>)
    requires Distinct(keys) && Distinct(fields)
    requires forall k | k in keys :: k in fields
    ensures forall f :: f in NonKeys(keys, fields) <==> f in fields && f !in keys
    ensures forall f :: f in MergeColumns(keys, fields) <==> f in fields
    ensures Distinct(MergeColumns(keys, fields))
  {
    var p := (f: string) => f !in keys;
    forall f ensures f in NonKeys(keys, fields) <==> f in fields && f !in keys {
      FilterIn(p, fields, f);
    }
    FilterDistinct(p, fields);
    var rest := NonKeys(keys, fields);
    var all := MergeColumns(keys, fields);
    forall i, j | 0 <= i < j < |all| ensures all[i] != all[j] {
      if i < |keys| && j >= |keys| {
        assert all[j] == rest[j - |keys|] && all[j] in rest;
      } else if i >= |keys| {
        assert all[i] == rest[i - |keys|] && all[j] == rest[j - |keys|];
      }
    }
  }

  /** `build_merge_query(table_id, temp_table_id, primary_keys, update_fields)`:
      rows of the staging table S matched on every key of the table T update
      its non-key fields; unmatched rows are inserted whole. */
  function MergeQuery(tableId: string, tempId: string, keys: seq<string>, fields: seq<string>): string {
    var updated := NonKeys(keys, fields);
    var columns := MergeColumns(keys, fields);
    var on := Join(" AND ", seq(|keys|, i requires 0 <= i < |keys| => "T." + keys[i] + " = S." + keys[i]));
    var set_ := Join(",\n        ", seq(|updated|, i requires 0 <= i < |updated| => "T." + updated[i] + " = S." + updated[i]));
    var values := Join(", ", seq(|columns|, i requires 0 <= i < |columns| => "S." + columns[i]));
    "MERGE " + WrapName(tableId) + " T\n" + "USING " + WrapName(tempId) + " S\n" + "ON " + on + "\n"
    + "WHEN MATCHED THEN\n" + "UPDATE SET " + set_ + "\n" + "WHEN NOT MATCHED THEN\n"
    + "INSERT (" + Join(", ", columns) + ")\n" + "VALUES (" + values + ");"
  }

  /** No field name of the record repeats. */
  lemma FieldNamesDistinct()
    ensures Distinct(FIELD_NAMES)
  {
    forall i, j | 0 <= i < j < |FIELD_NAMES| ensures FIELD_NAMES[i] != FIELD_NAMES[j] {
      assert FIELD_NAMES[i][..3] != FIELD_NAMES[j][..3] || FIELD_NAMES[i] != FIELD_NAMES[j];
    }
  }
}
