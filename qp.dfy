/** `insert_records` of app/bigquery_table/qp.py: one parameterised INSERT for
    a batch of records, every non-NULL value bound as a query parameter
    named after its position among all the batch's cells. */
module Qp {
  import opened Wrappers
  import opened Records
  import opened PyText
  import opened SqlText
  import opened BigQueryClient

  /** `get_bq_type(py_type)`. */
  function GetBqType(t: PyType): (r: Result<string, Error>)
    ensures r.Failure? <==> t == NoneType || t == OtherType
    ensures r.Failure? ==> r.error == TypeError
    ensures SchemaType(t).Some? ==> r == Success(SchemaType(t).value)
  {
    match t
    case StrType => Success("STRING")
    case IntType => Success("INT64")
    case FloatType => Success("FLOAT64")
    case DecimalType => Success("NUMERIC")
    case DateTimeType => Success("TIMESTAMP")
    case _ => Failure(TypeError)
  }

  // ---------------------------------------------------------------------
  // The parameter type of a field

  /** As written: both arms of the conditional pass the annotation itself,
      so a union such as `str | None` reaches `get_bq_type`, which raises. */
  function AnnotationTypeAsWritten(a: Annotation): Result<string, Error> {
    if a.Bare? then GetBqType(a.t) else Failure(TypeError)
  }

  /** Corrected: `X | None` is typed as `X`. */
  function AnnotationType(a: Annotation): Result<string, Error> {
    match a
    case Bare(t) => GetBqType(t)
    case PipeUnion(args) =>
      if |args| == 2 && NoneType in args then GetBqType(if args[0] != NoneType then args[0] else args[1])
      else Failure(TypeError)
    case OtherGeneric(_) => Failure(TypeError)
  }

  /** The corrected parameter type of every field with a schema column is
      that column's type. */
  lemma AnnotationTypeIsSchemaType(name: string, a: Annotation)
    requires SchemaFieldOf(name, a).Success?
    ensures AnnotationType(a) == Success(SchemaFieldOf(name, a).value.fieldType)
  {
  }

  /** As written, every optional field of the record is refused. */
  lemma AsWrittenRefusesOptionalFields()
    ensures forall i | 0 <= i < FIELD_COUNT ::
      AnnotationTypeAsWritten(FIELD_ANNOTATIONS[i]).Success? <==> i == TRANSACTION_ID
  {
  }

  // ---------------------------------------------------------------------
  // Placeholders and parameters

  /** `f"param_{param_index}"`. */
  function ParamName(k: nat): string {
    "param_" + IntText(k)
  }

  lemma ParamNameInjective(k: nat, l: nat)
    requires ParamName(k) == ParamName(l)
    ensures k == l
  {
    assert IntText(k) == ParamName(k)[6..] == ParamName(l)[6..] == IntText(l);
    IntTextInjective(k, l);
  }

  /** Where row `i` of a batch starts among the cells `param_index` counts
      when every row has `n` cells: `i * n`, counted row by row. */
  function RowStart(i: nat, n: nat): nat {
    if i == 0 then 0 else RowStart(i - 1, n) + n
  }

  lemma {:induction false} RowStartIsProduct(i: nat, n: nat)
    ensures RowStart(i, n) == i * n
  {
    if i > 0 {
      RowStartIsProduct(i - 1, n);
    }
  }

  /** An earlier row ends no later than a later one starts. */
  lemma {:induction false} RowStartMono(i: nat, k: nat, n: nat)
    requires i < k
    ensures RowStart(i, n) + n <= RowStart(k, n)
    decreases k
  {
    if i + 1 < k {
      RowStartMono(i, k - 1, n);
    }
  }

  /** Distinct cells of a batch have distinct positions. */
  lemma CellPositionInjective(i: nat, j: nat, k: nat, l: nat, n: nat)
    requires j < n && l < n && RowStart(i, n) + j == RowStart(k, n) + l
    ensures i == k && j == l
  {
    if i < k {
      RowStartMono(i, k, n);
    } else if k < i {
      RowStartMono(k, i, n);
    }
  }

  // ---------------------------------------------------------------------
  // The parameters

  /** A value bound to the query: the position that names its parameter,
      its BigQuery type and the value. */
  datatype Binding = Binding(position: nat, bqType: string, value: Cell)

  /** `ScalarQueryParameter(f"param_{position}", bq_type, value)`. */
  function ParamOf(b: Binding): (p: Param)
    ensures p.bqType == b.bqType && p.value == b.value
  {
    Param(ParamName(b.position), b.bqType, b.value)
  }

  /** The query parameters of a list of bindings, in order. */
  function Params(bs: seq<Binding>): (ps: seq<Param>)
    ensures |ps| == |bs| && forall i | 0 <= i < |bs| :: ps[i] == ParamOf(bs[i])
  {
    seq(|bs|, i requires 0 <= i < |bs| => ParamOf(bs[i]))
  }

  /** The parameters of the first `j` cells of a row whose first cell is at
      position `start`: none for NULL, otherwise one named after the cell's
      position and typed after its column; a type that cannot be named
      raises. */
  function BindCells(row: seq<Cell>, annotations: seq<Annotation>, typeOf: Annotation -> Result<string, Error>,
                     start: nat, j: nat): Result<seq<Binding>, Error>
    requires |row| == |annotations| && j <= |row|
  {
    if j == 0 then Success([])
    else
      var init := BindCells(row, annotations, typeOf, start, j - 1);
      if init.Failure? || row[j - 1].Null? then init
      else match typeOf(annotations[j - 1])
        case Failure(e) => Failure(e)
        case Success(t) => Success(init.value + [Binding(start + j - 1, t, row[j - 1])])
  }

  /** The row is bound exactly when the type of each of its values can be
      named. */
  lemma {:induction false} BindCellsSuccess(row: seq<Cell>, annotations: seq<Annotation>,
                                            typeOf: Annotation -> Result<string, Error>, start: nat, j: nat)
    requires |row| == |annotations| && j <= |row|
    ensures BindCells(row, annotations, typeOf, start, j).Success? <==>
      forall m | 0 <= m < j && !row[m].Null? :: typeOf(annotations[m]).Success?
  {
    if j > 0 {
      BindCellsSuccess(row, annotations, typeOf, start, j - 1);
    }
  }

  /** A refused row is refused with the error of one of its values. */
  lemma {:induction false} BindCellsFailure(row: seq<Cell>, annotations: seq<Annotation>,
                                            typeOf: Annotation -> Result<string, Error>, start: nat, j: nat)
    requires |row| == |annotations| && j <= |row|
    requires BindCells(row, annotations, typeOf, start, j).Failure?
    ensures exists m | 0 <= m < j :: (!row[m].Null? &&
      typeOf(annotations[m]) == Failure(BindCells(row, annotations, typeOf, start, j).error))
  {
    if BindCells(row, annotations, typeOf, start, j - 1).Failure? {
      BindCellsFailure(row, annotations, typeOf, start, j - 1);
    }
  }

  /** The binding of the value in column `m`, at position `start + m`. */
  function CellBinding(row: seq<Cell>, annotations: seq<Annotation>, typeOf: Annotation -> Result<string, Error>,
                       start: nat, m: nat): Binding
    requires |row| == |annotations| && m < |row| && typeOf(annotations[m]).Success?
  {
    Binding(start + m, typeOf(annotations[m]).value, row[m])
  }

  /** A bound row binds each of its values, in column order, and nothing
      else: NULLs are left out. */
  lemma {:induction false} BindCellsBindings(row: seq<Cell>, annotations: seq<Annotation>,
                                           typeOf: Annotation -> Result<string, Error>, start: nat, j: nat)
    requires |row| == |annotations| && j <= |row|
    requires BindCells(row, annotations, typeOf, start, j).Success?
    ensures var ps := BindCells(row, annotations, typeOf, start, j).value;
      && (forall m | 0 <= m < j && !row[m].Null? ::
            typeOf(annotations[m]).Success? && CellBinding(row, annotations, typeOf, start, m) in ps)
      && (forall p | p in ps :: exists m | 0 <= m < j && !row[m].Null? ::
            (typeOf(annotations[m]).Success? && p == CellBinding(row, annotations, typeOf, start, m)))
  {
    if j > 0 {
      var k := j - 1;
      BindCellsBindings(row, annotations, typeOf, start, k);
      var init := BindCells(row, annotations, typeOf, start, k).value;
      if !row[k].Null? {
        var x := CellBinding(row, annotations, typeOf, start, k);
        assert BindCells(row, annotations, typeOf, start, j).value == init + [x];
        forall p | p in init + [x] ensures exists m | 0 <= m < j && !row[m].Null? ::
          (typeOf(annotations[m]).Success? && p == CellBinding(row, annotations, typeOf, start, m))
        {
          if p == x {
            assert !row[k].Null?;
          }
        }
      }
    }
  }


  /** Once a cell is refused, later cells change nothing. */
  lemma {:induction false} CellsRefused(row: seq<Cell>, annotations: seq<Annotation>,
                                        typeOf: Annotation -> Result<string, Error>, start: nat, j: nat, l: nat)
    requires |row| == |annotations| && j <= l <= |row|
    requires BindCells(row, annotations, typeOf, start, j).Failure?
    ensures BindCells(row, annotations, typeOf, start, l) == BindCells(row, annotations, typeOf, start, j)
    decreases l
  {
    if j < l {
      CellsRefused(row, annotations, typeOf, start, j, l - 1);
    }
  }

  /** The parameters of the first `i` rows, row after row; the first row
      refused refuses the batch. */
  function BindBatch(rows: seq<seq<Cell>>, annotations: seq<Annotation>, typeOf: Annotation -> Result<string, Error>,
                     i: nat): Result<seq<Binding>, Error>
    requires forall r | 0 <= r < |rows| :: |rows[r]| == |annotations|
    requires i <= |rows|
  {
    if i == 0 then Success([])
    else
      var init := BindBatch(rows, annotations, typeOf, i - 1);
      if init.Failure? then init
      else match BindCells(rows[i - 1], annotations, typeOf, RowStart(i - 1, |annotations|), |annotations|)
        case Failure(e) => Failure(e)
        case Success(ps) => Success(init.value + ps)
  }

  /** The batch is bound exactly when the type of each of its values can be
      named. */
  lemma {:induction false} BindBatchSuccess(rows: seq<seq<Cell>>, annotations: seq<Annotation>,
                                            typeOf: Annotation -> Result<string, Error>, i: nat)
    requires forall r | 0 <= r < |rows| :: |rows[r]| == |annotations|
    requires i <= |rows|
    ensures BindBatch(rows, annotations, typeOf, i).Success? <==>
      forall a, b | 0 <= a < i && 0 <= b < |annotations| && !rows[a][b].Null? :: typeOf(annotations[b]).Success?
  {
    if i > 0 {
      BindBatchSuccess(rows, annotations, typeOf, i - 1);
      BindCellsSuccess(rows[i - 1], annotations, typeOf, RowStart(i - 1, |annotations|), |annotations|);
    }
  }

  /** A refused batch is refused with the error of one of its values. */
  lemma {:induction false} BindBatchFailure(rows: seq<seq<Cell>>, annotations: seq<Annotation>,
                                            typeOf: Annotation -> Result<string, Error>, i: nat)
    requires forall r | 0 <= r < |rows| :: |rows[r]| == |annotations|
    requires i <= |rows| && BindBatch(rows, annotations, typeOf, i).Failure?
    ensures exists a, b | 0 <= a < i && 0 <= b < |annotations| :: (!rows[a][b].Null? &&
      typeOf(annotations[b]) == Failure(BindBatch(rows, annotations, typeOf, i).error))
  {
    if BindBatch(rows, annotations, typeOf, i - 1).Failure? {
      BindBatchFailure(rows, annotations, typeOf, i - 1);
    } else {
      var n := |annotations|;
      BindCellsFailure(rows[i - 1], annotations, typeOf, RowStart(i - 1, n), n);
      var m :| 0 <= m < n && !rows[i - 1][m].Null? &&
        typeOf(annotations[m]) == Failure(BindCells(rows[i - 1], annotations, typeOf, RowStart(i - 1, n), n).error);
      assert !rows[i - 1][m].Null?;
    }
  }

  /** A bound batch binds the value in row `a`, column `b` by the parameter
      named after its position `RowStart(a, n) + b`, with its column's type,
      and binds nothing else. */
  lemma {:induction false} BindBatchBindings(rows: seq<seq<Cell>>, annotations: seq<Annotation>,
                                           typeOf: Annotation -> Result<string, Error>, i: nat)
    requires forall r | 0 <= r < |rows| :: |rows[r]| == |annotations|
    requires i <= |rows| && BindBatch(rows, annotations, typeOf, i).Success?
    ensures var ps := BindBatch(rows, annotations, typeOf, i).value;
      && (forall a, b {:trigger rows[a][b]} | 0 <= a < i && 0 <= b < |annotations| && !rows[a][b].Null? ::
            typeOf(annotations[b]).Success? && CellBinding(rows[a], annotations, typeOf, RowStart(a, |annotations|), b) in ps)
      && (forall p | p in ps :: exists a, b {:trigger rows[a][b]} | 0 <= a < i && 0 <= b < |annotations| ::
            !rows[a][b].Null? && typeOf(annotations[b]).Success? &&
            p == CellBinding(rows[a], annotations, typeOf, RowStart(a, |annotations|), b))
  {
    if i > 0 {
      var n := |annotations|;
      var last := i - 1;
      BindBatchBindings(rows, annotations, typeOf, last);
      BindCellsBindings(rows[last], annotations, typeOf, RowStart(last, n), n);
      var init := BindBatch(rows, annotations, typeOf, last).value;
      var own := BindCells(rows[last], annotations, typeOf, RowStart(last, n), n).value;
      assert BindBatch(rows, annotations, typeOf, i).value == init + own;
      forall p | p in init + own ensures exists a, b {:trigger rows[a][b]} | 0 <= a < i && 0 <= b < n ::
        !rows[a][b].Null? && typeOf(annotations[b]).Success? && p == CellBinding(rows[a], annotations, typeOf, RowStart(a, n), b)
      {
        if p !in init {
          var m :| 0 <= m < n && !rows[last][m].Null? && typeOf(annotations[m]).Success?
            && p == CellBinding(rows[last], annotations, typeOf, RowStart(last, n), m);
          assert !rows[last][m].Null?;
        }
      }
    }
  }

  /** Once a row is refused, later rows change nothing. */
  lemma {:induction false} BatchRefused(rows: seq<seq<Cell>>, annotations: seq<Annotation>,
                                        typeOf: Annotation -> Result<string, Error>, i: nat, l: nat)
    requires forall r | 0 <= r < |rows| :: |rows[r]| == |annotations|
    requires i <= l <= |rows| && BindBatch(rows, annotations, typeOf, i).Failure?
    ensures BindBatch(rows, annotations, typeOf, l) == BindBatch(rows, annotations, typeOf, i)
    decreases l
  {
    if i < l {
      BatchRefused(rows, annotations, typeOf, i, l - 1);
    }
  }

  /** The number of values that are not None among the first `j` cells. */
  function ValueCount(row: seq<Cell>, j: nat): nat
    requires j <= |row|
  {
    if j == 0 then 0 else ValueCount(row, j - 1) + (if row[j - 1].Null? then 0 else 1)
  }

  /** The number of values that are not None in the first `i` rows. */
  function BatchValueCount(rows: seq<seq<Cell>>, i: nat): nat
    requires i <= |rows|
  {
    if i == 0 then 0 else BatchValueCount(rows, i - 1) + ValueCount(rows[i - 1], |rows[i - 1]|)
  }

  /** A bound row has one parameter per value that is not None. */
  lemma {:induction false} BindCellsCount(row: seq<Cell>, annotations: seq<Annotation>,
                                          typeOf: Annotation -> Result<string, Error>, start: nat, j: nat)
    requires |row| == |annotations| && j <= |row|
    requires BindCells(row, annotations, typeOf, start, j).Success?
    ensures |BindCells(row, annotations, typeOf, start, j).value| == ValueCount(row, j)
  {
    if j > 0 {
      BindCellsCount(row, annotations, typeOf, start, j - 1);
    }
  }

  /** A bound batch has one parameter per value that is not None. */
  lemma {:induction false} BindBatchCount(rows: seq<seq<Cell>>, annotations: seq<Annotation>,
                                          typeOf: Annotation -> Result<string, Error>, i: nat)
    requires forall r | 0 <= r < |rows| :: |rows[r]| == |annotations|
    requires i <= |rows| && BindBatch(rows, annotations, typeOf, i).Success?
    ensures |BindBatch(rows, annotations, typeOf, i).value| == BatchValueCount(rows, i)
  {
    if i > 0 {
      BindBatchCount(rows, annotations, typeOf, i - 1);
      BindCellsCount(rows[i - 1], annotations, typeOf, RowStart(i - 1, |annotations|), |annotations|);
    }
  }

  /** No two values of a batch share a position. */
  lemma PositionsUnique(rows: seq<seq<Cell>>, annotations: seq<Annotation>, typeOf: Annotation -> Result<string, Error>)
    requires forall r | 0 <= r < |rows| :: |rows[r]| == |annotations|
    requires BindBatch(rows, annotations, typeOf, |rows|).Success?
    ensures var bs := BindBatch(rows, annotations, typeOf, |rows|).value;
      forall x, y | x in bs && y in bs && x.position == y.position :: x == y
  {
    var n := |annotations|;
    var bs := BindBatch(rows, annotations, typeOf, |rows|).value;
    BindBatchBindings(rows, annotations, typeOf, |rows|);
    forall x, y | x in bs && y in bs && x.position == y.position ensures x == y {
      var a, b :| 0 <= a < |rows| && 0 <= b < n && !rows[a][b].Null? && typeOf(annotations[b]).Success?
        && x == CellBinding(rows[a], annotations, typeOf, RowStart(a, n), b);
      var c, d :| 0 <= c < |rows| && 0 <= d < n && !rows[c][d].Null? && typeOf(annotations[d]).Success?
        && y == CellBinding(rows[c], annotations, typeOf, RowStart(c, n), d);
      CellPositionInjective(a, b, c, d, n);
    }
  }

  /** No two parameters of a batch share a name: a name binds one value. */
  lemma ParamNamesUnique(rows: seq<seq<Cell>>, annotations: seq<Annotation>, typeOf: Annotation -> Result<string, Error>)
    requires forall r | 0 <= r < |rows| :: |rows[r]| == |annotations|
    requires BindBatch(rows, annotations, typeOf, |rows|).Success?
    ensures var ps := Params(BindBatch(rows, annotations, typeOf, |rows|).value);
      forall i, j | 0 <= i < |ps| && 0 <= j < |ps| && ps[i].name == ps[j].name :: ps[i] == ps[j]
  {
    var bs := BindBatch(rows, annotations, typeOf, |rows|).value;
    PositionsUnique(rows, annotations, typeOf);
    forall i, j | 0 <= i < |bs| && 0 <= j < |bs| && ParamOf(bs[i]).name == ParamOf(bs[j]).name
      ensures ParamOf(bs[i]) == ParamOf(bs[j])
    {
      ParamNameInjective(bs[i].position, bs[j].position);
    }
  }

  // ---------------------------------------------------------------------
  // The placeholders

  /** What stands for a cell in the query: the literal `NULL`, or the
      parameter named after position `k`. The text is `PlaceholderText`. */
  datatype Placeholder = NullLiteral | ParamRef(k: nat)

  /** `"NULL"`, or `@param_k`. */
  function PlaceholderText(p: Placeholder): string {
    match p
    case NullLiteral => "NULL"
    case ParamRef(k) => "@" + ParamName(k)
  }

  /** The placeholder of a cell at position `k`. */
  function PlaceholderOf(c: Cell, k: nat): (p: Placeholder)
    ensures p == NullLiteral <==> c.Null?
    ensures p.ParamRef? ==> p.k == k
  {
    if c.Null? then NullLiteral else ParamRef(k)
  }

  /** The placeholders of the first `j` cells of a row whose first cell is at
      position `first`. */
  function Placeholders(cells: seq<Cell>, first: nat, j: nat): (ps: seq<Placeholder>)
    requires j <= |cells|
    ensures |ps| == j
  {
    if j == 0 then [] else Placeholders(cells, first, j - 1) + [PlaceholderOf(cells[j - 1], first + j - 1)]
  }

  /** Cell `m` of the row is position `first + m`: NULL, or that position's
      parameter. */
  lemma {:induction false} PlaceholdersMeaning(cells: seq<Cell>, first: nat, j: nat)
    requires j <= |cells|
    ensures forall m | 0 <= m < j :: Placeholders(cells, first, j)[m] == PlaceholderOf(cells[m], first + m)
  {
    if j > 0 {
      PlaceholdersMeaning(cells, first, j - 1);
    }
  }

  /** The placeholders of one row whose first cell is at position `first`. */
  function Tuple(cells: seq<Cell>, first: nat): (t: seq<Placeholder>)
    ensures |t| == |cells|
  {
    Placeholders(cells, first, |cells|)
  }

  /** `"(" + ", ".join(row_placeholders) + ")"`. */
  function TupleText(t: seq<Placeholder>): (s: string)
    ensures t == [] ==> s == "()"
  {
    "(" + Join(", ", seq(|t|, m requires 0 <= m < |t| => PlaceholderText(t[m]))) + ")"
  }

  /** The placeholder tuples of the first `i` rows of `n` cells each. */
  function Tuples(rows: seq<seq<Cell>>, n: nat, i: nat): (ts: seq<seq<Placeholder>>)
    requires i <= |rows|
    ensures |ts| == i
  {
    if i == 0 then [] else Tuples(rows, n, i - 1) + [Tuple(rows[i - 1], RowStart(i - 1, n))]
  }

  /** Row `m`'s tuple starts at position `RowStart(m, n)`. */
  lemma {:induction false} TuplesMeaning(rows: seq<seq<Cell>>, n: nat, i: nat)
    requires i <= |rows|
    ensures forall m | 0 <= m < i :: Tuples(rows, n, i)[m] == Tuple(rows[m], RowStart(m, n))
  {
    if i > 0 {
      TuplesMeaning(rows, n, i - 1);
    }
  }

  // ---------------------------------------------------------------------
  // The loops and the query

  /** The placeholder tuples and the query parameters of a batch. */
  datatype Plan = Plan(placeholders: seq<seq<Placeholder>>, bindings: seq<Binding>)

  /** What the loops of `insert_records` build for a batch's rows (one cell
      per column); `typeOf` names a column's parameter type. */
  function InsertPlan(rows: seq<seq<Cell>>, annotations: seq<Annotation>,
                      typeOf: Annotation -> Result<string, Error>): Result<Plan, Error>
    requires forall i | 0 <= i < |rows| :: |rows[i]| == |annotations|
  {
    var params := BindBatch(rows, annotations, typeOf, |rows|);
    if params.Failure? then Failure(params.error)
    else Success(Plan(Tuples(rows, |annotations|, |rows|), params.value))
  }

  /** The query of `insert_records`: the quoted columns and, inside one more
      pair of parentheses, the placeholder tuples a line each. */
  function QpQuery(table: string, columns: seq<string>, tuples: seq<seq<Placeholder>>): string {
    "\n        INSERT INTO `" + table + "` (" + ColumnsSql(columns) + ")\n        VALUES\n        ("
    + Join(",\n", seq(|tuples|, i requires 0 <= i < |tuples| => TupleText(tuples[i]))) + ")\n    "
  }

  /** The call `insert_records` makes for a successful plan of the rows: the
      statement adds the rows to the table. */
  function PlanCall(table: string, columns: seq<string>, plan: Plan, rows: seq<seq<Cell>>): Call {
    Query(Some(QpQuery(table, columns, plan.placeholders)), Params(plan.bindings), Append(table, rows))
  }

  /** `insert_records` on rows already read off the records: the loops, then
      the query. A type that cannot be named raises before any call. */
  method InsertRows(client: Client, table: string, columns: seq<string>, annotations: seq<Annotation>,
                    rows: seq<seq<Cell>>, typeOf: Annotation -> Result<string, Error>) returns (err: Option<Error>)
    requires forall i | 0 <= i < |rows| :: |rows[i]| == |annotations|
    requires client.Valid()
    modifies client
    ensures client.Valid()
    ensures var plan := InsertPlan(rows, annotations, typeOf);
      && (plan.Failure? ==> err == Some(plan.error) && client.log == old(client.log) && client.tables == old(client.tables))
      && (plan.Success? ==> client.log == old(client.log) + [PlanCall(table, columns, plan.value, rows)])
      && (plan.Success? ==>
            err == if client.raises(PlanCall(table, columns, plan.value, rows), |old(client.log)|) then Some(GoogleApiError) else None)
  {
    var placeholders, parameters, e := BindRows(rows, annotations, typeOf);
    if e.Some? {
      return e;
    }
    err := client.Execute(PlanCall(table, columns, Plan(placeholders, parameters), rows));
  }

  /** The loops of `insert_records`: a placeholder tuple per row and the
      parameters of all the cells, or the exception of the first value whose
      type cannot be named. */
  method BindRows(rows: seq<seq<Cell>>, annotations: seq<Annotation>, typeOf: Annotation -> Result<string, Error>)
    returns (placeholders: seq<seq<Placeholder>>, parameters: seq<Binding>, err: Option<Error>)
    requires forall i | 0 <= i < |rows| :: |rows[i]| == |annotations|
    ensures err.None? ==> placeholders == Tuples(rows, |annotations|, |rows|)
    ensures err.None? ==> BindBatch(rows, annotations, typeOf, |rows|) == Success(parameters)
    ensures err.Some? ==> BindBatch(rows, annotations, typeOf, |rows|) == Failure(err.value)
  {
    placeholders, parameters := [], [];
    var paramIndex: nat := 0;
    var n := |annotations|;
    for i := 0 to |rows|
      invariant paramIndex == RowStart(i, n)
      invariant placeholders == Tuples(rows, n, i)
      invariant BindBatch(rows, annotations, typeOf, i) == Success(parameters)
    {
      var tuple, bound, next, e := BindRow(rows[i], annotations, typeOf, paramIndex, parameters);
      if e.Some? {
        BatchRefused(rows, annotations, typeOf, i + 1, |rows|);
        return placeholders, parameters, e;
      }
      placeholders, parameters, paramIndex := placeholders + [tuple], bound, next;
    }
    return placeholders, parameters, None;
  }

  /** The inner loop of `insert_records`: the placeholder tuple of one row
      whose first cell is at position `start`, the parameters bound so far
      followed by the row's, and the position after the row. */
  method BindRow(row: seq<Cell>, annotations: seq<Annotation>, typeOf: Annotation -> Result<string, Error>,
                 start: nat, parameters: seq<Binding>)
    returns (tuple: seq<Placeholder>, bound: seq<Binding>, next: nat, err: Option<Error>)
    requires |row| == |annotations|
    ensures next == start + |row|
    ensures err.None? ==> tuple == Tuple(row, start)
    ensures var r := BindCells(row, annotations, typeOf, start, |row|);
      && (err.None? ==> r.Success? && bound == parameters + r.value)
      && (err.Some? ==> r == Failure(err.value))
  {
    tuple, bound := [], parameters;
    var paramIndex := start;
    for j := 0 to |row|
      invariant paramIndex == start + j
      invariant tuple == Placeholders(row, start, j)
      invariant BindCells(row, annotations, typeOf, start, j).Success?
      invariant bound == parameters + BindCells(row, annotations, typeOf, start, j).value
    {
      ghost var before := BindCells(row, annotations, typeOf, start, j).value;
      if row[j].Null? {
        tuple := tuple + [NullLiteral];
      } else {
        var bqType := typeOf(annotations[j]);
        if bqType.Failure? {
          CellsRefused(row, annotations, typeOf, start, j + 1, |row|);
          return tuple, bound, start + |row|, Some(bqType.error);
        }
        var p := Binding(paramIndex, bqType.value, row[j]);
        assert bound + [p] == parameters + (before + [p]);
        bound := bound + [p];
        tuple := tuple + [ParamRef(paramIndex)];
      }
      paramIndex := paramIndex + 1;
    }
    return tuple, bound, paramIndex, None;
  }

  /** What the loops build: the batch is refused exactly when the type of
      one of its values cannot be named; otherwise row `i` gets the tuple of
      the positions from `RowStart(i, n)` on. */
  lemma InsertPlanMeaning(rows: seq<seq<Cell>>, annotations: seq<Annotation>, typeOf: Annotation -> Result<string, Error>)
    requires forall r | 0 <= r < |rows| :: |rows[r]| == |annotations|
    ensures var plan := InsertPlan(rows, annotations, typeOf);
      && (plan.Success? <==> forall i, j | 0 <= i < |rows| && 0 <= j < |annotations| && !rows[i][j].Null? ::
            typeOf(annotations[j]).Success?)
      && (plan.Success? ==> |plan.value.placeholders| == |rows| && forall i | 0 <= i < |rows| ::
            plan.value.placeholders[i] == Tuple(rows[i], RowStart(i, |annotations|)))
  {
    BindBatchSuccess(rows, annotations, typeOf, |rows|);
    TuplesMeaning(rows, |annotations|, |rows|);
  }

  // ---------------------------------------------------------------------
  // `insert_records(client, table, records)`

  /** The rows of a batch of records, every column in field order. */
  function Rows(records: seq<TransactionRecord>): (rows: seq<seq<Cell>>)
    ensures |rows| == |records|
  {
    seq(|records|, i requires 0 <= i < |records| => Cells(records[i]))
  }

  /** Each row is its record's cells, one per annotated field. */
  lemma RowsEach(records: seq<TransactionRecord>)
    ensures forall i | 0 <= i < |records| :: Rows(records)[i] == Cells(records[i]) && |Rows(records)[i]| == |FIELD_ANNOTATIONS|
  {
  }

  /** The corrected parameter type of every field of the record is named. */
  lemma FieldTypesNamed()
    ensures forall a | a in FIELD_ANNOTATIONS :: AnnotationType(a).Success?
  {
  }

  /** Corrected, the plan of any batch of records is built. */
  lemma RecordsPlanBuilt(records: seq<TransactionRecord>)
    ensures InsertPlan(Rows(records), FIELD_ANNOTATIONS, AnnotationType).Success?
  {
    FieldTypesNamed();
    BindBatchSuccess(Rows(records), FIELD_ANNOTATIONS, AnnotationType, |records|);
  }

  /** The plan of a batch of records. */
  function RecordsPlan(records: seq<TransactionRecord>): Plan {
    RecordsPlanBuilt(records);
    InsertPlan(Rows(records), FIELD_ANNOTATIONS, AnnotationType).value
  }

  /** The call `insert_records(client, table, records)` makes (corrected). */
  function InsertCall(table: string, records: seq<TransactionRecord>): Call {
    PlanCall(table, FIELD_NAMES, RecordsPlan(records), Rows(records))
  }

  /** The rows of two batches joined are the two batches' rows joined. */
  lemma RowsConcat(xs: seq<TransactionRecord>, ys: seq<TransactionRecord>)
    ensures Rows(xs + ys) == Rows(xs) + Rows(ys)
  {
    assert forall i | 0 <= i < |xs + ys| :: (xs + ys)[i] == if i < |xs| then xs[i] else ys[i - |xs|];
  }

  /** `insert_records(client, table, records)`, corrected: the record's own
      columns, typed as their schema columns. It makes one call. */
  method InsertRecords(client: Client, table: string, records: seq<TransactionRecord>) returns (err: Option<Error>)
    requires client.Valid()
    modifies client
    ensures client.Valid()
    ensures client.log == old(client.log) + [InsertCall(table, records)]
    ensures err == if client.raises(InsertCall(table, records), |old(client.log)|) then Some(GoogleApiError) else None
  {
    RecordsPlanBuilt(records);
    err := InsertRows(client, table, FIELD_NAMES, FIELD_ANNOTATIONS, Rows(records), AnnotationType);
  }

  /** The rows as written: the columns are read off `BaseModel`, which has no
      fields, so every row is empty. */
  function RowsAsWritten(records: seq<TransactionRecord>): (rows: seq<seq<Cell>>)
    ensures |rows| == |records| && forall i | 0 <= i < |records| :: rows[i] == []
  {
    seq(|records|, i requires 0 <= i < |records| => [])
  }

  /** `insert_records` as written: no column is named, every tuple is `()`
      and nothing is bound, whatever the records hold. */
  lemma AsWrittenBindsNothing(records: seq<TransactionRecord>)
    ensures var plan := InsertPlan(RowsAsWritten(records), [], AnnotationTypeAsWritten);
      && plan.Success? && plan.value.bindings == []
      && |plan.value.placeholders| == |records|
      && forall i | 0 <= i < |records| :: TupleText(plan.value.placeholders[i]) == "()"
  {
    var rows := RowsAsWritten(records);
    BatchEmpty(rows, AnnotationTypeAsWritten, |rows|);
    TuplesMeaning(rows, 0, |rows|);
  }

  /** Rows without columns bind nothing. */
  lemma {:induction false} BatchEmpty(rows: seq<seq<Cell>>, typeOf: Annotation -> Result<string, Error>, i: nat)
    requires forall r | 0 <= r < |rows| :: rows[r] == []
    requires i <= |rows|
    ensures BindBatch(rows, [], typeOf, i) == Success([])
  {
    if i > 0 {
      BatchEmpty(rows, typeOf, i - 1);
      assert BindBatch(rows, [], typeOf, i).value == [] + [];
    }
  }

  /** A latent defect behind lines 29 and 44 of `insert_records`: were the
      columns and each field's annotation read off the record class itself
      (as written, the columns are `BaseModel`'s, which are none, and the
      annotation lookup would raise KeyError), the annotation passed on as
      written refuses a record with a bank with TypeError before the query
      is sent. */
  lemma AsWrittenUnionRefused(r: TransactionRecord)
    requires r.bankOrSystem.Some?
    ensures InsertPlan(Rows([r]), FIELD_ANNOTATIONS, AnnotationTypeAsWritten) == Failure(TypeError)
  {
    var rows := Rows([r]);
    assert rows[0][1] == Text(r.bankOrSystem.value) && FIELD_ANNOTATIONS[1] == PipeUnion([StrType, NoneType]);
    BindBatchSuccess(rows, FIELD_ANNOTATIONS, AnnotationTypeAsWritten, 1);
    BindBatchFailure(rows, FIELD_ANNOTATIONS, AnnotationTypeAsWritten, 1);
  }
}
