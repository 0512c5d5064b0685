/** The canonical record every provider is mapped onto (app/schemas.py) and the
    currency table of app/constants.py. */
module Records {
  import opened Wrappers
  import opened PyText

  /** An instant: microseconds since the Unix epoch, UTC (the resolution of
      Python's `datetime`). */
  type Instant = int

  const MICROS_PER_SECOND: int := 1_000_000
  const SECONDS_PER_DAY: int := 86_400
  const MICROS_PER_DAY: int := SECONDS_PER_DAY * MICROS_PER_SECOND

  /** `TransactionRecord`: sixteen optional fields and the required
      `transaction_id`, in declaration order. Decimals are exact reals. */
  datatype TransactionRecord = TransactionRecord(
    operationDatetime: Option<Instant>,
    bankOrSystem: Option<string>,
    accountName: Option<string>,
    accountNumber: Option<string>,
    transactionType: Option<string>,
    accountCurrencyAmount: Option<real>,
    operationCurrencyAmount: Option<real>,
    currency: Option<string>,
    commission: Option<real>,
    balanceAfterOperation: Option<real>,
    operationDetails: Option<string>,
    counterpartyDetails: Option<string>,
    counterpartyCode: Option<string>,
    counterpartyAccountNumber: Option<string>,
    mcc: Option<int>,
    comment: Option<string>,
    transactionId: string)

  /** The model fields, in declaration order: the column order of the schema,
      of INSERT and of MERGE. */
  const FIELD_NAMES: seq<string> := [
    "operation_datetime", "bank_or_system", "account_name", "account_number",
    "transaction_type", "account_currency_amount", "operation_currency_amount",
    "currency", "commission", "balance_after_operation", "operation_details",
    "counterparty_details", "counterparty_code", "counterparty_account_number",
    "mcc", "comment", "transaction_id"]

  const FIELD_COUNT: nat := 17
  const TRANSACTION_ID: nat := 16

  /** The Python classes an annotation can name. */
  datatype PyType = StrType | IntType | FloatType | DecimalType | DateTimeType | NoneType | OtherType

  /** A field annotation as `typing.get_origin`/`get_args` see it: a bare class,
      a PEP 604 union `X | Y`, or any other generic (`typing.Optional[X]`,
      `list[X]`, ...). */
  datatype Annotation = Bare(t: PyType) | PipeUnion(args: seq<PyType>) | OtherGeneric(args: seq<PyType>)

  /** The annotations of the record's fields, in declaration order. */
  const FIELD_ANNOTATIONS: seq<Annotation> := [
    PipeUnion([DateTimeType, NoneType]), PipeUnion([StrType, NoneType]),
    PipeUnion([StrType, NoneType]), PipeUnion([StrType, NoneType]),
    PipeUnion([StrType, NoneType]), PipeUnion([DecimalType, NoneType]),
    PipeUnion([DecimalType, NoneType]), PipeUnion([StrType, NoneType]),
    PipeUnion([DecimalType, NoneType]), PipeUnion([DecimalType, NoneType]),
    PipeUnion([StrType, NoneType]), PipeUnion([StrType, NoneType]),
    PipeUnion([StrType, NoneType]), PipeUnion([StrType, NoneType]),
    PipeUnion([IntType, NoneType]), PipeUnion([StrType, NoneType]),
    Bare(StrType)]

  /** `abs` of a Decimal. */
  function Abs(x: real): (r: real)
    ensures r >= 0.0 && (r == x || r == -x)
  {
    if x < 0.0 then -x else x
  }

  /** `abs(amount / 10 ** decimals)` on a Decimal amount in a token's
      smallest unit. A negative exponent makes `10 ** decimals` a float, and
      dividing a Decimal by a float raises TypeError. */
  function TokenAmount(amount: real, decimals: int): (r: Result<real, Error>)
    ensures r.Failure? <==> decimals < 0
    ensures r.Failure? ==> r.error == TypeError
    ensures r.Success? ==> r.value >= 0.0 && r.value * (Pow10(decimals) as real) == Abs(amount)
  {
    if decimals < 0 then Failure(TypeError)
    else Success(Abs(amount / (Pow10(decimals) as real)))
  }

  /** One attribute value of a record, as `getattr` returns it. */
  datatype Cell = Null | Text(s: string) | Integer(i: int) | Dec(d: real) | Timestamp(t: Instant)

  /** Whether a field with annotation `a` accepts values of class `t`. */
  predicate Admits(a: Annotation, t: PyType) {
    match a
    case Bare(u) => u == t
    case PipeUnion(args) => t in args
    case OtherGeneric(_) => false
  }

  /** Whether a value may be stored in a field with the given annotation. */
  predicate CellFits(c: Cell, a: Annotation) {
    match c
    case Null => Admits(a, NoneType)
    case Text(_) => Admits(a, StrType)
    case Integer(_) => Admits(a, IntType)
    case Dec(_) => Admits(a, DecimalType)
    case Timestamp(_) => Admits(a, DateTimeType)
  }

  function OptText(o: Option<string>): Cell { if o.None? then Null else Text(o.value) }
  function OptDec(o: Option<real>): Cell { if o.None? then Null else Dec(o.value) }

  /** The record's attribute values in field order. */
  function Cells(r: TransactionRecord): (cs: seq<Cell>)
    ensures |cs| == |FIELD_NAMES| == |FIELD_ANNOTATIONS| == FIELD_COUNT
    ensures forall i | 0 <= i < |cs| :: CellFits(cs[i], FIELD_ANNOTATIONS[i])
    ensures cs[TRANSACTION_ID] == Text(r.transactionId)
  {
    [ if r.operationDatetime.None? then Null else Timestamp(r.operationDatetime.value),
      OptText(r.bankOrSystem), OptText(r.accountName), OptText(r.accountNumber),
      OptText(r.transactionType), OptDec(r.accountCurrencyAmount),
      OptDec(r.operationCurrencyAmount), OptText(r.currency), OptDec(r.commission),
      OptDec(r.balanceAfterOperation), OptText(r.operationDetails),
      OptText(r.counterpartyDetails), OptText(r.counterpartyCode),
      OptText(r.counterpartyAccountNumber),
      if r.mcc.None? then Null else Integer(r.mcc.value),
      OptText(r.comment), Text(r.transactionId) ]
  }

  /** `TransactionRecord(transaction_id=id)`: every other field takes its default. */
  function NewRecord(id: string): (r: TransactionRecord)
    ensures r.transactionId == id
    ensures forall i | 0 <= i < FIELD_COUNT && i != TRANSACTION_ID :: Cells(r)[i] == Null
  {
    TransactionRecord(None, None, None, None, None, None, None, None, None, None,
                      None, None, None, None, None, None, id)
  }

  /** `transaction_id` is the only field without a default: the only field whose
      annotation does not admit None. */
  lemma OnlyTransactionIdRequired()
    ensures forall i | 0 <= i < FIELD_COUNT ::
      (CellFits(Null, FIELD_ANNOTATIONS[i]) <==> i != TRANSACTION_ID)
    ensures FIELD_NAMES[TRANSACTION_ID] == "transaction_id"
  {
  }

  /** Python values that can be dictionary keys here. */
  datatype PyValue = PyNone | PyInt(i: int) | PyStr(s: string)

  /** `CURRENCY_CODES`: ISO 4217 numeric code to alphabetic code. */
  const CURRENCY_CODES: map<int, string> :=
    map[980 := "UAH", 840 := "USD", 978 := "EUR", 826 := "GBP", 985 := "PLN"]

  /** `currency_codes.get(key, key)` on the int-keyed table. */
  function LookupOrSelf(table: map<int, string>, key: PyValue): (v: PyValue)
    ensures key.PyInt? && key.i in table ==> v == PyStr(table[key.i])
    ensures !(key.PyInt? && key.i in table) ==> v == key
  {
    match key
    case PyInt(i) => if i in table then PyStr(table[i]) else key
    case _ => key
  }

  /** Storing a value in an `str | None` field: pydantic 2 accepts a string or
      None and rejects an int. */
  function AsOptionalText(v: PyValue): (r: Result<Option<string>, Error>)
    ensures r.Failure? <==> v.PyInt?
    ensures v.PyStr? ==> r == Success(Some(v.s))
    ensures v.PyNone? ==> r == Success(None)
  {
    match v
    case PyNone => Success(None)
    case PyStr(s) => Success(Some(s))
    case PyInt(_) => Failure(ValidationError)
  }

  /** A string key never hits the int-keyed table: lookup returns the key itself. */
  lemma TextKeyFallsBack(table: map<int, string>, s: string)
    ensures LookupOrSelf(table, PyStr(s)) == PyStr(s)
  {
  }
}
