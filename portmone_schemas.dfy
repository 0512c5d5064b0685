/** The Portmone payment model, its validators and its mapper
    (app/payments/portmone/schemas.py). */
module PortmoneSchemas {
  import opened Wrappers
  import opened Records
  import opened PyText

  /** `pay_date` as it arrives in the JSON, before validation. */
  datatype RawDateTime = RawText(s: string) | RawMoment(t: Instant) | RawAbsent

  /** `pay_order_amount` as it arrives in the JSON, before validation. */
  datatype RawAmount = AmountText(s: string) | AmountNumber(r: real) | AmountAbsent

  /** The `parse_datetime` validator of the required `pay_date`. A string is
      read as `%d.%m.%Y %H:%M:%S` wall-clock time in Europe/Kyiv; `kyivTime`
      gives the instant, or None when `strptime` rejects the text. Anything
      else passes through, and a missing date fails as a required field. */
  function ParsePayDate(raw: RawDateTime, kyivTime: string -> Option<Instant>): (r: Result<Instant, Error>)
    ensures raw.RawText? ==> (r.Success? <==> kyivTime(raw.s).Some?)
    ensures raw.RawText? && r.Success? ==> r.value == kyivTime(raw.s).value
    ensures raw.RawMoment? ==> r == Success(raw.t)
    ensures r.Failure? ==> r.error == ValidationError
  {
    match raw
    case RawText(s) => if kyivTime(s).None? then Failure(ValidationError) else Success(kyivTime(s).value)
    case RawMoment(t) => Success(t)
    case RawAbsent => Failure(ValidationError)
  }

  /** The `parse_decimal` validator of `pay_order_amount`: an empty string is
      None, another string is `Decimal(value)` (`decimalOf` gives it, or None
      when Decimal rejects the text, which raises InvalidOperation and is not a
      ValueError, so pydantic lets it through); anything else passes. */
  function ParsePayOrderAmount(raw: RawAmount, decimalOf: string -> Option<real>): (r: Result<Option<real>, Error>)
    ensures raw == AmountText("") ==> r == Success(None)
    ensures raw.AmountText? && raw.s != "" ==>
      (if decimalOf(raw.s).Some? then r == Success(decimalOf(raw.s)) else r == Failure(InvalidOperation))
    ensures raw.AmountNumber? ==> r == Success(Some(raw.r))
    ensures raw.AmountAbsent? ==> r == Success(None)
  {
    match raw
    case AmountText(s) =>
      if s == "" then Success(None)
      else if decimalOf(s).None? then Failure(InvalidOperation)
      else Success(decimalOf(s))
    case AmountNumber(x) => Success(Some(x))
    case AmountAbsent => Success(None)
  }

  /** A validated payment. */
  datatype Payment = Payment(
    payeeId: string, description: Option<string>, status: string, commission: Option<real>,
    payDate: Instant, payeeName: Option<string>, payeeCommission: Option<real>,
    payOrderAmount: Option<real>, shopBillId: string, billAmount: Option<real>,
    errorCode: Option<string>, errorMessage: Option<string>, cardMask: Option<string>,
    cardBankName: Option<string>, gateType: Option<string>, cardTypeName: Option<string>)

  /** `v and abs(v)`: None and zero are falsy and returned as they are. */
  function AndAbs(v: Option<real>): (r: Option<real>)
    ensures r.None? <==> v.None?
    ensures v.Some? ==> r.value == Abs(v.value) && r.value >= 0.0
  {
    if v.None? || v.value == 0.0 then v else Some(Abs(v.value))
  }

  /** `v or ""`: None and the empty string both give "". */
  function OrEmpty(v: Option<string>): (s: string)
    ensures v.Some? ==> s == v.value
    ensures v.None? ==> s == ""
  {
    if v.None? then "" else v.value
  }

  /** The record's transaction type for a payment status. */
  function TransactionType(status: string): (t: string)
    ensures status == "PAYED" ==> t == "debit"
    ensures status == "CREATED" ==> t == "invoice"
    ensures status != "PAYED" && status != "CREATED" ==> t == status
  {
    if status == "PAYED" then "debit" else if status == "CREATED" then "invoice" else status
  }

  /** `portmone_payment_to_record`. */
  function ToRecord(p: Payment): (rec: TransactionRecord)
    ensures rec.operationDatetime == Some(p.payDate)
    ensures rec.bankOrSystem == Some("portmone") && rec.currency == Some("UAH")
    ensures rec.accountName == p.payeeName && rec.accountNumber.None?
    ensures rec.transactionType == Some(TransactionType(p.status))
    ensures rec.accountCurrencyAmount == rec.operationCurrencyAmount
    ensures rec.accountCurrencyAmount.None? <==> p.billAmount.None?
    ensures p.billAmount.Some? ==> rec.accountCurrencyAmount == Some(Abs(p.billAmount.value))
    ensures rec.commission.None? <==> p.payeeCommission.None?
    ensures p.payeeCommission.Some? ==> rec.commission == Some(Abs(p.payeeCommission.value))
    ensures rec.counterpartyDetails ==
      Some(OrEmpty(p.cardBankName) + ", " + OrEmpty(p.cardTypeName) + ", " + OrEmpty(p.gateType))
    ensures rec.comment == Some(OrEmpty(p.errorCode) + ", " + OrEmpty(p.errorMessage))
    ensures rec.operationDetails == p.description && rec.counterpartyAccountNumber == p.cardMask
    ensures rec.balanceAfterOperation.None? && rec.counterpartyCode.None? && rec.mcc.None?
    ensures rec.transactionId == p.shopBillId
  {
    var parts := [OrEmpty(p.cardBankName), OrEmpty(p.cardTypeName), OrEmpty(p.gateType)];
    var errors := [OrEmpty(p.errorCode), OrEmpty(p.errorMessage)];
    assert parts[1..][1..] == [parts[2]] && errors[1..] == [errors[1]];
    assert Join(", ", parts[1..]) == parts[1] + ", " + parts[2];
    var details := Join(", ", parts);
    assert details == parts[0] + ", " + parts[1] + ", " + parts[2];
    var comment := Join(", ", errors);
    assert comment == errors[0] + ", " + errors[1];
    var amount := AndAbs(p.billAmount);
    TransactionRecord(
      Some(p.payDate), Some("portmone"), p.payeeName, None, Some(TransactionType(p.status)),
      amount, amount, Some("UAH"), AndAbs(p.payeeCommission), None, p.description,
      Some(details), None, p.cardMask, None, Some(comment), p.shopBillId)
  }

  /** The separators are always there: a payment with no card data at all has
      the details ", , " and the comment ", ". */
  lemma EmptyPartsKeepSeparators(p: Payment)
    requires p.cardBankName.None? && p.cardTypeName.None? && p.gateType.None?
    requires p.errorCode.None? && p.errorMessage.None?
    ensures ToRecord(p).counterpartyDetails == Some(", , ")
    ensures ToRecord(p).comment == Some(", ")
  {
    assert "" + ", " + "" + ", " + "" == ", , ";
    assert "" + ", " + "" == ", ";
  }
}
