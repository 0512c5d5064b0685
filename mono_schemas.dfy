/** The Monobank models and mapper of app/payments/mono/schemas.py. Amounts
    arrive in minor units (kopecks, cents). */
module MonoSchemas {
  import opened Wrappers
  import opened Records

  datatype Account = Account(id: Option<string>, currencyCode: Option<int>, iban: Option<string>)

  datatype ClientInfo = ClientInfo(clientId: string, name: string, accounts: seq<Account>)

  /** A statement item; `time` is in Unix seconds. */
  datatype Transaction = Transaction(
    id: string, time: int, description: Option<string>, mcc: Option<int>,
    amount: Option<int>, operationAmount: Option<int>, currencyCode: Option<int>,
    commissionRate: Option<int>, balance: Option<int>, comment: Option<string>,
    counterName: Option<string>, counterEdrpou: Option<string>, counterIban: Option<string>)

  /** `_from_minor_units`: None stays None (and 0 stays 0), anything else is
      the absolute value in major units. */
  function FromMinorUnits(v: Option<int>): (r: Option<real>)
    ensures r.None? <==> v.None?
    ensures v.Some? ==> r.value >= 0.0 && r.value * 100.0 == Abs(v.value as real)
    ensures v == Some(0) ==> r == Some(0.0)
  {
    match v
    case None => None
    case Some(0) => Some(0.0)
    case Some(x) => Some(Abs(x as real / 100.0))
  }

  /** Python's `x or y` on optional ints: None and 0 are false. */
  function OrElse(x: Option<int>, y: Option<int>): (r: Option<int>)
    ensures x.Some? && x.value != 0 ==> r == x
    ensures x.None? || x.value == 0 ==> r == y
  {
    if x.Some? && x.value != 0 then x else y
  }

  function CodeKey(code: Option<int>): PyValue {
    if code.None? then PyNone else PyInt(code.value)
  }

  /** `mono_transaction_to_record`. It fails only when the currency code,
      after the account fallback, is an int the table does not know: the
      record's `currency` field accepts a string or None, not an int. */
  function ToRecord(client: ClientInfo, account: Account, tx: Transaction,
                    currencyCodes: map<int, string>): (r: Result<TransactionRecord, Error>)
    ensures var code := OrElse(tx.currencyCode, account.currencyCode);
      && (r.Failure? <==> code.Some? && code.value !in currencyCodes)
      && (r.Failure? ==> r.error == ValidationError)
      && (r.Success? ==> r.value.currency == if code.None? then None else Some(currencyCodes[code.value]))
    ensures r.Success? ==>
      var rec := r.value;
      && (rec.transactionType == Some("debit") <==> tx.amount.Some? && tx.amount.value < 0)
      && (rec.transactionType == Some("debit") || rec.transactionType == Some("credit"))
      && rec.operationDatetime == Some(tx.time * MICROS_PER_SECOND)
      && rec.bankOrSystem == Some("monobank") && rec.accountName == Some(client.name)
      && rec.accountNumber == account.iban && rec.transactionId == tx.id && rec.mcc == tx.mcc
      && rec.accountCurrencyAmount == FromMinorUnits(tx.amount)
      && rec.operationCurrencyAmount == FromMinorUnits(tx.operationAmount)
      && rec.commission == FromMinorUnits(tx.commissionRate)
      && rec.balanceAfterOperation == FromMinorUnits(tx.balance)
      && rec.operationDetails == tx.comment && rec.comment == tx.description
      && rec.counterpartyDetails == tx.counterName && rec.counterpartyCode == tx.counterEdrpou
      && rec.counterpartyAccountNumber == tx.counterIban
  {
    var transactionType := if tx.amount.GetOr(0) < 0 then "debit" else "credit";
    var currencyCode := OrElse(tx.currencyCode, account.currencyCode);
    var currency := AsOptionalText(LookupOrSelf(currencyCodes, CodeKey(currencyCode)));
    match currency
    case Failure(e) => Failure(e)
    case Success(c) =>
      Success(TransactionRecord(
        Some(tx.time * MICROS_PER_SECOND), Some("monobank"), Some(client.name), account.iban,
        Some(transactionType), FromMinorUnits(tx.amount), FromMinorUnits(tx.operationAmount),
        c, FromMinorUnits(tx.commissionRate), FromMinorUnits(tx.balance), tx.comment,
        tx.counterName, tx.counterEdrpou, tx.counterIban, tx.mcc, tx.description, tx.id))
  }

  /** Every money field of a mapped Monobank record is None or non-negative. */
  lemma MoneyIsNonNegative(client: ClientInfo, account: Account, tx: Transaction, table: map<int, string>)
    requires ToRecord(client, account, tx, table).Success?
    ensures var rec := ToRecord(client, account, tx, table).value;
      && (rec.accountCurrencyAmount.Some? ==> rec.accountCurrencyAmount.value >= 0.0)
      && (rec.operationCurrencyAmount.Some? ==> rec.operationCurrencyAmount.value >= 0.0)
      && (rec.commission.Some? ==> rec.commission.value >= 0.0)
      && (rec.balanceAfterOperation.Some? ==> rec.balanceAfterOperation.value >= 0.0)
  {
  }

  /** The transaction's own currency wins: a non-zero code the table knows
      gives its currency whatever the account's code. A missing or zero code
      falls back to the account's: the record is then exactly the one the
      transaction would give carrying the account's code. */
  lemma CurrencyFallback(client: ClientInfo, account: Account, tx: Transaction, table: map<int, string>)
    ensures tx.currencyCode.Some? && tx.currencyCode.value != 0 && tx.currencyCode.value in table ==>
      && ToRecord(client, account, tx, table).Success?
      && ToRecord(client, account, tx, table).value.currency == Some(table[tx.currencyCode.value])
    ensures tx.currencyCode.None? || tx.currencyCode == Some(0) ==>
      ToRecord(client, account, tx, table) == ToRecord(client, account, tx.(currencyCode := account.currencyCode), table)
  {
  }
}
