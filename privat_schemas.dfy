/** The PrivatBank models and mapper of app/payments/privat/schemas.py. */
module PrivatSchemas {
  import opened Wrappers
  import opened Records

  /** `DATE_TIME_DAT_OD_TIM_P` as it arrives in the JSON, before validation. */
  datatype RawDateTime = RawText(s: string) | RawMoment(t: Instant) | RawAbsent

  /** The `parse_datetime` validator. A string is read as
      `%d.%m.%Y %H:%M:%S` wall-clock time in Europe/Kyiv; `kyivTime` gives the
      instant it denotes, or None when `strptime` rejects it (the validator's
      ValueError surfaces as a ValidationError). Anything else passes through. */
  function ParseDateTime(raw: RawDateTime, kyivTime: string -> Option<Instant>): (r: Result<Option<Instant>, Error>)
    ensures raw.RawText? ==> (r.Success? <==> kyivTime(raw.s).Some?)
    ensures raw.RawText? && r.Success? ==> r.value == kyivTime(raw.s)
    ensures raw.RawText? && r.Failure? ==> r.error == ValidationError
    ensures raw.RawMoment? ==> r == Success(Some(raw.t))
    ensures raw.RawAbsent? ==> r == Success(None)
  {
    match raw
    case RawText(s) => if kyivTime(s).None? then Failure(ValidationError) else Success(kyivTime(s))
    case RawMoment(t) => Success(Some(t))
    case RawAbsent => Success(None)
  }

  /** A statement transaction; every field is optional. */
  datatype Transaction = Transaction(
    id: Option<string>, autMyAcc: Option<string>, autCntrCrf: Option<string>,
    autCntrAcc: Option<string>, autCntrNam: Option<string>, ccy: Option<string>,
    osnd: Option<string>, sum: Option<real>, sumE: Option<real>,
    dateTime: Option<Instant>, tranType: Option<string>)

  /** An account balance: its number and its name (`nameACC`). */
  datatype Balance = Balance(acc: string, nameAcc: string)

  /** `TransactionsPage` and `BalancesPage`: a status, the cursor and the
      page's items. */
  datatype Page<T> = Page(status: string, existNextPage: bool, nextPageId: Option<string>, items: seq<T>)

  /** `acc_name_map.get(key)`: None for a missing or None key. */
  function NameOf(accNameMap: map<string, string>, key: Option<string>): (r: Option<string>)
    ensures r.Some? <==> key.Some? && key.value in accNameMap
    ensures r.Some? ==> r.value == accNameMap[key.value]
  {
    if key.Some? && key.value in accNameMap then Some(accNameMap[key.value]) else None
  }

  function TextKey(v: Option<string>): PyValue {
    if v.None? then PyNone else PyStr(v.value)
  }

  /** `privat_transaction_to_record`. Its arguments are evaluated first, so a
      missing time fails with AttributeError (`None.astimezone`); the record
      then rejects a missing `ID`, since `transaction_id` must be a string. */
  function ToRecord(tx: Transaction, accNameMap: map<string, string>,
                    currencyCodes: map<int, string>): (r: Result<TransactionRecord, Error>)
    ensures r.Failure? <==> tx.dateTime.None? || tx.id.None?
    ensures tx.dateTime.None? ==> r == Failure(AttributeError)
    ensures tx.dateTime.Some? && tx.id.None? ==> r == Failure(ValidationError)
    ensures r.Success? ==>
      var rec := r.value;
      && (rec.transactionType == Some("debit") <==> tx.tranType == Some("D"))
      && (rec.transactionType == Some("debit") || rec.transactionType == Some("credit"))
      && rec.operationDatetime == tx.dateTime
      && rec.bankOrSystem == Some("privatbank")
      && rec.accountName == NameOf(accNameMap, tx.autMyAcc)
      && rec.accountNumber == tx.autMyAcc
      && rec.accountCurrencyAmount == tx.sumE && rec.operationCurrencyAmount == tx.sum
      && rec.currency == tx.ccy
      && rec.commission.None? && rec.balanceAfterOperation.None? && rec.mcc.None? && rec.comment.None?
      && rec.operationDetails == tx.osnd
      && rec.counterpartyDetails == tx.autCntrNam && rec.counterpartyCode == tx.autCntrCrf
      && rec.counterpartyAccountNumber == tx.autCntrAcc
      && rec.transactionId == tx.id.value
  {
    var transactionType := if tx.tranType == Some("D") then "debit" else "credit";
    if tx.dateTime.None? then Failure(AttributeError)
    else
      var currency := AsOptionalText(LookupOrSelf(currencyCodes, TextKey(tx.ccy)));
      if currency.Failure? then Failure(ValidationError)
      else if tx.id.None? then Failure(ValidationError)
      else
        Success(TransactionRecord(
          tx.dateTime, Some("privatbank"), NameOf(accNameMap, tx.autMyAcc), tx.autMyAcc,
          Some(transactionType), tx.sumE, tx.sum, currency.value, None, None, tx.osnd,
          tx.autCntrNam, tx.autCntrCrf, tx.autCntrAcc, None, None, tx.id.value))
  }

  /** `{b.acc: b.name_acc for b in balances}`: later balances of the same
      account overwrite earlier ones. */
  function AccNameMap(balances: seq<Balance>): (m: map<string, string>)
    ensures m.Keys == set i | 0 <= i < |balances| :: balances[i].acc
  {
    if balances == [] then map[]
    else
      var last := balances[|balances| - 1];
      var init := balances[..|balances| - 1];
      var m := AccNameMap(init);
      assert (set i | 0 <= i < |balances| :: balances[i].acc)
          == (set i | 0 <= i < |init| :: init[i].acc) + {last.acc} by {
        assert forall i | 0 <= i < |init| :: init[i] == balances[i];
      }
      m[last.acc := last.nameAcc]
  }

  /** The name kept for an account is that of its last balance. */
  lemma {:induction false} AccNameMapLastWins(balances: seq<Balance>, i: nat)
    requires i < |balances|
    requires forall j | i < j < |balances| :: balances[j].acc != balances[i].acc
    ensures AccNameMap(balances)[balances[i].acc] == balances[i].nameAcc
    decreases |balances|
  {
    var init := balances[..|balances| - 1];
    if i < |balances| - 1 {
      assert init[i] == balances[i];
      forall j | i < j < |init| ensures init[j].acc != init[i].acc {
        assert init[j] == balances[j];
      }
      AccNameMapLastWins(init, i);
    }
  }
}
