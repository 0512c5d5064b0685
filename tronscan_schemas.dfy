/** The Tronscan token transfer model and its TRC20 mapper
    (app/payments/tronscan/schemas.py). */
module TronscanSchemas {
  import opened Wrappers
  import opened Records
  import opened PyText

  /** A token transfer; `block_ts` is in Unix milliseconds and `quant` in the
      token's smallest unit. */
  datatype TokenTransfer = TokenTransfer(
    transactionId: string, blockTs: int, fromAddress: Option<string>, toAddress: string,
    quant: real, tokenAbbr: string, tokenDecimal: int)

  /** `TokenTransfersPage`: the server's count of all transfers and this
      page's transfers. */
  datatype TransfersPage = TransfersPage(total: int, transfers: seq<TokenTransfer>)

  const MICROS_PER_MILLI: int := 1000

  /** `block_timestamp`: the UTC instant `block_ts / 1000` seconds after the
      epoch. */
  function BlockTimestamp(t: TokenTransfer): Instant {
    t.blockTs * MICROS_PER_MILLI
  }

  /** `trc20_transfer_to_record(transfer, address)`; `fold` is `str.casefold`. */
  function ToRecord(t: TokenTransfer, address: string, fold: string -> string): (r: Result<TransactionRecord, Error>)
    ensures r.Failure? <==> t.tokenDecimal < 0
    ensures r.Failure? ==> r.error == TypeError
    ensures r.Success? ==>
      var rec := r.value;
      var debit := fold(t.toAddress) == fold(address);
      && rec.transactionType == Some(if debit then "debit" else "credit")
      && rec.counterpartyAccountNumber == (if debit then t.fromAddress else Some(t.toAddress))
      && rec.accountCurrencyAmount.Some? && rec.accountCurrencyAmount == rec.operationCurrencyAmount
      && rec.accountCurrencyAmount.value >= 0.0
      && rec.accountCurrencyAmount.value * (Pow10(t.tokenDecimal) as real) == Abs(t.quant)
      && rec.operationDatetime == Some(BlockTimestamp(t))
      && rec.bankOrSystem == Some("TRC20") && rec.accountNumber == Some(address)
      && rec.currency == Some(t.tokenAbbr) && rec.transactionId == t.transactionId
      && rec.accountName.None? && rec.commission.None? && rec.balanceAfterOperation.None?
      && rec.operationDetails.None? && rec.counterpartyDetails.None? && rec.counterpartyCode.None?
      && rec.mcc.None? && rec.comment.None?
  {
    var debit := fold(t.toAddress) == fold(address);
    var amount := TokenAmount(t.quant, t.tokenDecimal);
    if amount.Failure? then Failure(amount.error)
    else
      Success(TransactionRecord(
        Some(BlockTimestamp(t)), Some("TRC20"), None, Some(address),
        Some(if debit then "debit" else "credit"), Some(amount.value), Some(amount.value),
        Some(t.tokenAbbr), None, None, None, None, None,
        if debit then t.fromAddress else Some(t.toAddress), None, None, t.transactionId))
  }
}
