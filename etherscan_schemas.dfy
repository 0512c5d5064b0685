/** The Etherscan token transfer model and its ERC20 mapper
    (app/payments/etherscan/schemas.py). */
module EtherscanSchemas {
  import opened Wrappers
  import opened Records
  import opened PyText

  /** A `tokentx` result; `timeStamp` is in Unix seconds, `value` in the
      token's smallest unit, and `tokenDecimal` is the text the API sends. */
  datatype Transaction = Transaction(
    timestamp: int, hash: string, fromAddress: Option<string>, toAddress: string,
    value: int, tokenSymbol: Option<string>, tokenDecimal: string)

  /** `block_timestamp`: the UTC instant `timeStamp` seconds after the epoch. */
  function BlockTimestamp(tx: Transaction): Instant {
    tx.timestamp * MICROS_PER_SECOND
  }

  /** `erc20_transaction_to_record(tx, address)`. `fold` is `str.casefold`;
      `intOf` is `int()` on a text, None when it raises ValueError. */
  function ToRecord(tx: Transaction, address: string, fold: string -> string,
                    intOf: string -> Option<int>): (r: Result<TransactionRecord, Error>)
    ensures intOf(tx.tokenDecimal).None? ==> r == Failure(ValueError)
    ensures intOf(tx.tokenDecimal).Some? ==> (r.Failure? <==> intOf(tx.tokenDecimal).value < 0)
    ensures intOf(tx.tokenDecimal).Some? && r.Failure? ==> r.error == TypeError
    ensures r.Success? ==>
      var rec := r.value;
      var debit := fold(tx.toAddress) == fold(address);
      && rec.transactionType == Some(if debit then "debit" else "credit")
      && rec.counterpartyAccountNumber == (if debit then tx.fromAddress else Some(tx.toAddress))
      && rec.accountCurrencyAmount.Some? && rec.accountCurrencyAmount == rec.operationCurrencyAmount
      && rec.accountCurrencyAmount.value >= 0.0
      && rec.accountCurrencyAmount.value * (Pow10(intOf(tx.tokenDecimal).value) as real) == Abs(tx.value as real)
      && rec.operationDatetime == Some(BlockTimestamp(tx))
      && rec.bankOrSystem == Some("ERC20") && rec.accountNumber == Some(address)
      && rec.currency == tx.tokenSymbol && rec.transactionId == tx.hash
      && rec.accountName.None? && rec.commission.None? && rec.balanceAfterOperation.None?
      && rec.operationDetails.None? && rec.counterpartyDetails.None? && rec.counterpartyCode.None?
      && rec.mcc.None? && rec.comment.None?
  {
    var debit := fold(tx.toAddress) == fold(address);
    var decimals := intOf(tx.tokenDecimal);
    if decimals.None? then Failure(ValueError)
    else
      var amount := TokenAmount(tx.value as real, decimals.value);
      if amount.Failure? then Failure(amount.error)
      else
        Success(TransactionRecord(
          Some(BlockTimestamp(tx)), Some("ERC20"), None, Some(address),
          Some(if debit then "debit" else "credit"), Some(amount.value), Some(amount.value),
          tx.tokenSymbol, None, None, None, None, None,
          if debit then tx.fromAddress else Some(tx.toAddress), None, None, tx.hash))
  }
}
