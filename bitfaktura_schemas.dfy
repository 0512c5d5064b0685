/** The Bitfaktura invoice model and its mapper
    (app/payments/bitfaktura/schemas.py). */
module BitfakturaSchemas {
  import opened Wrappers
  import opened Records
  import opened PyText

  /** An invoice, reduced to the fields the mapper and the Fakturownia date
      filter read. */
  datatype Invoice = Invoice(
    id: int, number: Option<string>, priceGross: Option<real>, currency: Option<string>,
    createdAt: Instant, updatedAt: Instant, sellerBankAccount: Option<string>,
    buyerBankAccount: Option<string>, buyerName: Option<string>, buyerTaxNo: Option<string>)

  /** `bitfaktura_invoice_to_record`: an invoice record whose amounts are the
      gross price as it is, signed or missing. */
  function ToRecord(inv: Invoice): (rec: TransactionRecord)
    ensures rec.transactionType == Some("invoice") && rec.bankOrSystem == Some("bitfaktura")
    ensures rec.accountCurrencyAmount == inv.priceGross && rec.operationCurrencyAmount == inv.priceGross
    ensures rec.operationDatetime == Some(inv.createdAt) && rec.currency == inv.currency
    ensures rec.accountNumber == inv.sellerBankAccount && rec.operationDetails == inv.number
    ensures rec.counterpartyDetails == inv.buyerName && rec.counterpartyCode == inv.buyerTaxNo
    ensures rec.counterpartyAccountNumber == inv.buyerBankAccount
    ensures rec.accountName.None? && rec.commission.None? && rec.balanceAfterOperation.None?
    ensures rec.mcc.None? && rec.comment.None?
    ensures rec.transactionId == IntText(inv.id)
  {
    TransactionRecord(
      Some(inv.createdAt), Some("bitfaktura"), None, inv.sellerBankAccount, Some("invoice"),
      inv.priceGross, inv.priceGross, inv.currency, None, None, inv.number,
      inv.buyerName, inv.buyerTaxNo, inv.buyerBankAccount, None, None, IntText(inv.id))
  }

  /** Invoices with different ids get different transaction ids, so the
      identity key of a Bitfaktura record determines the invoice id. */
  lemma DistinctInvoicesDistinctIds(a: Invoice, b: Invoice)
    requires a.id != b.id
    ensures ToRecord(a).transactionId != ToRecord(b).transactionId
  {
    if IntText(a.id) == IntText(b.id) {
      IntTextInjective(a.id, b.id);
    }
  }
}
