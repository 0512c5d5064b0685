/** `ERC20Api` of app/payments/etherscan/api.py: the `tokentx` listing of one
    address, page by page, with a fixed page size. */
module EtherscanApi {
  import opened Wrappers
  import opened Http
  import opened PageNumbers
  import opened EtherscanSchemas

  /** `DEFAULT_LIMIT`: the `offset` (page size) of every request. */
  const DEFAULT_LIMIT: nat := 100

  /** The query of `fetch_transactions`; module, action, block range and sort
      order are the same in every request and are left implicit. */
  datatype EtherscanReq = TokenTxReq(address: string, page: nat, offset: nat, apiKey: string)

  type EtherscanServer = (EtherscanReq, nat) -> Answer<seq<Transaction>>

  function Request(apiKey: string, address: string): nat -> EtherscanReq {
    (n: nat) => TokenTxReq(address, n, DEFAULT_LIMIT, apiKey)
  }

  /** `fetch_transactions(address, page)`: one retried request. The client's
      limiter is never used, so no request waits on it. */
  function FetchTransactions(server: EtherscanServer, apiKey: string, address: string, page: nat)
    : (r: Run<seq<Transaction>, EtherscanReq>)
    ensures NoWaits(r.trace)
    ensures forall i | 0 <= i < |Sends(r.trace)| :: Sends(r.trace)[i] == TokenTxReq(address, page, DEFAULT_LIMIT, apiKey)
  {
    RetriedCall(server, TokenTxReq(address, page, DEFAULT_LIMIT, apiKey), false)
  }

  function Identity(xs: seq<Transaction>): seq<Transaction> { xs }

  /** `fetch_all_transactions(address)`: pages 1, 2, ... until an empty page
      or one shorter than `DEFAULT_LIMIT`; every page's transactions, in page
      order. */
  function FetchAllTransactions(server: EtherscanServer, apiKey: string, address: string, fuel: nat)
    : (r: Run<seq<Transaction>, EtherscanReq>)
    ensures NoWaits(r.trace)
  {
    PageLoopNoWaits(server, Request(apiKey, address), Identity, DEFAULT_LIMIT, 1, fuel);
    PageLoop(Fetcher(server, Request(apiKey, address), false), Identity, DEFAULT_LIMIT, 1, fuel)
  }

  /** `fetch_all_transactions` as the source runs it. */
  method FetchAllTransactionsLoop(server: EtherscanServer, apiKey: string, address: string, fuel: nat)
    returns (r: Run<seq<Transaction>, EtherscanReq>)
    ensures r == FetchAllTransactions(server, apiKey, address, fuel)
  {
    r := PageLoopM(server, Request(apiKey, address), false, Identity, DEFAULT_LIMIT, fuel);
  }

  /** An address with `k` full pages (exactly `DEFAULT_LIMIT` or more
      transfers each) and then a short or empty one, against a server that
      answers each page at once: `k + 1` requests for pages 1 to `k + 1`,
      none of them waiting, and all the pages' transactions in page order. */
  lemma FullPagesThenShort(server: EtherscanServer, apiKey: string, address: string, k: nat, fuel: nat)
    requires AnswersAtOnce(server, Request(apiKey, address), 1, k + 1)
    requires forall p: nat | 1 <= p <= k ::
      server(TokenTxReq(address, p, DEFAULT_LIMIT, apiKey), 0).Got? &&
      |server(TokenTxReq(address, p, DEFAULT_LIMIT, apiKey), 0).page| >= DEFAULT_LIMIT
    requires server(TokenTxReq(address, k + 1, DEFAULT_LIMIT, apiKey), 0).Got?
    requires |server(TokenTxReq(address, k + 1, DEFAULT_LIMIT, apiKey), 0).page| < DEFAULT_LIMIT
    requires fuel > k
    ensures var r := FetchAllTransactions(server, apiKey, address, fuel);
      && r.result == Success(FirstAnswers(server, Request(apiKey, address), Identity, 1, k + 1))
      && |Sends(r.trace)| == k + 1
      && (forall i | 0 <= i <= k :: Sends(r.trace)[i] == TokenTxReq(address, i + 1, DEFAULT_LIMIT, apiKey))
      && NoWaits(r.trace)
  {
    var request := Request(apiKey, address);
    forall p: nat | 1 <= p <= k
      ensures server(request(p), 0).page != [] && |server(request(p), 0).page| >= DEFAULT_LIMIT
    {
      assert request(p) == TokenTxReq(address, p, DEFAULT_LIMIT, apiKey);
    }
    assert request(k + 1) == TokenTxReq(address, k + 1, DEFAULT_LIMIT, apiKey);
    ReliablePages(server, request, false, Identity, DEFAULT_LIMIT, k, fuel);
  }
}
