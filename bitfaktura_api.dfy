/** `BitfakturaApi` of app/payments/bitfaktura/api.py: the invoice listing,
    page by page from page 1 until an empty page, every request behind the
    shared limiter. */
module BitfakturaApi {
  import opened Wrappers
  import opened Http
  import opened PageNumbers
  import opened BitfakturaSchemas

  /** The query of `fetch_invoices`: the API token and the page number. */
  datatype BitfakturaReq = InvoicesReq(token: string, page: nat)

  type BitfakturaServer = (BitfakturaReq, nat) -> Answer<seq<Invoice>>

  function Request(token: string): nat -> BitfakturaReq {
    (n: nat) => InvoicesReq(token, n)
  }

  /** `fetch_invoices(page)`: one retried request, each attempt waiting on
      the limiter first. */
  function FetchInvoices(server: BitfakturaServer, token: string, page: nat): (r: Run<seq<Invoice>, BitfakturaReq>)
    ensures PacedSends(r.trace)
    ensures 1 <= |Sends(r.trace)|
    ensures forall i | 0 <= i < |Sends(r.trace)| :: Sends(r.trace)[i] == InvoicesReq(token, page)
  {
    RetriedCall(server, InvoicesReq(token, page), true)
  }

  function Identity(invoices: seq<Invoice>): seq<Invoice> { invoices }

  /** No page is short: only an empty page ends the loop. */
  const NEVER_SHORT: nat := 0

  /** `fetch_all_invoices()`: pages 1, 2, ... until the first empty page;
      every page's invoices, in page order, unfiltered. */
  function FetchAllInvoices(server: BitfakturaServer, token: string, fuel: nat): (r: Run<seq<Invoice>, BitfakturaReq>)
    ensures PacedSends(r.trace)
  {
    PageLoopPaced(server, Request(token), Identity, NEVER_SHORT, 1, fuel);
    PageLoop(Fetcher(server, Request(token), true), Identity, NEVER_SHORT, 1, fuel)
  }

  /** `fetch_all_invoices` as the source runs it. */
  method FetchAllInvoicesLoop(server: BitfakturaServer, token: string, fuel: nat)
    returns (r: Run<seq<Invoice>, BitfakturaReq>)
    ensures r == FetchAllInvoices(server, token, fuel)
  {
    r := PageLoopM(server, Request(token), true, Identity, NEVER_SHORT, fuel);
  }

  /** `k` non-empty pages and then an empty one, against a server that answers
      each page at once: exactly `k + 1` requests, for pages 1 to `k + 1` in
      order, each behind one limiter wait, and all the invoices in page
      order. */
  lemma NonEmptyPagesThenEmpty(server: BitfakturaServer, token: string, k: nat, fuel: nat)
    requires AnswersAtOnce(server, Request(token), 1, k + 1)
    requires forall p: nat | 1 <= p <= k ::
      server(InvoicesReq(token, p), 0).Got? && server(InvoicesReq(token, p), 0).page != []
    requires server(InvoicesReq(token, k + 1), 0) == Got([])
    requires fuel > k
    ensures var r := FetchAllInvoices(server, token, fuel);
      && r.result == Success(FirstAnswers(server, Request(token), Identity, 1, k + 1))
      && r.trace == Rounds(Request(token), true, 1, k + 1)
      && |Sends(r.trace)| == k + 1
      && (forall i | 0 <= i <= k :: Sends(r.trace)[i] == InvoicesReq(token, i + 1))
  {
    var request := Request(token);
    forall p: nat | 1 <= p <= k
      ensures server(request(p), 0).page != [] && |server(request(p), 0).page| >= NEVER_SHORT
    {
      assert request(p) == InvoicesReq(token, p);
    }
    assert request(k + 1) == InvoicesReq(token, k + 1);
    ReliablePages(server, request, true, Identity, NEVER_SHORT, k, fuel);
  }
}
