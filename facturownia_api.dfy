/** `FacturowniaApi` of app/payments/facturow/api.py: the invoice listing,
    page by page from page 1 until an empty page, keeping what was updated
    inside a date window. The invoice model of that package is not part of
    this model: an invoice is any value together with its `updated_at`. */
module FacturowniaApi {
  import opened Wrappers
  import opened Http
  import opened PageNumbers
  import opened Records

  /** The query of `fetch_invoices`: the API token and the page number. */
  datatype FacturowniaReq = InvoicesReq(token: string, page: nat)

  type FacturowniaServer<X> = (FacturowniaReq, nat) -> Answer<seq<X>>

  function Request(token: string): nat -> FacturowniaReq {
    (n: nat) => InvoicesReq(token, n)
  }

  /** `fetch_invoices(page)`: one retried request, each attempt waiting on
      the limiter first. */
  function FetchInvoices<X>(server: FacturowniaServer<X>, token: string, page: nat): (r: Run<seq<X>, FacturowniaReq>)
    ensures PacedSends(r.trace)
    ensures 1 <= |Sends(r.trace)|
    ensures forall i | 0 <= i < |Sends(r.trace)| :: Sends(r.trace)[i] == InvoicesReq(token, page)
  {
    RetriedCall(server, InvoicesReq(token, page), true)
  }

  /** No page is short: only an empty page ends the loop. */
  const NEVER_SHORT: nat := 0

  /** `start_data <= invoice.updated_at <= end_date`. */
  function InRange<X>(from: Instant, to: Instant, updatedAt: X -> Instant): X -> bool {
    x => from <= updatedAt(x) <= to
  }

  /** Every page as it is: the listing with no window. */
  function Whole<X>(page: seq<X>): seq<X> { page }

  // ---------------------------------------------------------------------
  // As written: `all_invoices.extend(invoices)` inside the invoice loop

  /** `page` repeated `k` times. */
  function Repeat<X>(page: seq<X>, k: nat): (r: seq<X>)
    ensures |r| == k * |page|
  {
    if k == 0 then [] else Repeat(page, k - 1) + page
  }

  /** What one page adds as written: the whole page, once for every invoice
      on it updated inside the window. */
  function PageAddsAsWritten<X>(from: Instant, to: Instant, updatedAt: X -> Instant, page: seq<X>): seq<X> {
    Repeat(page, |Filter(InRange(from, to, updatedAt), page)|)
  }

  function AsWritten<X>(from: Instant, to: Instant, updatedAt: X -> Instant): seq<X> -> seq<X> {
    page => PageAddsAsWritten(from, to, updatedAt, page)
  }

  /** `fetch_all_invoices(start_data, end_date)` as written. */
  function FetchAllInvoicesAsWritten<X>(server: FacturowniaServer<X>, token: string, from: Instant, to: Instant,
                                        updatedAt: X -> Instant, fuel: nat): Run<seq<X>, FacturowniaReq>
  {
    PageLoop(Fetcher(server, Request(token), true), AsWritten(from, to, updatedAt), NEVER_SHORT, 1, fuel)
  }

  /** The inner `for invoice in invoices` loop as written. */
  method ExtendAsWritten<X>(from: Instant, to: Instant, updatedAt: X -> Instant, page: seq<X>) returns (out: seq<X>)
    ensures out == PageAddsAsWritten(from, to, updatedAt, page)
  {
    var p := InRange(from, to, updatedAt);
    out := [];
    for i := 0 to |page|
      invariant out == Repeat(page, |Filter(p, page[..i])|)
    {
      assert page[..i + 1] == page[..i] + [page[i]];
      FilterAppend(p, page[..i], [page[i]]);
      assert Filter(p, [page[i]]) == if p(page[i]) then [page[i]] else [];
      if from <= updatedAt(page[i]) <= to {
        out := out + page;
      }
    }
    assert page[..|page|] == page;
  }

  /** A page of two invoices inside the window `[0, 10]` and one outside it
      adds, as written, the whole page twice: six invoices, the one outside
      the window among them, where the window holds two. */
  lemma AsWrittenRepeatsPage()
    ensures PageAddsAsWritten(0, 10, (t: Instant) => t, [5, 7, 50]) == [5, 7, 50, 5, 7, 50]
    ensures Filter(InRange(0, 10, (t: Instant) => t), [5, 7, 50]) == [5, 7]
  {
    var p := InRange(0, 10, (t: Instant) => t);
    var page: seq<Instant> := [5, 7, 50];
    assert page[1..] == [7, 50] && page[1..][1..] == [50] && page[1..][1..][1..] == [];
    assert Filter(p, [50]) == [] + Filter(p, []);
    assert Filter(p, page) == [5, 7];
    assert Repeat(page, 2) == Repeat(page, 1) + page;
    assert Repeat(page, 1) == [] + page;
  }

  // ---------------------------------------------------------------------
  // Corrected: each invoice updated inside the window, once

  function Filtered<X>(from: Instant, to: Instant, updatedAt: X -> Instant): seq<X> -> seq<X> {
    page => Filter(InRange(from, to, updatedAt), page)
  }

  /** `fetch_all_invoices(start_data, end_date)`: the invoices of every page
      updated inside the window, in listing order. */
  function FetchAllInvoices<X>(server: FacturowniaServer<X>, token: string, from: Instant, to: Instant,
                               updatedAt: X -> Instant, fuel: nat): (r: Run<seq<X>, FacturowniaReq>)
    ensures PacedSends(r.trace)
    ensures r.result.Success? ==> forall i | 0 <= i < |r.result.value| :: from <= updatedAt(r.result.value[i]) <= to
  {
    PageLoopPaced(server, Request(token), Filtered(from, to, updatedAt), NEVER_SHORT, 1, fuel);
    var fetch := Fetcher(server, Request(token), true);
    FilteredListing(fetch, InRange(from, to, updatedAt), 1, fuel);
    PageLoop(fetch, Filtered(from, to, updatedAt), NEVER_SHORT, 1, fuel)
  }

  /** The corrected loop reads the same pages as the unfiltered listing and
      returns exactly its invoices inside the window, in order. */
  lemma {:induction false} FilteredListing<X>(fetch: nat -> Run<seq<X>, FacturowniaReq>, p: X -> bool, n: nat, fuel: nat)
    ensures var r := PageLoop(fetch, page => Filter(p, page), NEVER_SHORT, n, fuel);
      var u := PageLoop(fetch, Whole, NEVER_SHORT, n, fuel);
      && r.trace == u.trace
      && (r.result.Success? <==> u.result.Success?)
      && (r.result.Failure? ==> r.result == u.result)
      && (r.result.Success? ==> r.result.value == Filter(p, u.result.value))
    decreases fuel
  {
    if fuel > 0 {
      var page := fetch(n);
      if page.result.Success? && page.result.value != [] {
        FilteredListing(fetch, p, n + 1, fuel - 1);
        var u := PageLoop(fetch, Whole, NEVER_SHORT, n + 1, fuel - 1);
        if u.result.Success? {
          FilterAppend(p, page.result.value, u.result.value);
        }
      } else if page.result.Success? {
        assert Filter(p, []) == [];
      }
    }
  }

  /** The inner `for invoice in invoices` loop, corrected. */
  method ExtendInRange<X>(from: Instant, to: Instant, updatedAt: X -> Instant, page: seq<X>) returns (out: seq<X>)
    ensures out == Filter(InRange(from, to, updatedAt), page)
  {
    var p := InRange(from, to, updatedAt);
    out := [];
    for i := 0 to |page|
      invariant out == Filter(p, page[..i])
    {
      assert page[..i + 1] == page[..i] + [page[i]];
      FilterAppend(p, page[..i], [page[i]]);
      assert Filter(p, [page[i]]) == if p(page[i]) then [page[i]] else [];
      if from <= updatedAt(page[i]) <= to {
        out := out + [page[i]];
      }
    }
    assert page[..|page|] == page;
  }

  /** `fetch_all_invoices` (corrected) as the source runs it: the page loop
      with the invoice loop inside. */
  method FetchAllInvoicesLoop<X>(server: FacturowniaServer<X>, token: string, from: Instant, to: Instant,
                                 updatedAt: X -> Instant, fuel: nat) returns (r: Run<seq<X>, FacturowniaReq>)
    ensures r == FetchAllInvoices(server, token, from, to, updatedAt, fuel)
  {
    var fetch, keep := Fetcher(server, Request(token), true), Filtered(from, to, updatedAt);
    var items: seq<X> := [];
    var trace: seq<Event<FacturowniaReq>> := [];
    var n: nat, left := 1, fuel;
    ghost var spec := PageLoop(fetch, keep, NEVER_SHORT, 1, fuel);
    ThenNothing(spec);
    while true
      invariant spec == Then(items, trace, PageLoop(fetch, keep, NEVER_SHORT, n, left))
      decreases left
    {
      if left == 0 {
        return Run(Failure(OutOfCalls), trace);
      }
      var page := RetriedCallM(server, InvoicesReq(token, n), true);
      assert page == fetch(n);
      PageStep(fetch, keep, NEVER_SHORT, n, left, items, trace);
      if page.result.Failure? {
        return Run(Failure(page.result.error), trace + page.trace);
      }
      var kept := ExtendInRange(from, to, updatedAt, page.result.value);
      if page.result.value == [] {
        return Run(Success(items), trace + page.trace);
      }
      assert kept == keep(page.result.value);
      ghost var (items0, trace0, n0, left0) := (items, trace, n, left);
      items, trace := items + kept, trace + page.trace;
      n, left := n + 1, left - 1;
      PageGoesOn(fetch, keep, NEVER_SHORT, n0, left0, items0, trace0, page, n, left, items, trace);
    }
  }
}
