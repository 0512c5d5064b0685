/** The page-number loops of the Etherscan, Bitfaktura and Fakturownia
    clients: `page` (or `n`) starts at 1 and grows by one; each page is one
    retried request; an empty page ends the loop, and so may a short one. */
module PageNumbers {
  import opened Wrappers
  import opened Http

  /** The loop from page `n`, with at most `fuel` more pages. `fetch(n)` is
      the retried request for page n; `keep` is what a page adds to the
      result; a non-empty page shorter than `short` is the last one (with
      `short == 0` only an empty page ends the loop). An error ends the loop
      and discards what was collected. */
  function PageLoop<X, Y, Req>(fetch: nat -> Run<seq<X>, Req>, keep: seq<X> -> seq<Y>, short: nat,
                               n: nat, fuel: nat): Run<seq<Y>, Req>
    decreases fuel
  {
    if fuel == 0 then Run(Failure(OutOfCalls), [])
    else
      var page := fetch(n);
      if page.result.Failure? then Run(Failure(page.result.error), page.trace)
      else if page.result.value == [] then Run(Success([]), page.trace)
      else if |page.result.value| < short then Run(Success(keep(page.result.value)), page.trace)
      else Then(keep(page.result.value), page.trace, PageLoop(fetch, keep, short, n + 1, fuel - 1))
  }

  /** The retried request for each page number. */
  function Fetcher<X, Req>(server: (Req, nat) -> Answer<seq<X>>, request: nat -> Req, paced: bool): nat -> Run<seq<X>, Req> {
    (n: nat) => RetriedCall(server, request(n), paced)
  }

  /** The `while True` loop as the source runs it, from page 1. */
  method PageLoopM<X, Y, Req>(server: (Req, nat) -> Answer<seq<X>>, request: nat -> Req, paced: bool,
                              keep: seq<X> -> seq<Y>, short: nat, fuel: nat) returns (r: Run<seq<Y>, Req>)
    ensures r == PageLoop(Fetcher(server, request, paced), keep, short, 1, fuel)
  {
    var fetch := Fetcher(server, request, paced);
    var items: seq<Y> := [];
    var trace: seq<Event<Req>> := [];
    var n: nat, left := 1, fuel;
    ghost var spec := PageLoop(fetch, keep, short, 1, fuel);
    ThenNothing(spec);
    while true
      invariant spec == Then(items, trace, PageLoop(fetch, keep, short, n, left))
      decreases left
    {
      if left == 0 {
        return Run(Failure(OutOfCalls), trace);
      }
      var page := RetriedCallM(server, request(n), paced);
      assert page == fetch(n);
      PageStep(fetch, keep, short, n, left, items, trace);
      if page.result.Failure? {
        return Run(Failure(page.result.error), trace + page.trace);
      }
      if page.result.value == [] {
        return Run(Success(items), trace + page.trace);
      }
      if |page.result.value| < short {
        return Run(Success(items + keep(page.result.value)), trace + page.trace);
      }
      ghost var (items0, trace0, n0, left0) := (items, trace, n, left);
      items, trace := items + keep(page.result.value), trace + page.trace;
      n, left := n + 1, left - 1;
      PageGoesOn(fetch, keep, short, n0, left0, items0, trace0, page, n, left, items, trace);
    }
  }

  /** One round of the page loop, after `items` were collected and `trace`
      produced. */
  lemma PageStep<X, Y, Req>(fetch: nat -> Run<seq<X>, Req>, keep: seq<X> -> seq<Y>, short: nat,
                            n: nat, fuel: nat, items: seq<Y>, trace: seq<Event<Req>>)
    requires fuel > 0
    ensures var page := fetch(n);
      Then(items, trace, PageLoop(fetch, keep, short, n, fuel)) ==
        if page.result.Failure? then Run(Failure(page.result.error), trace + page.trace)
        else if page.result.value == [] then Run(Success(items), trace + page.trace)
        else if |page.result.value| < short then Run(Success(items + keep(page.result.value)), trace + page.trace)
        else Then(items + keep(page.result.value), trace + page.trace, PageLoop(fetch, keep, short, n + 1, fuel - 1))
  {
    var page := fetch(n);
    if page.result.Success? && page.result.value == [] {
      assert items + [] == items;
    } else if page.result.Success? && |page.result.value| >= short {
      ThenThen(items, trace, keep(page.result.value), page.trace, PageLoop(fetch, keep, short, n + 1, fuel - 1));
    }
  }

  /** A full page moves the loop on to the next page number with its items
      collected and its trace produced. */
  lemma PageGoesOn<X, Y, Req>(fetch: nat -> Run<seq<X>, Req>, keep: seq<X> -> seq<Y>, short: nat,
                              n: nat, fuel: nat, items: seq<Y>, trace: seq<Event<Req>>, page: Run<seq<X>, Req>,
                              n': nat, fuel': nat, items': seq<Y>, trace': seq<Event<Req>>)
    requires fuel > 0 && page == fetch(n) && Full(page, short)
    requires n' == n + 1 && fuel' == fuel - 1
    requires items' == items + keep(page.result.value) && trace' == trace + page.trace
    ensures Then(items, trace, PageLoop(fetch, keep, short, n, fuel)) ==
      Then(items', trace', PageLoop(fetch, keep, short, n', fuel'))
  {
    PageStep(fetch, keep, short, n, fuel, items, trace);
  }

  /** A page that the loop goes on after: non-empty and not short. */
  predicate Full<X, Req>(page: Run<seq<X>, Req>, short: nat) {
    page.result.Success? && page.result.value != [] && |page.result.value| >= short
  }

  /** A page that ends the loop successfully: empty or short. */
  predicate Last<X, Req>(page: Run<seq<X>, Req>, short: nat) {
    page.result.Success? && (page.result.value == [] || |page.result.value| < short)
  }

  /** What pages `n .. n + k - 1` add, in page order. */
  function KeptFrom<X, Y, Req>(fetch: nat -> Run<seq<X>, Req>, keep: seq<X> -> seq<Y>, n: nat, k: nat): seq<Y>
    decreases k
  {
    if k == 0 then []
    else (if fetch(n).result.Success? then keep(fetch(n).result.value) else []) + KeptFrom(fetch, keep, n + 1, k - 1)
  }

  /** The events of pages `n .. n + k - 1`, in page order. */
  function TraceFrom<X, Req>(fetch: nat -> Run<seq<X>, Req>, n: nat, k: nat): seq<Event<Req>>
    decreases k
  {
    if k == 0 then [] else fetch(n).trace + TraceFrom(fetch, n + 1, k - 1)
  }

  /** `k` full pages then a last one: the loop asks for exactly pages `n`
      to `n + k`, in order, and returns what they add, in page order. */
  lemma {:induction false} FullPagesThenLast<X, Y, Req>(fetch: nat -> Run<seq<X>, Req>, keep: seq<X> -> seq<Y>,
                                                        short: nat, n: nat, k: nat, fuel: nat)
    requires keep([]) == []
    requires forall p | n <= p < n + k :: Full(fetch(p), short)
    requires Last(fetch(n + k), short)
    requires fuel > k
    ensures PageLoop(fetch, keep, short, n, fuel) ==
      Run(Success(KeptFrom(fetch, keep, n, k + 1)), TraceFrom(fetch, n, k + 1))
    decreases k
  {
    var page := fetch(n);
    if k == 0 {
      assert Last(page, short);
      assert KeptFrom(fetch, keep, n + 1, 0) == [] && TraceFrom(fetch, n + 1, 0) == [];
      assert KeptFrom(fetch, keep, n, 1) == keep(page.result.value) + [];
      assert TraceFrom(fetch, n, 1) == page.trace + [];
      if page.result.value == [] {
        assert keep(page.result.value) == [];
      }
      assert PageLoop(fetch, keep, short, n, fuel).result == Success(keep(page.result.value));
      assert PageLoop(fetch, keep, short, n, fuel).trace == page.trace;
      assert KeptFrom(fetch, keep, n, k + 1) == keep(page.result.value);
      assert TraceFrom(fetch, n, k + 1) == page.trace;
    } else {
      assert Full(fetch(n), short);
      assert n + 1 + (k - 1) == n + k;
      FullPagesThenLast(fetch, keep, short, n + 1, k - 1, fuel - 1);
    }
  }

  /** `k` full pages then a failing one: the error escapes and nothing
      collected is returned. */
  lemma {:induction false} FailureDiscards<X, Y, Req>(fetch: nat -> Run<seq<X>, Req>, keep: seq<X> -> seq<Y>,
                                                      short: nat, n: nat, k: nat, fuel: nat)
    requires forall p | n <= p < n + k :: Full(fetch(p), short)
    requires fetch(n + k).result.Failure?
    requires fuel > k
    ensures PageLoop(fetch, keep, short, n, fuel) ==
      Run(Failure(fetch(n + k).result.error), TraceFrom(fetch, n, k + 1))
    decreases k
  {
    var page := fetch(n);
    if k == 0 {
      assert TraceFrom(fetch, n, 1) == page.trace + [];
    } else {
      assert Full(fetch(n), short);
      assert n + 1 + (k - 1) == n + k;
      FailureDiscards(fetch, keep, short, n + 1, k - 1, fuel - 1);
    }
  }

  /** When every page's requests are paced, so are the loop's. */
  lemma {:induction false} PageLoopPaced<X, Y, Req>(server: (Req, nat) -> Answer<seq<X>>, request: nat -> Req,
                                                    keep: seq<X> -> seq<Y>, short: nat, n: nat, fuel: nat)
    ensures PacedSends(PageLoop(Fetcher(server, request, true), keep, short, n, fuel).trace)
    decreases fuel
  {
    var fetch := Fetcher(server, request, true);
    if fuel > 0 {
      var page := fetch(n);
      assert page == RetriedCall(server, request(n), true);
      if page.result.Success? && page.result.value != [] && |page.result.value| >= short {
        PageLoopPaced(server, request, keep, short, n + 1, fuel - 1);
        PacedAppend(page.trace, PageLoop(fetch, keep, short, n + 1, fuel - 1).trace);
      }
    }
  }

  /** When no page waits on a limiter, the loop never does. */
  lemma {:induction false} PageLoopNoWaits<X, Y, Req>(server: (Req, nat) -> Answer<seq<X>>, request: nat -> Req,
                                                      keep: seq<X> -> seq<Y>, short: nat, n: nat, fuel: nat)
    ensures NoWaits(PageLoop(Fetcher(server, request, false), keep, short, n, fuel).trace)
    decreases fuel
  {
    var fetch := Fetcher(server, request, false);
    if fuel > 0 {
      var page := fetch(n);
      assert page == RetriedCall(server, request(n), false);
      if page.result.Success? && page.result.value != [] && |page.result.value| >= short {
        var rest := PageLoop(fetch, keep, short, n + 1, fuel - 1).trace;
        PageLoopNoWaits(server, request, keep, short, n + 1, fuel - 1);
        forall i | 0 <= i < |page.trace + rest| ensures !(page.trace + rest)[i].Wait? {
          if i >= |page.trace| { assert (page.trace + rest)[i] == rest[i - |page.trace|]; }
        }
      }
    }
  }

  // ---------------------------------------------------------------------
  // Against a server that answers every page at once

  /** One request per page `n .. n + k - 1`, each behind a wait when paced. */
  function Rounds<Req>(request: nat -> Req, paced: bool, n: nat, k: nat): (trace: seq<Event<Req>>)
    ensures |Sends(trace)| == k
    ensures forall i | 0 <= i < k :: Sends(trace)[i] == request(n + i)
    decreases k
  {
    if k == 0 then []
    else
      var send: seq<Event<Req>> := [Send(request(n))];
      var wait: seq<Event<Req>> := if paced then [Wait] else [];
      var head := wait + send;
      var rest := Rounds(request, paced, n + 1, k - 1);
      assert Sends(send) == [request(n)] by { assert send[1..] == []; }
      assert Sends(wait) == [] by { assert paced ==> wait[1..] == []; }
      SendsAppend(wait, send);
      SendsAppend(head, rest);
      assert forall i | 1 <= i < k :: Sends(head + rest)[i] == Sends(rest)[i - 1];
      head + rest
  }

  /** The first answers to pages `n .. n + k - 1`, concatenated. */
  predicate AnswersAtOnce<X, Req>(server: (Req, nat) -> Answer<seq<X>>, request: nat -> Req, n: nat, k: nat) {
    forall p: nat | n <= p < n + k :: server(request(p), 0).Got?
  }

  /** A server that answers at once costs one request per page. */
  lemma {:induction false} AnswersAtOnceRounds<X, Req>(server: (Req, nat) -> Answer<seq<X>>, request: nat -> Req,
                                                       paced: bool, n: nat, k: nat)
    requires AnswersAtOnce(server, request, n, k)
    ensures TraceFrom(Fetcher(server, request, paced), n, k) == Rounds(request, paced, n, k)
    ensures forall p: nat | n <= p < n + k ::
      server(request(p), 0).Got? && Fetcher(server, request, paced)(p).result == Success(server(request(p), 0).page)
    decreases k
  {
    forall p: nat | n <= p < n + k
      ensures server(request(p), 0).Got? && Fetcher(server, request, paced)(p).result == Success(server(request(p), 0).page)
    {
      ReliableServerAnswersOnce(server, request(p), paced);
    }
    if k > 0 {
      ReliableServerAnswersOnce(server, request(n), paced);
      AnswersAtOnceRounds(server, request, paced, n + 1, k - 1);
    }
  }

  /** What the first answers to pages `n .. n + k - 1` add, in page order. */
  function FirstAnswers<X, Y, Req>(server: (Req, nat) -> Answer<seq<X>>, request: nat -> Req,
                                   keep: seq<X> -> seq<Y>, n: nat, k: nat): seq<Y>
    requires AnswersAtOnce(server, request, n, k)
    decreases k
  {
    if k == 0 then [] else keep(server(request(n), 0).page) + FirstAnswers(server, request, keep, n + 1, k - 1)
  }

  lemma {:induction false} AnswersAtOnceKept<X, Y, Req>(server: (Req, nat) -> Answer<seq<X>>, request: nat -> Req,
                                                        paced: bool, keep: seq<X> -> seq<Y>, n: nat, k: nat)
    requires AnswersAtOnce(server, request, n, k)
    ensures KeptFrom(Fetcher(server, request, paced), keep, n, k) == FirstAnswers(server, request, keep, n, k)
    decreases k
  {
    if k > 0 {
      ReliableServerAnswersOnce(server, request(n), paced);
      AnswersAtOnceKept(server, request, paced, keep, n + 1, k - 1);
    }
  }

  /** Against a server that answers every page at once, `k` full pages and
      then a last one: the loop returns what the pages fetched add and the
      trace of those fetches. */
  lemma ReliableLoop<X, Y, Req>(server: (Req, nat) -> Answer<seq<X>>, request: nat -> Req, paced: bool,
                                keep: seq<X> -> seq<Y>, short: nat, k: nat, fuel: nat)
    requires keep([]) == []
    requires AnswersAtOnce(server, request, 1, k + 1)
    requires forall p: nat | 1 <= p <= k :: server(request(p), 0).page != [] && |server(request(p), 0).page| >= short
    requires server(request(k + 1), 0).page == [] || |server(request(k + 1), 0).page| < short
    requires fuel > k
    ensures PageLoop(Fetcher(server, request, paced), keep, short, 1, fuel) ==
      Run(Success(KeptFrom(Fetcher(server, request, paced), keep, 1, k + 1)), TraceFrom(Fetcher(server, request, paced), 1, k + 1))
  {
    var fetch := Fetcher(server, request, paced);
    forall p | 1 <= p < 1 + k
      ensures Full(fetch(p), short)
    {
      ReliableServerAnswersOnce(server, request(p), paced);
    }
    ReliableServerAnswersOnce(server, request(1 + k), paced);
    FullPagesThenLast(fetch, keep, short, 1, k, fuel);
  }

  /** Against a server that answers every page at once, `k` full pages and
      then an empty or short one: exactly `k + 1` requests, for pages 1 to
      `k + 1` in order, and everything those pages add, in page order. */
  lemma ReliablePages<X, Y, Req>(server: (Req, nat) -> Answer<seq<X>>, request: nat -> Req, paced: bool,
                                 keep: seq<X> -> seq<Y>, short: nat, k: nat, fuel: nat)
    requires keep([]) == []
    requires AnswersAtOnce(server, request, 1, k + 1)
    requires forall p: nat | 1 <= p <= k :: server(request(p), 0).page != [] && |server(request(p), 0).page| >= short
    requires server(request(k + 1), 0).page == [] || |server(request(k + 1), 0).page| < short
    requires fuel > k
    ensures PageLoop(Fetcher(server, request, paced), keep, short, 1, fuel) ==
      Run(Success(FirstAnswers(server, request, keep, 1, k + 1)), Rounds(request, paced, 1, k + 1))
    ensures |Sends(PageLoop(Fetcher(server, request, paced), keep, short, 1, fuel).trace)| == k + 1
  {
    ReliableLoop(server, request, paced, keep, short, k, fuel);
    AnswersAtOnceRounds(server, request, paced, 1, k + 1);
    AnswersAtOnceKept(server, request, paced, keep, 1, k + 1);
  }
}
