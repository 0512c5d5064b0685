# API_finance payment pipeline, modelled in Dafny

This project models the `app/` pipeline of API_finance. The pipeline pulls
transactions from payment providers: Monobank, PrivatBank, Portmone,
Etherscan (ERC20), Tronscan (TRC20), Bitfaktura and Fakturownia. It maps
each one onto the 17-field `TransactionRecord`, removes duplicates per
provider, and builds the SQL text that upserts the records into a BigQuery
table.

HTTP servers are oracles. Each takes a request and the number of times that
same request was already sent in a row, and returns a page, a
`RequestException` or a validation failure. A fetch loop returns its result
together with the trace of events it produced: limiter waits, requests and
sleeps. The BigQuery client is an object that logs the calls made on it and
keeps, as ghost state, the tables those calls produced: a MERGE updates the
matched rows and inserts the unmatched ones.

## Model

| member | source | states |
|---|---|---|
| Retry.Attempts | app/helpers/retry_context.py:68-70 | the budget is the number of real delays: the tuple's length, less one when it ends with `...` |
| Retry.NextDelay | app/helpers/retry_context.py:105-113 | inside the budget: the delay at the index, and the index advances; past it the index stays, and the step is the last real delay (infinite) or None (finite) |
| Retry.RetryContext.GetDelay | app/helpers/retry_context.py:105-113 | the step returned and the new index are those of `NextDelay` on the old index |
| Retry.RetryContext.Reset | app/helpers/retry_context.py:124-125 | the index is 0 again; the schedule is a constant |
| Retry.RetryContext.Copy | app/helpers/retry_context.py:99-100 | a fresh context with the same name and schedule and index 0 |
| Retry.AttemptExit | app/helpers/retry_context.py:23-32 | a normal exit or an unmatched exception propagates and leaves the index alone; a matched one consumes one step and is suppressed with that delay, propagated when the budget is spent |
| Retry.CallWithRetry | app/helpers/retry_context.py:133-142 | the wrapper loop on a fresh copy equals `RetrySpec` from invocation 0 and index 0 |
| Retry.CountsOfPrefix | app/helpers/retry_context.py:30-32 | a suppressed failure adds exactly one call, one warning naming the returned delay and one sleep of that delay |
| Retry.RetriesAreWarned | app/helpers/retry_context.py:115-122 | in every run of the wrapper, each sleep comes right after the warning that names its delay, and each warning is followed by that sleep |
| Retry.FiniteScheduleExhausts | app/helpers/retry_context.py:27-142 | against an always-failing call, a finite schedule of n delays makes n+1 calls, warns of and sleeps the delays in order, and propagates the last error |
| Retry.FiniteScheduleFinishes | app/helpers/retry_context.py:105-112 | a finite schedule always decides within its budget plus one calls |
| Retry.InfiniteScheduleRetriesUntilSuccess | app/helpers/retry_context.py:109-110 | with a trailing `...`, failures are retried until the first success, warning of and sleeping the schedule and then its last real delay forever |
| RateLimiting.Refilled | app/helpers/sync_rate_limiter.py:14-21 | the refill never exceeds `max_calls`, never loses tokens on a non-decreasing clock, and is exactly `tokens + elapsed * max_calls / period` below the cap |
| RateLimiting.WaitStep | app/helpers/sync_rate_limiter.py:13-27 | with at least one token, no sleep and one token consumed; with fewer, the bucket empties and the sleep is exactly `(1 - tokens) * period / max_calls`, positive; `0 <= tokens <= max_calls - 1` afterwards; `_last_time` is the pre-sleep clock |
| RateLimiting.SleepRefillsToken | app/helpers/sync_rate_limiter.py:22-25 | sleeping `missing * period / max_calls` earns exactly `missing` tokens at the bucket's rate |
| RateLimiting.AsWrittenRefillsSleptToken | app/helpers/sync_rate_limiter.py:15-25 | because `_last_time` is set before the sleep, the token a sleeping call waited for is in the bucket again for the call made when it returns |
| RateLimiting.AsWrittenDoublesRate | app/helpers/sync_rate_limiter.py:13-27 | two calls on a bucket just emptied both return one token time later, so the calls returned exceed the tokens earned |
| RateLimiting.WaitStepCorrected | app/helpers/sync_rate_limiter.py:13-27 | the same sleep and token count as `wait()`, with the bucket's clock set to when the call returns |
| RateLimiting.ReleasesCorrected | app/helpers/sync_rate_limiter.py:13-27 | one return time per call; the bucket's clock ends at the last call's return |
| RateLimiting.CorrectedSpendsSleptToken | app/helpers/sync_rate_limiter.py:22-25 | corrected, the bucket is empty when a sleeping call returns |
| RateLimiting.StepSpends | app/helpers/sync_rate_limiter.py:13-27 | corrected, every call spends one token, earned before it or during its sleep |
| RateLimiting.SpentTokens | app/helpers/sync_rate_limiter.py:13-27 | corrected, any run of calls spends a token per call out of the tokens held plus those earned |
| RateLimiting.CorrectedRateBound | app/helpers/sync_rate_limiter.py:5-27 | corrected, `k` calls have not all returned before `(k - tokens) * period / max_calls` after the bucket's clock: at most `max_calls` per `period` beyond the tokens held |
| RateLimiting.CorrectedKeepsRate | app/helpers/sync_rate_limiter.py:13-27 | corrected, the two calls of `AsWrittenDoublesRate` return one token time apart |
| RateLimiting.BurstOfWholeTokens | app/helpers/sync_rate_limiter.py:22-27 | with n whole tokens and no elapsed time, k <= n calls never sleep and leave n - k tokens |
| RateLimiting.FullBucketBurst | app/helpers/sync_rate_limiter.py:10-27 | from a full bucket, `max_calls` back-to-back calls never sleep and the next one sleeps `period / max_calls` |
| RateLimiting.RateLimiter.Create | app/helpers/sync_rate_limiter.py:5-11 | fails with ValueError exactly when `max_calls <= 0` or `period <= 0`; otherwise the bucket starts full |
| RateLimiting.RateLimiter.Wait | app/helpers/sync_rate_limiter.py:13-27 | the new bucket and the sleep are `WaitStep` of the old bucket; the bucket stays valid; the sleep is logged |
| Timing.ElapsedTimer.Elapsed | app/helpers/elapsed_timer.py:18-23 | None before a start; the frozen span after a stop; `now - start` while running |
| Timing.ElapsedTimer.Start | app/helpers/elapsed_timer.py:9-11 | the timer runs from `now` and any earlier stop is cleared |
| Timing.ElapsedTimer.Stop | app/helpers/elapsed_timer.py:13-16 | RuntimeError exactly when never started; otherwise the span is frozen at `now - start` |
| Timing.ElapsedTimer.Reset | app/helpers/elapsed_timer.py:25-27 | elapsed is None at every time |
| Timing.TimedBlock | app/helpers/elapsed_timer.py:29-34 | the block's exception propagates unchanged and the timer reports exit minus enter time |
| Windows.RangeGenLoop | app/helpers/misc.py:5-14 | the generator loop yields exactly `RangeGen` |
| Windows.RangeGenEmpty | app/helpers/misc.py:11 | no window exactly when `start >= end` |
| Windows.RangeGenTiles | app/helpers/misc.py:10-14 | first window starts at start, last ends at end, each non-empty and at most delta wide, each starting where the previous ended |
| Windows.RangeGenCount | app/helpers/misc.py:11-14 | there are exactly ⌈(end − start) / delta⌉ windows |
| Windows.LegacyRangesLoop | main.py:12-17 | the generator loop yields exactly `LegacyRanges` |
| Windows.LegacyRangesBounded | main.py:14-17 | each window has `start <= end <= end_date`, at most `delta_days` days, and the next starts the day after |
| Windows.LegacyRangesMissEndDay | main.py:14-17 | from day 0 to day 31 with the default 31 days, the only window is (0, 30) and day 31 is not covered |
| Windows.DateRangesCover | main.py:12-17 | the corrected splitter covers exactly the days of `[start, end]`, in windows of at most `delta_days` days that follow each other without gap or overlap |
| Records.Cells | app/schemas.py:7-24 | 17 cells in declaration order, each admitted by its field's annotation, the last one the transaction id |
| Records.NewRecord | app/schemas.py:8-24 | only the transaction id is needed; every other field defaults to None |
| Records.OnlyTransactionIdRequired | app/schemas.py:8-24 | the only bare annotation is `transaction_id: str`; the other 16 are `X \| None` |
| Records.LookupOrSelf | app/constants.py:3-9 | `currency_codes.get(k, k)`: the table's entry for a known int code, the key itself otherwise |
| Records.AsOptionalText | app/schemas.py:15 | a `str \| None` field accepts a string or None and rejects an int |
| Records.TextKeyFallsBack | app/constants.py:3-9 | with the int-keyed table, a string key always falls back to itself |
| PyText.NatDigitsRoundTrip | app/payments/bitfaktura/schemas.py:193 | reading back the decimal digits of a natural gives the natural |
| PyText.IntTextRoundTrip | app/payments/bitfaktura/schemas.py:193 | `str(i)` parses back to i |
| PyText.IntTextInjective | app/payments/bitfaktura/schemas.py:193 | distinct ints have distinct `str` |
| Wrappers.MapAll | app/payments/mono/scanner.py:46-50 | succeeds iff every item maps; then item i of the result is the mapping of input i; otherwise the error is some item's error |
| Wrappers.MapEach | app/payments/mono/scanner.py:46-50 | the append loop returns `MapAll` |
| Http.Then | app/payments/mono/api.py:91 | collected items are kept ahead of the rest's; any later error discards them |
| Http.ForEachConcat | app/payments/mono/scanner.py:53-57 | the loop succeeds iff every item's work does and then returns their results concatenated in item order; otherwise it fails with the first failing item's error, after the work up to it |
| Http.RetriedCall | app/payments/portmone/api.py:34 | one to five requests for the same request, each behind a wait when paced; the error, if any, is a request or validation error |
| Http.RetriedCallM | app/helpers/retry_context.py:133-142 | a fresh context per call, equal to `RetriedCall` |
| Http.ReliableServerAnswersOnce | app/helpers/retry_context.py:140-142 | a server that answers at once is asked exactly once |
| Http.InvalidIsNotRetried | app/helpers/retry_context.py:24-25 | a validation failure is not a `RequestException`: one request, then the error |
| Http.PersistentFailureGivesUp | app/helpers/retry_context.py:27-142 | a server that always fails gets exactly five requests and the call fails with a request error |
| MonoSchemas.FromMinorUnits | app/payments/mono/schemas.py:51-53 | None for None; otherwise the exact |v| / 100, so 0 gives 0 |
| MonoSchemas.OrElse | app/payments/mono/schemas.py:64 | Python `or`: the first code unless it is None or 0 |
| MonoSchemas.ToRecord | app/payments/mono/schemas.py:56-89 | fails (validation) exactly when the effective currency code is an int the table lacks; debit iff amount < 0; currency from the table; all other fields as copied |
| MonoSchemas.MoneyIsNonNegative | app/payments/mono/schemas.py:75-81 | every money field of a mapped record is None or non-negative |
| MonoSchemas.CurrencyFallback | app/payments/mono/schemas.py:64-65 | for every transaction and account: a known non-zero transaction code gives its currency whatever the account's; a missing or zero code maps exactly as if the transaction carried the account's code |
| MonoApi.FetchClientInfo | app/payments/mono/api.py:39-44 | one paced request; success iff the server answers with client info |
| MonoApi.ChunkFrom | app/payments/mono/api.py:81-82 | a chunk starts at most 2 682 000 s back and never before `from` |
| MonoApi.FetchAll | app/payments/mono/api.py:77-80 | no request when `to <= from` |
| MonoApi.FetchChunk | app/payments/mono/api.py:84-108 | the inner loop: either the chunk ends and the walk goes on from the chunk start, or the fetch ends with the error |
| MonoApi.FetchAllTransactions | app/payments/mono/api.py:69-112 | the nested loops compute `FetchAll` |
| MonoApi.WalkIsPaced | app/payments/mono/api.py:40-53 | every request is immediately preceded by a limiter wait |
| MonoApi.WalkStaysInWindow | app/payments/mono/api.py:80-100 | against a server that keeps items inside the request window, every request lies within `[from, to]` and is never wider than 2 682 000 s |
| MonoApi.TooManyRequestsRepeatsRequest | app/payments/mono/api.py:101-108 | n consecutive 429s without Retry-After give n sleeps of 60 s, each after the same request |
| MonoApi.BackwardChunksCount | app/payments/mono/api.py:80-110 | there are ⌈(to − from) / 2 682 000⌉ backward chunks |
| MonoApi.QuietWalkRequestsEachChunkOnce | app/payments/mono/api.py:80-110 | against a server that always answers with a short page, the walk requests each backward chunk once, newest first, and succeeds |
| Config.ScanWindow | app/payments/mono/scanner.py:28-29 | the window ends now and is exactly `days` days long |
| Config.UnixSeconds | app/payments/mono/api.py:77-78 | whole seconds truncated toward zero |
| MonoScanner.AccountRecords | app/payments/mono/scanner.py:43-50 | every fetched transaction is mapped exactly once, in order, with the ISO 4217 table |
| MonoScanner.WorkWithItem | app/payments/mono/scanner.py:25-51 | one client-info request first; then the accounts in listed order, their records concatenated |
| MonoScanner.WorkWithItemLoop | app/payments/mono/scanner.py:25-51 | the nested loops compute `WorkWithItem` |
| MonoScanner.Scan | app/payments/mono/scanner.py:53-57 | success iff every item succeeds; then the items' records concatenated in item order |
| MonoScanner.ScanLoop | app/payments/mono/scanner.py:53-57 | the loop computes `Scan` |
| PrivatSchemas.ParseDateTime | app/payments/privat/schemas.py:47-52 | a string parses in Europe/Kyiv time or fails validation; a datetime or None passes through unchanged |
| PrivatSchemas.NameOf | app/payments/privat/schemas.py:107 | `acc_name_map.get(AUT_MY_ACC)`: a name exactly when the account is a key, and then that key's name |
| PrivatSchemas.ToRecord | app/payments/privat/schemas.py:95-122 | fails exactly when the date (AttributeError) or the id (ValidationError) is missing; "debit" iff TRANTYPE is "D", "credit" otherwise; bank "privatbank"; the account name from the map; the other fields copied or None |
| PrivatSchemas.AccNameMap | app/payments/privat/scanner.py:37 | the map's keys are exactly the balances' accounts |
| PrivatSchemas.AccNameMapLastWins | app/payments/privat/scanner.py:37 | an account's name is that of its last balance |
| PrivatApi.EmptyCursor | app/payments/privat/api.py:35-51 | the statement request sends an empty `followId`; the balance request drops it, as `if follow_id:` does; any other cursor is sent |
| PrivatApi.FetchAllTransactions | app/payments/privat/api.py:23-75 | every request is preceded by a limiter wait and is a statement request with the token and both formatted dates |
| PrivatApi.FetchAllBalances | app/payments/privat/api.py:44-89 | every request is preceded by a limiter wait and is a balance request with the token |
| PrivatApi.CursorLoop | app/payments/privat/api.py:59-75 | the `while True` loop computes `Cursor` from no cursor |
| PrivatApi.CursorStep | app/payments/privat/api.py:66-75 | one round: a request error or a validation error ends the loop; a status other than SUCCESS raises RuntimeError; the page's items are kept; the loop ends on `exist_next_page` false and otherwise follows `next_page_id` |
| PrivatApi.CursorPrefix | app/payments/privat/api.py:66-75 | a run of continuing pages contributes their items, in order, ahead of the rest of the walk, which goes on from the last cursor |
| PrivatApi.CursorEnds | app/payments/privat/api.py:68-73 | a last SUCCESS page ends the walk with its items after one request; a non-SUCCESS page raises RuntimeError |
| PrivatApi.CursorSendsOnly | app/payments/privat/api.py:66-75 | every request sent is one the endpoint builds from some cursor |
| LegacyPrivatApi.FetchAllTransactions | app/privat/api.py:59-76 | the legacy client never waits on a limiter |
| LegacyPrivatApi.RoundsAlternate | app/privat/api.py:66-76 | continuing pages give request, sleep, request, sleep, … |
| LegacyPrivatApi.SleepsOnlyBetweenPages | app/privat/api.py:66-76 | a walk of continuing pages and a final one returns all their items and alternates requests and `DELAY` sleeps, with no sleep after the last request |
| PrivatScanner.WorkWithItem | app/payments/privat/scanner.py:23-45 | balances first, then the statement, all with the item's key and paced; success iff both fetches and every mapping succeed; then record i is the mapping of transaction i with the balances' names |
| PrivatScanner.WorkWithItemLoop | app/payments/privat/scanner.py:23-45 | the source's statements and append loop compute `WorkWithItem` |
| PrivatScanner.Scan | app/payments/privat/scanner.py:47-51 | success iff every item succeeds; then the items' records concatenated in item order |
| PrivatScanner.ScanLoop | app/payments/privat/scanner.py:47-51 | the loop computes `Scan` |
| PortmoneSchemas.ParsePayDate | app/payments/portmone/schemas.py:51-56 | a string parses in Europe/Kyiv time or fails validation; a datetime passes; a missing date fails as a required field |
| PortmoneSchemas.ParsePayOrderAmount | app/payments/portmone/schemas.py:58-62 | "" gives None; another string gives its Decimal or raises InvalidOperation; a number or None passes |
| PortmoneSchemas.AndAbs | app/payments/portmone/schemas.py:86 | `v and abs(v)`: None stays None; otherwise the absolute value, never negative |
| PortmoneSchemas.OrEmpty | app/payments/portmone/schemas.py:75-77 | `v or ""`: the string itself, or "" for None |
| PortmoneSchemas.TransactionType | app/payments/portmone/schemas.py:66-72 | "PAYED" gives "debit", "CREATED" gives "invoice", any other status is kept |
| PortmoneSchemas.ToRecord | app/payments/portmone/schemas.py:65-106 | pay date, "portmone", payee name, no account number, the type of `TransactionType`; both amounts the same absolute bill amount (None iff absent); "UAH"; commission the absolute payee commission; the joined card and error details; the shop bill id |
| PortmoneSchemas.EmptyPartsKeepSeparators | app/payments/portmone/schemas.py:73-85 | with no card or error data the details are ", , " and the comment ", " |
| PortmoneApi.FetchPayments | app/payments/portmone/api.py:34-57 | one to five POSTs, all for the same window and credentials, each behind a limiter wait |
| PortmoneApi.FetchAllPayments | app/payments/portmone/api.py:59-69 | nothing for an empty window; otherwise success iff every 31-day window's fetch succeeds, and then the payments concatenated in window order |
| PortmoneApi.FetchAllPaymentsLoop | app/payments/portmone/api.py:59-69 | the loop over the generator computes `FetchAllPayments` |
| PortmoneApi.OneRequestPerWindow | app/payments/portmone/api.py:59-69 | a gateway that answers at once gets one wait and one request per window, in window order, and there are ⌈(end − start) / 31 days⌉ of them |
| PortmoneScanner.ScanAsWrittenAlwaysFails | app/payments/portmone/scanner.py:23-29 | as written, any configured item fails the scan with AttributeError before a request is made |
| PortmoneScanner.WorkWithItem | app/payments/portmone/scanner.py:22-43 | the window `[now - days, now]`; the fetch's trace and error; on success record i is the mapping of payment i |
| PortmoneScanner.Scan | app/payments/portmone/scanner.py:45-49 | success iff every item succeeds; then the items' records concatenated in item order |
| PortmoneScanner.ScanLoop | app/payments/portmone/scanner.py:45-49 | the loop computes `Scan` |
| EtherscanSchemas.ToRecord | app/payments/etherscan/schemas.py:49-84 | an unparsable `tokenDecimal` raises ValueError and a negative one TypeError; otherwise "debit" iff the casefolded `to` is the wallet, the counterparty is `from` for a debit and `to` for a credit, and both amounts are the non-negative value scaled down by 10^decimals; block time, "ERC20", the wallet, the token symbol and the hash |
| EtherscanApi.FetchTransactions | app/payments/etherscan/api.py:20-36 | the retried request never waits on a limiter and always asks for the given page of `DEFAULT_LIMIT` transfers with the key |
| EtherscanApi.FetchAllTransactions | app/payments/etherscan/api.py:38-50 | the page walk never waits on a limiter |
| EtherscanApi.FetchAllTransactionsLoop | app/payments/etherscan/api.py:38-50 | the `while True` loop computes `FetchAllTransactions` |
| EtherscanApi.FullPagesThenShort | app/payments/etherscan/api.py:41-50 | k full pages and then a short or empty one give k + 1 requests for pages 1 to k + 1 and all their transfers in page order |
| EtherscanScanner.WorkWithItem | app/payments/etherscan/scanner.py:21-45 | the fixed wallet's transfers are fetched without waits; on success one record per transfer dated in the last 365 days, in order, each the mapping of that transfer; a fetch error is the item's error |
| EtherscanScanner.WindowRecords | app/payments/etherscan/scanner.py:39-43 | every record kept is dated inside the window and booked on the scanned wallet |
| EtherscanScanner.Scan | app/payments/etherscan/scanner.py:47-52 | nothing for no items; otherwise exactly the first item's work |
| EtherscanScanner.OnlyFirstItemScanned | app/payments/etherscan/scanner.py:49-51 | items after the first change nothing |
| EtherscanScanner.OnlyApiKeyMatters | app/payments/etherscan/scanner.py:22-37 | two items with the same API key give the same run, whatever their address, name or days |
| EtherscanScanner.WorkWithItemLoop | app/payments/etherscan/scanner.py:21-45 | the filtering append loop computes `WorkWithItem` |
| EtherscanScanner.ScanLoop | app/payments/etherscan/scanner.py:47-52 | the loop that breaks after one round computes `Scan` |
| PageNumbers.PageLoopM | app/payments/etherscan/api.py:38-50 | the `while True` loop over page numbers from 1 computes `PageLoop` |
| PageNumbers.PageStep | app/payments/etherscan/api.py:41-50 | one round: an error ends the walk and discards what was collected; an empty page ends it; a short page is kept and ends it; a full page is kept and the walk goes on with the next page |
| PageNumbers.FullPagesThenLast | app/payments/etherscan/api.py:41-50 | k full pages then a last one: exactly pages n to n + k are fetched, and what they add is returned in page order |
| PageNumbers.FailureDiscards | app/payments/etherscan/api.py:41-50 | k full pages then a failing one: the error escapes and nothing collected is returned |
| PageNumbers.PageLoopPaced | app/payments/bitfaktura/api.py:20-41 | when every page request waits on the limiter, so does the walk |
| PageNumbers.PageLoopNoWaits | app/payments/etherscan/api.py:20-50 | when no page request waits on a limiter, the walk never does |
| PageNumbers.ReliableLoop | app/payments/etherscan/api.py:38-50 | against a server that answers at once, k full pages and a last one: the loop returns what pages 1 to k + 1 add and the trace of fetching them |
| PageNumbers.ReliablePages | app/payments/etherscan/api.py:38-50 | against a server that answers at once, k full pages and a last one cost exactly k + 1 requests, for pages 1 to k + 1 in order, and return everything they add in page order |
| TronscanSchemas.ToRecord | app/payments/tronscan/schemas.py:66-100 | a negative `tokenDecimal` raises TypeError; otherwise "debit" iff the casefolded `to` is the wallet, the counterparty is `from` for a debit and `to` for a credit, and both amounts are the non-negative `quant` scaled down by 10^decimals; block time, "TRC20", the wallet, the token abbreviation and the transaction id |
| TronscanApi.GetTransfers | app/payments/tronscan/api.py:57-75 | one or more attempts of the same request for the offset and limit, each behind a limiter wait |
| TronscanApi.TransfersPageIterator.Next | app/payments/tronscan/api.py:39-46 | StopIteration, with nothing changed, once the offset reaches a known total; otherwise one page request at the offset; success moves the offset on by the limit and records the page's total; a failure changes nothing |
| TronscanApi.GetAllTransfers | app/payments/tronscan/api.py:85-101 | every request waits on the limiter first; every transfer returned lies in `[from_date, to_date]` |
| TronscanApi.TakePage | app/payments/tronscan/api.py:94-98 | the inner loop keeps the page's in-window transfers in order and marks the page as the last iff one of its transfers is older than `from_date` |
| TronscanApi.CollectGoesOn | app/payments/tronscan/api.py:93-100 | a page that is not the last adds its in-window transfers and the walk continues at the next offset with the page's total |
| TronscanApi.CollectEnds | app/payments/tronscan/api.py:93-100 | a failing request or mapping ends the walk with that error; a last page ends it with what was collected |
| TronscanApi.CollectLoop | app/payments/tronscan/api.py:91-101 | the nested `for` loops compute `Collect` from offset 0 and no total |
| TronscanApi.GetAllTransfersLoop | app/payments/tronscan/api.py:85-101 | `get_all_transfers` as written computes `GetAllTransfers` |
| TronscanApi.FirstPageAlwaysRequested | app/payments/tronscan/api.py:40-43 | the first request is always made, at offset 0, whatever the server |
| TronscanApi.PagesLeftCount | app/payments/tronscan/api.py:40-44 | from offset `start` below the total, ⌈(total − start) / 50⌉ pages are left |
| TronscanApi.StablePages | app/payments/tronscan/api.py:39-58 | on a stable listing the loop from a known total makes exactly one request per page left and succeeds |
| TronscanApi.PagesNeededLeft | app/payments/tronscan/api.py:40-44 | the pages needed for `total` transfers are the first page plus the pages left after offset 50 |
| TronscanApi.StableFromStart | app/payments/tronscan/api.py:39-58 | on a stable listing the loop from offset 0 with no total yet makes one request more than the pages left after the first, and succeeds |
| TronscanApi.StableListingRequests | app/payments/tronscan/api.py:39-101 | against a listing of `total` transfers that never reach back before `from_date`, the walk succeeds after `max(1, ⌈total / 50⌉)` requests |
| TronscanScanner.CollectMapped | app/payments/tronscan/scanner.py:38-47 | mapping each kept transfer inside the loop gives the same trace as collecting the transfers and mapping them afterwards, and succeeds exactly when every mapping does |
| TronscanScanner.RecordsInWindow | app/payments/tronscan/scanner.py:39-43 | one record per in-window transfer, in order, each dated in the window and booked on the item's address; an item without an address yields no record |
| TronscanScanner.WorkWithItem | app/payments/tronscan/scanner.py:22-49 | the window `[now - days, now]`; every request paced; on success the walk succeeded and record i is the mapping of transfer i |
| TronscanScanner.Scan | app/payments/tronscan/scanner.py:51-55 | success iff every item succeeds; then the items' records concatenated in item order |
| TronscanScanner.WorkWithItemLoop | app/payments/tronscan/scanner.py:22-49 | the nested loops compute `WorkWithItem` |
| TronscanScanner.ScanLoop | app/payments/tronscan/scanner.py:51-55 | the loop computes `Scan` |
| BitfakturaSchemas.ToRecord | app/payments/bitfaktura/schemas.py:175-194 | an "invoice" record of "bitfaktura": both amounts the gross price as it is, the creation time, currency, seller account, number, buyer name, tax number and account; the rest None |
| BitfakturaSchemas.DistinctInvoicesDistinctIds | app/payments/bitfaktura/schemas.py:193 | invoices with different ids get different transaction ids |
| BitfakturaApi.FetchInvoices | app/payments/bitfaktura/api.py:20-30 | one or more attempts of the same request for the page with the token, each behind a limiter wait |
| BitfakturaApi.FetchAllInvoices | app/payments/bitfaktura/api.py:32-41 | every request of the walk waits on the limiter first |
| BitfakturaApi.FetchAllInvoicesLoop | app/payments/bitfaktura/api.py:32-41 | the `while True` loop computes `FetchAllInvoices` |
| BitfakturaApi.NonEmptyPagesThenEmpty | app/payments/bitfaktura/api.py:35-41 | k non-empty pages and then an empty one, answered at once, give one paced request for each of pages 1 to k + 1 and every invoice in page order, however short a page is |
| BitfakturaScanner.ScanAsWrittenAlwaysFails | app/payments/bitfaktura/scanner.py:35 | as written, any configured item fails the scan with TypeError before a request is made |
| BitfakturaScanner.MapRecords | app/payments/bitfaktura/scanner.py:36-38 | one record per invoice, in order, each its mapping |
| BitfakturaScanner.MapRecordsLoop | app/payments/bitfaktura/scanner.py:36-38 | the comprehension, one invoice at a time, computes `MapRecords` |
| BitfakturaScanner.WorkWithItem | app/payments/bitfaktura/scanner.py:21-39 | the corrected item work: the listing's trace and error; on success record i is the mapping of invoice i |
| BitfakturaScanner.CorrectedScanSucceeds | app/payments/bitfaktura/scanner.py:35-44 | with the call corrected, a scan whose listings all succeed succeeds, where the as-written one fails |
| BitfakturaScanner.Scan | app/payments/bitfaktura/scanner.py:41-45 | success iff every item succeeds; then the items' records concatenated in item order |
| BitfakturaScanner.WorkWithItemLoop | app/payments/bitfaktura/scanner.py:21-39 | the source's statements compute `WorkWithItem` |
| BitfakturaScanner.ScanLoop | app/payments/bitfaktura/scanner.py:41-45 | the loop computes `Scan` |
| FacturowniaApi.FetchInvoices | app/payments/facturow/api.py:20-27 | one or more attempts of the same request for the page with the token, each behind a limiter wait |
| FacturowniaApi.ExtendAsWritten | app/payments/facturow/api.py:41-43 | the inner loop as written computes `PageAddsAsWritten`: the whole page once per invoice inside the window |
| FacturowniaApi.AsWrittenRepeatsPage | app/payments/facturow/api.py:41-43 | a page of three invoices, two inside the window, adds six invoices where the filter would add two |
| FacturowniaApi.ExtendInRange | app/payments/facturow/api.py:41-43 | the corrected inner loop keeps exactly the page's invoices inside the window, in order |
| FacturowniaApi.FetchAllInvoices | app/payments/facturow/api.py:29-47 | every request paced; every invoice returned was updated inside `[start_data, end_date]` |
| FacturowniaApi.FilteredListing | app/payments/facturow/api.py:37-47 | the corrected walk reads the same pages as the unfiltered listing, fails the same way, and returns exactly the listing's invoices inside the window, in order |
| FacturowniaApi.FetchAllInvoicesLoop | app/payments/facturow/api.py:29-47 | the page loop with the invoice loop inside computes `FetchAllInvoices` |
| CivilDates.ZeroPadValue | app/payments/privat/constants.py:8 | a zero-filled decimal text reads back as the number it renders |
| CivilDates.ZeroPadWidth | app/payments/privat/constants.py:8 | below 10^width, the zero-filled text is exactly `width` characters long |
| CivilDates.FormatDate | app/payments/privat/api.py:31-32 | `%d-%m-%Y`: ten characters, dashes at 2 and 5, digits elsewhere |
| CivilDates.FormatDateRoundTrip | app/payments/privat/api.py:31-32 | the rendered date reads back as the same date, so different dates are sent as different parameters |
| SqlText.ReplaceAppend | app/bigquery_table/utils.py:46 | `str.replace` of one character distributes over concatenation |
| SqlText.Escape | app/bigquery_table/utils.py:41-49 | "NULL" for None; otherwise the text in single quotes with no quote, line break or tab inside |
| SqlText.EscapedBody | app/bigquery_table/utils.py:45-46 | no quote, line break or tab is left, and the body grows by exactly one character per backslash |
| SqlText.UnescapeEscaped | app/bigquery_table/utils.py:32-38 | a text without quotes, line breaks and tabs comes back unchanged from its literal: only those characters are lost |
| SqlText.ReplaceStage | app/bigquery_table/utils.py:45-46 | one round of the replacement loop turns the text after k replacements into the text after k + 1 |
| SqlText.EscapeString | app/bigquery_table/utils.py:41-49 | the replacement loop over `SPECIAL_CHARS`, in order, computes `Escape`: every character escaped on its own |
| SqlText.WrapName | app/bigquery_table/utils.py:52-53 | the name between two backquotes |
| SqlText.WrapValue | app/bigquery_table/utils.py:56-66 | "NULL" exactly for None; a Decimal as a NUMERIC cast; a datetime as a UTC TIMESTAMP; an int as decimal digits that read back as the int; a text as its escaped literal |
| SqlText.WrapValueOneLine | app/bigquery_table/utils.py:56-66 | a value renders on one line when the passed-in formatting does |
| SqlText.SchemaFieldOf | app/bigquery_table/utils.py:75-93 | TypeError for an unsupported annotation; otherwise the field's name, NULLABLE exactly when the annotation admits None |
| SqlText.SchemaFieldSupported | app/bigquery_table/utils.py:78-92 | a field maps exactly when its annotation is a mapped class, bare or with None, and then its type is that class's BigQuery type |
| SqlText.GenerateSchema | app/bigquery_table/utils.py:72-94 | success iff every field maps; then one schema field per model field, in order; otherwise TypeError |
| SqlText.GenerateSchemaLoop | app/bigquery_table/utils.py:72-94 | the loop over the fields computes `GenerateSchema` |
| SqlText.RecordSchema | app/schemas.py:7-24 | the record's schema generates: 17 columns named after the fields, `transaction_id` the only REQUIRED one |
| SqlText.RowValues | app/bigquery_table/utils.py:103-106 | one rendered value per column, in column order |
| SqlText.RowLines | app/bigquery_table/utils.py:102-107 | one row text per record, in record order |
| SqlText.BuildValuesSql | app/bigquery_table/utils.py:100-109 | the row loop with the column loop inside computes `ValuesSql` |
| SqlText.BuildRowSql | app/bigquery_table/utils.py:103-107 | the column loop computes the row's text |
| SqlText.RowOneLine | app/bigquery_table/utils.py:103-107 | a row renders on one line when the passed-in formatting does |
| SqlText.ValuesOneLinePerRecord | app/bigquery_table/utils.py:109 | n rows hold exactly n − 1 line breaks, one between neighbouring rows |
| SqlText.BuildInsertQuery | app/bigquery_table/utils.py:112-114 | None exactly when there are no records |
| SqlText.InsertQueryLines | app/bigquery_table/utils.py:112-126 | the statement has the INSERT line, the VALUES line and one line per record, and ends with `;` |
| SqlText.MergeColumnsEachOnce | app/bigquery_table/utils.py:148-156 | the update fields are exactly the non-key fields; the insert columns are exactly the fields, each once |
| SqlText.FieldNamesDistinct | app/schemas.py:7-24 | no field name of the record repeats |
| Qp.GetBqType | app/bigquery_table/qp.py:12-23 | TypeError exactly for a type outside str, int, float, Decimal and datetime; every class the schema maps gets the same BigQuery type there |
| Qp.AnnotationTypeIsSchemaType | app/bigquery_table/qp.py:44-50 | corrected, a field's parameter type is its schema column's type |
| Qp.AsWrittenRefusesOptionalFields | app/bigquery_table/qp.py:44-50 | as written, the type of every `X \| None` field of the record is refused and only `transaction_id`'s is named |
| Qp.ParamNameInjective | app/bigquery_table/qp.py:38 | different positions give different `param_k` names |
| Qp.RowStartMono | app/bigquery_table/qp.py:32-39 | an earlier row's positions all come before a later row's |
| Qp.CellPositionInjective | app/bigquery_table/qp.py:32-39 | distinct cells of a batch have distinct positions |
| Qp.Params | app/bigquery_table/qp.py:51-53 | one query parameter per binding, in order, with the binding's type and value |
| Qp.BindCellsSuccess | app/bigquery_table/qp.py:41-50 | a row binds exactly when the type of each of its non-None values can be named |
| Qp.BindCellsFailure | app/bigquery_table/qp.py:45-50 | a refused row is refused with the error of one of its non-None values |
| Qp.BindCellsBindings | app/bigquery_table/qp.py:36-54 | a bound row binds each non-None value at its position, in column order, and nothing else |
| Qp.CellsRefused | app/bigquery_table/qp.py:45-50 | once a value is refused, later values change nothing |
| Qp.BindBatchSuccess | app/bigquery_table/qp.py:34-56 | a batch binds exactly when the type of each of its non-None values can be named |
| Qp.BindBatchFailure | app/bigquery_table/qp.py:45-50 | a refused batch is refused with the error of one of its values |
| Qp.BindBatchBindings | app/bigquery_table/qp.py:34-56 | a bound batch binds value (a, b) at `RowStart(a, n) + b` for every non-None value, and nothing else |
| Qp.BatchRefused | app/bigquery_table/qp.py:45-50 | once a row is refused, later rows change nothing |
| Qp.BindBatchCount | app/bigquery_table/qp.py:41-53 | one parameter per non-None value |
| Qp.PositionsUnique | app/bigquery_table/qp.py:32-39 | no two bindings of a batch share a position |
| Qp.ParamNamesUnique | app/bigquery_table/qp.py:38-53 | no two parameters of a batch share a name, so a name binds one value |
| Qp.PlaceholderOf | app/bigquery_table/qp.py:41-54 | "NULL" exactly for None; otherwise the parameter of the cell's own position |
| Qp.PlaceholdersMeaning | app/bigquery_table/qp.py:36-54 | cell m of a row starting at `first` has the placeholder of position `first + m` |
| Qp.TuplesMeaning | app/bigquery_table/qp.py:34-56 | row m's tuple starts at position `RowStart(m, n)` |
| Qp.BindRow | app/bigquery_table/qp.py:35-56 | the inner loop advances the position by the row's width and, unless a type is refused, gives the row's tuple and appends its bindings |
| Qp.BindRows | app/bigquery_table/qp.py:30-56 | the outer loop gives every row's tuple and the batch's bindings, or the batch's error |
| Qp.InsertPlanMeaning | app/bigquery_table/qp.py:29-62 | the plan is built exactly when every non-None value's type is named; then one tuple per row, row i starting at `RowStart(i, n)` |
| Qp.InsertRows | app/bigquery_table/qp.py:26-67 | a refused type raises before any call; otherwise exactly one query call, with the plan's text and parameters, which raises when the client says so |
| Qp.Rows | app/bigquery_table/qp.py:34-37 | one row of 17 cells per record, the record's cells in field order |
| Qp.RowsEach | app/bigquery_table/qp.py:34-37 | row i is record i's cells, one per annotated field |
| Qp.FieldTypesNamed | app/schemas.py:7-24 | corrected, every field of the record has a named parameter type |
| Qp.RecordsPlanBuilt | app/bigquery_table/qp.py:29-56 | corrected, the plan of any batch of records is built |
| Qp.InsertRecords | app/bigquery_table/qp.py:26-67 | corrected `insert_records`: exactly one call, `InsertCall(table, records)`, raising exactly when the client says so |
| Qp.RowsAsWritten | app/bigquery_table/qp.py:29 | as written, every row is empty, since `BaseModel` itself has no fields |
| Qp.AsWrittenBindsNothing | app/bigquery_table/qp.py:29-62 | as written, nothing is bound and every tuple is `()`, whatever the records hold |
| Qp.AsWrittenUnionRefused | app/bigquery_table/qp.py:44-50 | a latent defect: were lines 29 and 44 both to read the record class's own fields (as written, line 29 gives no columns, and line 44 would raise KeyError on `BaseModel`'s empty fields), the annotation passed on as written makes a record with a bank fail with TypeError before the query |
| BigQueryClient.UpdatedIsSource | app/bigquery_table/utils.py:141-163 | `UPDATE SET` of every non-key column from a matching source row gives exactly the source row |
| BigQueryClient.FirstMatchMeaning | app/bigquery_table/utils.py:138-161 | the source row found for a target row is one it matches `ON` the keys, and none is found exactly when no source row matches |
| BigQueryClient.UnmatchedMeaning | app/bigquery_table/utils.py:148-166 | `WHEN NOT MATCHED THEN INSERT` adds exactly the source rows no target row matches |
| BigQueryClient.MergeRowsFrom | app/bigquery_table/utils.py:158-167 | every row after the MERGE was a target row or a source row: the MERGE invents nothing |
| BigQueryClient.MergeUpserts | app/bigquery_table/utils.py:158-167 | with source keys set and distinct, every source row ends up in the target, as the only row with its key |
| BigQueryClient.SameKeySameRow | app/bigquery_table/utils.py:138-140 | in a source with distinct keys, two rows share a key exactly when they are the same row |
| BigQueryClient.MergeKeepsUnmatched | app/bigquery_table/utils.py:161-163 | a target row no source row matches stays as it was, in its place, and no target row is removed |
| BigQueryClient.Apply | app/bigquery_table/table.py:37-38 | a delete removes the table, a create with `exists_ok` leaves an existing table as it is and otherwise makes it empty |
| BigQueryClient.OutcomeAppend | app/bigquery_table/table.py:66-80 | the effect of two call lists made in turn is the second's effect, from the next position, on what the first left |
| BigQueryClient.OutcomeOne | app/bigquery_table/table.py:43-44 | one call takes effect exactly when it does not raise |
| BigQueryClient.OutcomeCons | app/bigquery_table/table.py:37-38 | the effect of a call list is its first call's, then the rest's from the next position |
| BigQueryClient.Client.constructor | app/bigquery_table/table.py:23 | a new client has made no call, and its tables are those it was given |
| BigQueryClient.Client.Execute | app/bigquery_table/table.py:43-44 | the call is appended to the log, it raises exactly when the oracle says so at its position, and the tables change by the call exactly when it does not raise |
| BigQueryClient.PerformMeaning | app/bigquery_table/table.py:66-80 | calls made in turn: no exception iff none raises, and then all are made; otherwise a prefix is made, ending with the first that raises |
| BigQueryClient.PerformSucceeds | app/bigquery_table/table.py:66-80 | no exception exactly when no call raises at its position, and then every call is made |
| BigQueryClient.PerformMadeAll | app/bigquery_table/table.py:66-80 | without an exception, the calls made are all the calls |
| BigQueryClient.PerformRaises | app/bigquery_table/table.py:66-80 | a call that raises at its position makes the list end in an exception |
| BigQueryClient.PerformFails | app/bigquery_table/table.py:66-80 | with an exception, the calls made are a non-empty prefix of the list, none raising but the last, which does |
| BigQueryClient.PerformAppend | app/bigquery_table/table.py:66-80 | two call lists made in turn are the joined list made, up to the first exception |
| BigQueryClient.PerformCons | app/bigquery_table/table.py:37-38 | a list is made by its first call, then the rest unless that call raised |
| BigQueryClient.PerformAll | app/bigquery_table/table.py:37-38 | the call loop logs and returns `Perform` of the calls, and the tables are their outcome |
| BigQueryTable.Batches | app/bigquery_table/table.py:57 | `itertools.batched`: every chunk holds 1 to n items, all but the last exactly n; no chunk exactly when no item |
| BigQueryTable.BatchesConcat | app/bigquery_table/table.py:57 | the chunks joined back give the items: nothing lost, repeated or reordered |
| BigQueryTable.FirstBatch | app/bigquery_table/table.py:57 | the first chunk is the first n items, or all of them when fewer |
| BigQueryTable.Schema | app/bigquery_table/table.py:29 | the record's generated schema has one column per field |
| BigQueryTable.InsertCalls | app/bigquery_table/table.py:57-58 | one staging insert per batch, in batch order |
| BigQueryTable.InsertCallsEach | app/bigquery_table/table.py:57-58 | the insert at position i is the insert of batch i, and there are as many inserts as batches |
| BigQueryTable.ColumnOf | app/bigquery_table/table.py:30 | a field's column is a position holding it, and the column is past the end exactly when the name is not a field |
| BigQueryTable.UpsertSplit | app/bigquery_table/table.py:66-80 | the upsert is the drop and the staging made in turn, then the MERGE and the drop if nothing raised; the drop's exception wins over the MERGE's |
| BigQueryTable.MergeErr | app/bigquery_table/table.py:70-80 | the `try`/`finally` ends without an exception exactly when neither the MERGE nor the drop after it raises |
| BigQueryTable.StageThenMergeParts | app/bigquery_table/table.py:69-80 | after the first drop: an exception while staging ends the upsert there; otherwise every staging call, the MERGE and the drop are made |
| BigQueryTable.UpsertAfterDrop | app/bigquery_table/table.py:68-80 | the upsert is its first drop, then, unless that raised, the staging, the MERGE and the final drop |
| BigQueryTable.RecreatePerform | app/bigquery_table/table.py:32-39 | `recreate` makes the drop, then the create unless the drop raised |
| BigQueryTable.RecreateDropsThenCreates | app/bigquery_table/table.py:37-38 | the create follows the drop and is made only when the drop went through; `recreate` succeeds iff neither raises |
| BigQueryTable.RecreateEmpties | app/bigquery_table/table.py:37-38 | a `recreate` that goes through leaves the table there and empty, and no other table changed |
| BigQueryTable.UpsertSucceeds | app/bigquery_table/table.py:66-80 | the upsert succeeds exactly when no call raises at its position: the first drop, each staging call, the MERGE and the final drop |
| BigQueryTable.UpsertDropsTempAfterMerge | app/bigquery_table/table.py:70-80 | when the staging goes through, the MERGE is followed by the drop of the staging table, whatever the MERGE did, and the upsert succeeds exactly when neither the MERGE nor that drop raises |
| BigQueryTable.UpsertStagingFailureLeavesTemp | app/bigquery_table/table.py:66-69 | an exception while staging ends the upsert there: no MERGE, no drop, and the last call made is the one that raised |
| BigQueryTable.StagingCallsStageAll | app/bigquery_table/table.py:51-58 | corrected, the staging creates the table and inserts every batch, and the batches are the records in order |
| BigQueryTable.AsWrittenStagesFirstBatchOnly | app/bigquery_table/table.py:57-59 | as written, more than 10 records stage only the first 10, while the corrected staging inserts a second batch starting at record 10 |
| BigQueryTable.QpInsertAppendsRows | app/bigquery_table/qp.py:58-67 | the staging insert's statement adds the batch's rows to the table it names |
| BigQueryTable.InsertsAppend | app/bigquery_table/table.py:57-58 | staging inserts that go through add every batch's rows, in order, to the staging table and change nothing else |
| BigQueryTable.UpdateTwice | app/bigquery_table/table.py:57-58 | a table set twice holds what it was set to last |
| BigQueryTable.AppendTwice | app/bigquery_table/table.py:57-58 | rows added in two goes are the two parts added at once |
| BigQueryTable.StagedContents | app/bigquery_table/table.py:68-69 | the first drop and a staging that go through leave the staging table holding exactly the batches' rows, and no other table changed |
| BigQueryTable.StagingCallsContents | app/bigquery_table/table.py:68-69 | corrected, the first drop and the staging leave the staging table holding exactly the records' rows, and no other table changed |
| BigQueryTable.MergeThenDropContents | app/bigquery_table/table.py:70-80 | a MERGE that goes through makes the table the MERGE of its rows with the staging table's, and the staging table is gone exactly when the drop goes through |
| BigQueryTable.MergeThenDropKeepsOthers | app/bigquery_table/table.py:70-80 | the MERGE and the drop change no table but the target and the staging table |
| BigQueryTable.MergedContents | app/bigquery_table/table.py:66-80 | once the first drop, the staging and the MERGE go through, the table is the MERGE of its rows with the staged rows, and the staging table is gone exactly when the final drop goes through |
| BigQueryTable.MergedKeepsOthers | app/bigquery_table/table.py:66-80 | under the same conditions, no table but the target and the staging table changes |
| BigQueryTable.UpsertGoesThrough | app/bigquery_table/table.py:66-80 | an upsert that succeeds made every call, none of them raising |
| BigQueryTable.UpsertStaged | app/bigquery_table/table.py:70-80 | once the first drop and the staging go through, the MERGE and the final drop are made, and the upsert fails exactly when one of them raises |
| BigQueryTable.UpsertOutcome | app/bigquery_table/table.py:66-80 | once the first drop and the staging go through, the upsert's effect is theirs followed by that of the MERGE and the final drop |
| BigQueryTable.UpsertContents | app/bigquery_table/table.py:66-80 | corrected, a successful upsert leaves the table as the MERGE of its rows with every record's, drops the staging table and changes no other table |
| BigQueryTable.UpsertAsWrittenContents | app/bigquery_table/table.py:57-80 | as written, a successful upsert leaves the table as the MERGE of its rows with the first 10 records' only, drops the staging table and changes no other table |
| BigQueryTable.UpsertStoresRecords | app/bigquery_table/table.py:66-80 | corrected, with the records' keys set and distinct, a successful upsert stores every record as the only row with its key, keeps each row no record matches in its place, and brings in no other row |
| BigQueryTable.AsWrittenLosesLaterRecords | app/bigquery_table/table.py:57-59 | as written, a record past the first 10 whose key is neither in the table nor among the first 10 is missing after a successful upsert |
| BigQueryTable.FailsLater | app/bigquery_table/table.py:66-80 | under an oracle that raises only at position k, every call made before k goes through |
| BigQueryTable.UpsertMergedContents | app/bigquery_table/table.py:70-80 | corrected, once the first drop, the staging and the MERGE went through, the table is merged with every record, whatever the final drop does |
| BigQueryTable.UpsertFailsAfterMerge | app/bigquery_table/table.py:77-80 | the final drop can raise after a successful MERGE: the upsert then fails although the table was merged |
| BigQueryTable.Table.constructor | app/bigquery_table/table.py:18-30 | the table keeps its id, keys and client; its schema and fields are the record's |
| BigQueryTable.Table.Recreate | app/bigquery_table/table.py:32-39 | logs and returns `Perform` of the drop and the create, and the client's tables stay the outcome of its log |
| BigQueryTable.Table.InsertRecords | app/bigquery_table/table.py:41-44 | one query call with the INSERT text, None for no records |
| BigQueryTable.Table.CreateTempTable | app/bigquery_table/table.py:46-64 | corrected: the create, then every batch's insert, up to the first exception |
| BigQueryTable.Table.InsertBatches | app/bigquery_table/table.py:57-58 | corrected batch loop: one insert per batch until one raises |
| BigQueryTable.Table.CreateTempTableAsWritten | app/bigquery_table/table.py:46-64 | as written: the create, then the first batch's insert only |
| BigQueryTable.Table.CreateStaging | app/bigquery_table/table.py:69 | `_create_temp_table` as written or corrected: logs and returns `Perform` of that staging |
| BigQueryTable.Table.StageAndMerge | app/bigquery_table/table.py:69-80 | after the first drop: the staging, then, unless it raised, the MERGE and the drop, with the drop's exception replacing the MERGE's |
| BigQueryTable.Table.UpsertRecords | app/bigquery_table/table.py:66-80 | corrected: logs and returns `Upsert` of the full staging, and the tables are what its calls made of them |
| BigQueryTable.Table.UpsertRecordsAsWritten | app/bigquery_table/table.py:57-80 | `_create_temp_table` as written, with the corrected staging insert: logs and returns `Upsert` of the first batch's staging |
| BigQueryTable.Table.MergeThenDrop | app/bigquery_table/table.py:70-80 | the MERGE, then the drop whatever the MERGE did; the call ends without an exception exactly when neither raises |
| ScanCommand.Find | app/scan_command.py:28 | the first position of the id, or the length when it is absent |
| ScanCommand.FindHasId | app/scan_command.py:28 | the id occurs exactly when its first position is inside the list |
| ScanCommand.Put | app/scan_command.py:28 | one dictionary assignment grows the values by at most one |
| ScanCommand.RemoveDuplicates | app/scan_command.py:25-29 | never longer than the input, and non-empty for a non-empty input |
| ScanCommand.PutMeaning | app/scan_command.py:28 | an assignment keeps the ids distinct, adds exactly the record's id, and replaces only the record with that id |
| ScanCommand.RemoveDuplicatesIds | app/scan_command.py:25-29 | no two records of the result share an id, and its ids are exactly the input's |
| ScanCommand.Last | app/scan_command.py:28 | the last position of the id, or -1 when it is absent |
| ScanCommand.RemoveDuplicatesLastWins | app/scan_command.py:28 | the record kept for an id is its last occurrence in the input |
| ScanCommand.RemoveDuplicatesKeepsEveryId | app/scan_command.py:25-29 | every input record's id is kept |
| ScanCommand.RemoveDuplicatesFirstOrder | app/scan_command.py:28-29 | the result is ordered by the ids' first occurrences, as a dictionary keeps a key where it was first inserted |
| ScanCommand.ScannerOrderDistinct | app/scan_command.py:37-45 | the seven scanners run once each, and no two read the same configuration key |
| ScanCommand.ItemsOf | app/scan_command.py:48 | an absent key gives no items |
| ScanCommand.CollectFailsLoud | app/scan_command.py:47-57 | the run fails exactly when a scanner with items raises, and then with the exception of the first one to raise |
| ScanCommand.CollectStops | app/scan_command.py:55-57 | once a scanner raised, the later ones change nothing |
| ScanCommand.CollectSkipsUnconfigured | app/scan_command.py:48 | a scanner without items is never run: what it would return does not matter |
| ScanCommand.CollectSkipsTail | app/scan_command.py:48 | scanners without items at the end of the order add nothing |
| ScanCommand.CollectScanners | app/scan_command.py:46-57 | the scanner loop yields `Collect` over the seven scanners in their fixed order: the first failure, or every deduplicated record in scanner order |
| ScanCommand.CollectSources | app/scan_command.py:47-54 | every record collected is one of the deduplicated records of a scanner with items that returned |
| ScanCommand.CrossScannerDuplicatesKept | app/scan_command.py:51-54 | deduplication is per scanner: two scanners returning the same record put it in the list twice |
| ScanCommand.PrimaryKeysAreFields | app/scan_command.py:73 | the keys are distinct fields of the record, so the MERGE names every field once |
| ScanCommand.Scan | app/scan_command.py:32-77 | a raising scanner ends the scan with its exception and no BigQuery call; no records means no table and no call; otherwise a new table of the record with the keys `transaction_id` and `bank_or_system`, the client's calls are exactly the corrected upsert of the collected records (every batch staged, each with the corrected insert), and the tables are their outcome |

## Left out

- Clocks, sleeps and HTTP are parameters or trace events; nothing waits.
- Decimal arithmetic is exact (`real`); Decimal's 28-digit context is not modelled.
- Fetch loops take a bound on the number of requests; running out of it ends with `OutOfCalls`, a case the source does not have.
- The asynchronous retry path (`AsyncAttempt`) is not modelled; it makes the same decisions under asyncio.
- Windows.RangeGen: requires `delta > 0`; with a non-positive delta the source loops forever.
- Windows.LegacyRanges: requires `delta_days >= 1`; with a smaller value the source can loop forever.
- MonoScanner.Scan: the clock is read once per scan, while the source reads it once per item.
- The scanners import `PaymentItem` from app/payment_config.py, which defines `Item`; the model uses `Item`.
- Time zones: Europe/Kyiv parsing and calendar dates (`strptime` with the zone, daylight saving) are passed-in functions.
- PrivatScanner.WorkWithItem: the window is `[now - days, now]` in plain microseconds; the source subtracts a `timedelta` from an aware Europe/Kyiv datetime, which is wall-clock arithmetic, so across a daylight-saving change its window is an hour longer or shorter than `days` days. Only the calendar dates taken from the window (a passed-in function) reach the request.
- PortmoneScanner.WorkWithItem: the window is `[now - days, now]` in plain microseconds, while the source subtracts the `timedelta` from an aware Europe/Kyiv datetime as wall-clock time, so across a daylight-saving change it differs by an hour.
- SqlText.WrapValue: the timestamp text is a passed-in function of the instant. The source formats an aware datetime's own wall-clock fields with `strftime` and labels them " UTC" without converting, so a Europe/Kyiv timestamp is sent two or three hours off; the model states only that whatever text `tsText` gives is labelled " UTC", and cannot tell a UTC rendering from a local one.
- Retry.CallWithRetry: a warning is recorded with its delay only; its text (the context name and the exception's type and value) is not modelled. The same holds for `Retry.AttemptExit`, whose `Suppress` decision stands for the warning, the sleep and the suppression.
- RateLimiting.RateLimiter.Wait: keeps `_last_time` as the source sets it, before the sleep; the corrected clock is `RateLimiting.WaitStepCorrected`, used only by the lemmas about the corrected limiter.
- Tronscan's `block_ts / 1000` float division is modelled as exact milliseconds to microseconds.
- app/helpers/misc.py's generator works on aware datetimes; the model uses integer microseconds.
- app/payments/privat/api.py imports `TransactionResponse` and `BalanceResponse`, which its schemas file does not define (it defines `TransactionsPage` and `BalancesPage`); the model reads the pages as those two classes.
- EtherscanScanner.WorkWithItem: the assignment to `item.address` is not modelled as a mutation of the caller's item; the fixed wallet is used directly, and the item loses nothing else.
- The Fakturownia scanner and its invoice schema are not part of this model: its configuration key is taken to be "FACTUROWNIA", and an invoice is reduced to its `updated_at`.
- The BigQuery service itself is not modelled: a client records its calls, an oracle decides which raise, and a call that goes through changes the tables as its statement says. Whether a call raises does not depend on the tables.
- The SQL text of the MERGE and of the INSERTs is not parsed: each query carries the statement its text was built to run, and the staging insert is taken to add exactly the batch's cells (`BigQueryTable.AppendsRows`).
- BigQueryClient.Apply: a query on a table that is not there changes nothing, where the service would raise; the oracle is what decides raising.
- BigQueryClient.Merge: when two source rows match one target row the service raises; the model updates the row from the first match.
- Row order in a table is a list order; BigQuery tables are unordered, so only membership and keys in the table-content lemmas carry meaning for the service.
- ScanCommand.Scan: it runs the corrected `upsert_records` (every batch staged, with the corrected `qp.insert_records`), not the program as written, which stages only the first 10 records (app/bigquery_table/table.py:57-59) and inserts empty tuples (app/bigquery_table/qp.py:29). The as-written behaviour is `BigQueryTable.Table.UpsertRecordsAsWritten`, `BigQueryTable.UpsertAsWrittenContents` and `BigQueryTable.AsWrittenLosesLaterRecords` for the staging, and `Qp.RowsAsWritten` and `Qp.AsWrittenBindsNothing` for the insert.
- Qp.QpQuery: the text keeps the extra pair of parentheses that app/bigquery_table/qp.py:58-62 puts around the row tuples (`VALUES ((@param_0, ...),(...))`), which GoogleSQL may read as one row of STRUCT values rather than one row per record. The `Append` of the rows attached to the query (`Qp.PlanCall`, `BigQueryTable.QpInsertAppendsRows`) is stipulated and ignores those parentheses. So the corrected insert that `Qp.InsertRecords`, `BigQueryTable.UpsertStoresRecords` and `ScanCommand.Scan` rely on is corrected in its columns and types, not in this text.
- PortmoneApi.FetchPayments: the gateway answers with payments already validated, or with `Invalid`, which becomes a ValidationError. In the source, a non-empty `pay_order_amount` that Decimal rejects raises `decimal.InvalidOperation` out of `Payment.model_validate` (app/payments/portmone/api.py:57), since pydantic wraps only ValueError. The model can report that payment only as a ValidationError. `PortmoneSchemas.ParsePayOrderAmount` states the InvalidOperation on its own, but no fetch or scan reaches it.
- EtherscanSchemas.ToRecord: `timeStamp` seconds become an unbounded instant. `datetime.fromtimestamp` (app/payments/etherscan/schemas.py:40) raises OverflowError or ValueError for a timestamp outside the platform's range, a failure the model does not have.
- BigQueryTable.Table.UpsertRecordsAsWritten: it models the batch loop's `break` as written but stages with the corrected insert; the insert as written binds nothing (`Qp.RowsAsWritten`, `Qp.AsWrittenBindsNothing`).
- `str.casefold`, `int()` on text, `str()` of a Decimal and `strftime` are passed-in functions.
- BigQueryTable.Table.InsertRecords: `client.query(None)` for no records is a call like any other, and whether it raises is left to the oracle.
- BigQueryTable.Table: only the `TransactionRecord` table is modelled, not the class-generic one.
- BigQueryTable.Table.InsertBatches: it makes the insert call directly (`Qp.InsertCall`) rather than calling `Qp.InsertRecords`; that method is proved to make exactly that one call and to raise exactly when it raises.
- ScanCommand.Scan: the BigQuery client is passed in. Credentials, the cron scheduler (`scan_command`), `scan_once_command` and logging are not modelled.
- ScanCommand.Scan: each scanner is an oracle from its items to its records or exception; each scanner's own run is modelled in its module.
- The export, import, recreate and test commands, and the legacy scripts outside `app/` (other than main.py's date splitter and the legacy Privat client), are not part of this model.

## Findings

| source | as written | input that shows it | evidently intended | confidence | as-written member | corrected member |
|---|---|---|---|---|---|---|
| app/payments/facturow/api.py:41-43 | the whole page is appended once per invoice inside the window | a page of three invoices, two inside the window | append only the invoices inside the window | high, not executed | FacturowniaApi.AsWrittenRepeatsPage | FacturowniaApi.FilteredListing |
| main.py:14-17 | the loop runs while the next start is before `end_date`, so when a window ends the day before `end_date`, that last day is never covered | days 0 to 31 with 31-day windows | windows that cover every day of `[start, end]` | medium, not executed | Windows.LegacyRangesMissEndDay | Windows.DateRangesCover |
| app/bigquery_table/table.py:57-59 | the batch loop `break`s after the first batch, so only 10 records are staged | 11 records | stage every batch | high, not executed | BigQueryTable.AsWrittenStagesFirstBatchOnly | BigQueryTable.StagingCallsStageAll |
| app/bigquery_table/qp.py:29 | the columns are read off `BaseModel`, which has none, so nothing is inserted but empty tuples | any batch of records | the record class's own fields | high, not executed | Qp.AsWrittenBindsNothing | Qp.RecordsPlanBuilt |
| app/bigquery_table/qp.py:44-50 | a latent defect behind lines 29 and 44: a `X \| None` annotation is passed to `get_bq_type` as it is, which raises TypeError | with lines 29 and 44 reading the record class's fields, a record with a bank | the type inside the union | medium, not executed | Qp.AsWrittenUnionRefused | Qp.AnnotationTypeIsSchemaType |
| app/payments/portmone/scanner.py:23-29 | the scanner reads `item.login` and `item.password`, which `Item` does not declare | any configured Portmone item | items that carry the gateway login and password | high, not executed | PortmoneScanner.ScanAsWrittenAlwaysFails | PortmoneScanner.WorkWithItem |
| app/payments/bitfaktura/scanner.py:35 | `fetch_all_invoices(from_date, to_date)` is called with two arguments it does not take | any configured Bitfaktura item | `fetch_all_invoices()` | high, not executed | BitfakturaScanner.ScanAsWrittenAlwaysFails | BitfakturaScanner.CorrectedScanSucceeds |
| app/helpers/sync_rate_limiter.py:15-27 | `_last_time` is set to the clock before the sleep, so the next call is refilled again for the time already slept: a caller that calls again as each call returns gets two calls per token time | `max_calls=1`, `period=1`, an empty bucket at clock 0: calls at 0 and 1 both return at 1 | set the clock to the end of the sleep, so a sleeping call spends the token it waited for | medium, not executed | RateLimiting.AsWrittenDoublesRate | RateLimiting.CorrectedRateBound |
