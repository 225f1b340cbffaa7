# GitHub repository mining labs: collection and aggregation pipeline

This project models the data-collection core of four lab assignments. They
mine GitHub through its GraphQL API and summarise what they find:

- **Lab01** (`Lab01/src/repositories_adapter.py` and its copy in
  `Lab01/src/main.py`) searches for the 1000 most-starred repositories. It
  asks for 25 per call, with three attempts per call. It flattens each
  repository into one row.
- **Lab02** (`Lab02/src/repositories_adapter.py`) runs the same loop for 3
  popular Java repositories, one per call. It drops "educational"
  repositories, recognised by keywords in their name or description.
- **Lab05** (`Lab05/src/repositories_adapter.py`) runs the Lab01 search. Its
  rows carry separate open and closed issue counts.
- **Lab03** (`Lab03/src/repositories_adapter.py`) has its own request
  executor. The executor retries only HTTP 502, with exponential backoff. On
  top of it run a search loop and a per-repository pull-request loop. It then
  derives the metrics of each reviewed pull request: analysis time, size,
  description length and interactions. It averages them into one row per
  repository, together with the merge rate.
- **Lab01 statistics** (`Lab01/src/statistics_calculator.py`) computes, for a
  table, the per-column mean, median and all modes; the mean, median and
  modes of the last-update timestamps; and the mean and median repository
  age in years.

## How the model is built

- **Network.** The network is a *scripted server*, `Api.Server<B> = nat -> Response<B>`. The
  k-th request of a run is answered by `server(k)`. Each request is recorded
  in a log, and so is each `time.sleep`. The number of requests sent so far
  says which answer comes next. With I/O made an input, every loop is
  deterministic.
- **Loops.** Each loop of the source is a Dafny `method` with the same loops,
  breaks and early returns. Each method is proved equal to a specification
  function written as "the loop from this state on" (`Paginator.Step`,
  `Lab03Fetch.SearchFrom`, `Lab03Fetch.PullRequestsFrom`,
  `Lab03Metrics.CollectFrom`, `Lab03Metrics.ProcessFrom`, `Lab03Client.Retry`).
  The properties the source promises are lemmas about those functions.
  - For the Lab01/02/05 loop, the lemmas relate a run to the answers it
    consumed (`Paginator.Explains`): which cursor each request carried,
    which edges were accumulated, when it slept, and when it returned `None`.
  - For Lab03, the lemmas relate each loop to the 200 answers it read
    (`Lab03Client.Gathered`, `Lab03Fetch.Explained`). They also split a
    loop's answers into whole calls of `make_github_request`
    (`Lab03Client.CallEnd`, `Lab03Client.CallStart`, `Lab03Fetch.InCalls`,
    `Lab03Metrics.DetailCalls`). A call ends at its first answer that is not
    a 502, or at its fifth 502.
- **Shared loop.** The Lab01, Lab05 and Lab02 loops are one generic paginator
  (`Paginator.FetchRepositories`) with a filter argument: keep everything,
  or keep the non-educational repositories.
- **Timestamps.** Timestamps have the form `YYYY-MM-DDTHH:MM:SSZ`. This is the
  UTC, no-fraction profile of the date-time production of section 5.6 of
  RFC 3339. They are parsed into calendar date-times (`Timestamps.Parse`,
  which round-trips with `Timestamps.Format`). Instants are measured in
  whole seconds since 1970-01-01T00:00:00Z on the proleptic Gregorian
  calendar (`Timestamps.EpochSeconds`, proved order-preserving and
  injective).
- **Numbers.** Analysis times are kept in whole seconds, so "under one hour"
  is "under 3600 seconds". Means, medians, ages in years and the merge rate
  are exact `real` values.
- **Exceptions.** Where the source raises, the model returns an explicit
  value: `Malformed` or `DetailsRaised`, and then `None` for the whole Lab03
  collection or table. This covers a malformed timestamp in `strptime`, and
  a pull-request detail body of the wrong shape.

## Model

| member | source | states |
|---|---|---|
| Api.AfterArg | Lab01/src/repositories_adapter.py:36 | the `after:` argument is JSON null exactly when the cursor is `None` or empty, and is the cursor itself otherwise |
| Api.NextCursor | Lab01/src/repositories_adapter.py:75 | a page without a next page resets the cursor to `None`; a page with one hands on its `endCursor` unchanged |
| Api.LanguageName | Lab01/src/repositories_adapter.py:103 | a repository's language column is its language's name, or "Desconhecido" when `primaryLanguage` is null |
| Paginator.Filter | Lab02/src/repositories_adapter.py:88-91 | the kept edges are no more than the page's edges, and every one satisfies the filter |
| Paginator.FilterKeepsPassing | Lab02/src/repositories_adapter.py:88-91 | the comprehension is complete: every edge that passes the filter is kept, as many times as it occurs in the page, and an edge that fails it is not kept at all |
| Paginator.FilterAppend | Lab02/src/repositories_adapter.py:88-93 | filtering two pages in turn and concatenating is filtering their concatenation |
| Paginator.KeptIsFilter | Lab02/src/repositories_adapter.py:88-93 | the accumulated repositories are exactly the filter applied to all edges of the successful pages, in order |
| Paginator.FetchRepositories | Lab01/src/repositories_adapter.py:23-85 | the nested batch/attempt loop with its early `return None` and `break` returns exactly the outcome, requests and sleeps of the loop's specification |
| Paginator.FetchExplained | Lab01/src/repositories_adapter.py:29-83 | every run is explained by the answers it consumed. Request i carries the cursor left by the answers before it. There is one 5-second sleep per non-200 answer. The result is `None` exactly when the last answer was an empty 200 page. Otherwise it is the kept edges of all 200 answers, in order. At most 3 × (total // batch) requests are sent, and at least total // batch when a list is returned. The answers split into consecutive batches (see `Paginator.StepBatches`) |
| Paginator.StepBounds | Lab01/src/repositories_adapter.py:31-83 | from any loop state, the rest of the call sends at most three requests in total for each remaining batch, and at least one in total for each remaining batch when it returns a list |
| Paginator.StepBatches | Lab01/src/repositories_adapter.py:31-83 | the answers split into consecutive batches, each ending at its first 200 answer or after its third answer. Every request falls within the first total // batch batches. A run that returns a list has consumed exactly that many complete batches |
| Paginator.FailedAttemptResendsCursor | Lab01/src/repositories_adapter.py:81-83 | after a non-200 answer the next request resends the same `after:` argument, so a failed batch leaves the cursor unchanged |
| Paginator.LastPageRestartsSearch | Lab01/src/repositories_adapter.py:73-75 | after a 200 page with `hasNextPage` false, the next request is sent with `after: null` and restarts the search from its first page |
| Paginator.NextRequestCarriesEndCursor | Lab01/src/repositories_adapter.py:73-75 | after a 200 page with a next page, the next request carries that page's `endCursor` |
| Paginator.FilterIsSubsequence | Lab02/src/repositories_adapter.py:88-91 | the comprehension keeps an order-preserving subsequence of the page's edges |
| Paginator.KeptIsSubsequence | Lab02/src/repositories_adapter.py:88-93 | the accumulated repositories are an order-preserving subsequence of all edges of the successful pages, and each passed the filter |
| Lab01Adapter.FetchRepositories | Lab01/src/repositories_adapter.py:23-85 | 40 batches (1000 // 25) of up to three attempts. At most 120 requests, and at least 40 when a list is returned. The answers fall into 40 consecutive batches of at most three. The result is the in-order concatenation of the edges of the 200 answers, or `None` on an empty page |
| Lab01Adapter.ProcessData | Lab01/src/repositories_adapter.py:88-106 | one row per repository, in input order, each row the normalised node |
| Lab01Adapter.NormalizeRoundTrip | Lab01/src/repositories_adapter.py:94-104 | normalising copies every field: the node is recovered from its row, except a null language, which reads "Desconhecido" |
| Lab01Adapter.NullLanguageIndistinguishable | Lab01/src/repositories_adapter.py:103 | a null language gives "Desconhecido", the same row as a language of that name |
| Lab01Main.Run | Lab01/src/main.py:112-119 | a table is produced exactly when the fetch returned a non-empty list (neither `None` nor `[]`), with one normalised row per fetched repository |
| Lab01Main.AllFailuresWriteNothing | Lab01/src/main.py:59-83 | when every answer is non-200, the fetch sends 120 requests and sleeps 120 times, returns `[]`, and so no table is written |
| Lab02Adapter.Lower | Lab02/src/repositories_adapter.py:112-113 | lower-casing keeps the length and maps each character to its lower-case form |
| Lab02Adapter.Contains | Lab02/src/repositories_adapter.py:115 | `keyword in text` holds exactly when the keyword occurs in the text at some position |
| Lab02Adapter.AnyKeyword | Lab02/src/repositories_adapter.py:115 | `any(...)` holds exactly when some keyword occurs in the name or in the description |
| Lab02Adapter.IsEducational | Lab02/src/repositories_adapter.py:109-115 | educational exactly when one of the seven keywords is a substring of the lower-cased name or description, with a missing name or description read as "" |
| Lab02Adapter.DemonstrationIsEducational | Lab02/src/repositories_adapter.py:110-115 | matching is by substring and ignores case: a repository named "Demonstration" is educational |
| Lab02Adapter.NamelessIsNotEducational | Lab02/src/repositories_adapter.py:112-113 | a repository without name and description is never educational |
| Lab02Adapter.FetchRepositories | Lab02/src/repositories_adapter.py:37-106 | 3 batches (3 // 1) of up to three attempts, so at most 9 requests. The answers fall into 3 consecutive batches of at most three. The result is exactly the edges of the successful pages with the educational ones filtered out, in order, or `None` on an empty page |
| Lab05Adapter.FetchRepositories | Lab05/src/repositories_adapter.py:26-89 | 40 batches of up to three attempts, at most 120 requests, explained by the answers consumed and split into 40 consecutive batches as for Lab01 |
| Lab05Adapter.ProcessData | Lab05/src/repositories_adapter.py:92-111 | one row per repository, in input order, each row the normalised node |
| Lab05Adapter.NormalizeRoundTrip | Lab05/src/repositories_adapter.py:96-109 | every field is copied, with open and closed issue counts each in its own column, and a null language read as "Desconhecido" |
| Lab03Client.Backoff | Lab03/src/repositories_adapter.py:31-33 | the i-th wait after consecutive 502 answers lasts 2^i seconds |
| Lab03Client.MakeGithubRequest | Lab03/src/repositories_adapter.py:23-38 | the retry loop returns the body, requests and waits of its specification `Request` |
| Lab03Client.RetryExplained | Lab03/src/repositories_adapter.py:26-38 | from any retry count, the loop sends the query k ≤ remaining-retries times. All answers but the last are 502. A body is returned exactly when the last answer is a 200, and it is that answer's body. The waits are 2^retries, 2^(retries+1), ..., one per 502 |
| Lab03Client.RequestExplained | Lab03/src/repositories_adapter.py:23-38 | one call sends the query at most `max_retries` times (at least once when `max_retries` > 0). Every answer but the last is a 502, and a last 502 means the retries ran out. It returns a body exactly when the last answer is a 200, and that body. It waits 1, 2, 4, ... seconds after each 502 |
| Lab03Client.RequestAnswer | Lab03/src/repositories_adapter.py:23-38 | a call with `max_retries` > 0 sends at least one request, and every answer but its last is a 502. It returns data exactly from a last answer that is a 200, and the data is that answer's body. A call that returns `None` after a request ended at an answer that is not a 200 |
| Lab03Client.FiveBadGateways | Lab03/src/repositories_adapter.py:30-34 | five 502s in a row: five requests, waits 1, 2, 4, 8, 16 (the last after the last attempt), then `None` |
| Lab03Client.OtherErrorGivesUp | Lab03/src/repositories_adapter.py:35-37 | a status other than 200 and 502 ends the call after one request, with no wait and no body |
| Lab03Client.CallGathered | Lab03/src/repositories_adapter.py:23-38 | a call reads at most one 200 answer, and what it delivers is exactly the returned body's contribution |
| Lab03Client.GathersUntilJoin | Lab03/src/repositories_adapter.py:309-318 | a call that did not raise, followed by the rest of a loop that gathers until a 200 answer raises, is itself such a loop from the call's first answer |
| Lab03Client.CallEndIs | Lab03/src/repositories_adapter.py:26-38 | an answer index ends the call that starts at `lo` exactly when every answer before it in the call is a 502, and a last 502 is the fifth answer of the call |
| Lab03Client.RequestCall | Lab03/src/repositories_adapter.py:23-38 | one call of `make_github_request` reads exactly the answers from where it starts to `CallEnd`, sends the query once per answer, returns the body of a last 200 answer, and waits 1, 2, 4, ... seconds per 502 |
| Lab03Client.CallStartAtLeast | Lab03/src/repositories_adapter.py:23-38 | each call reads at least one answer, so the k-th call starts at least k answers later |
| Lab03Client.CallsSplit | Lab03/src/repositories_adapter.py:23-38 | calls made one after another: the first a + b calls are the first a calls followed by b calls from where those ended, and their waits are concatenated |
| Lab03Fetch.FetchRepositories | Lab03/src/repositories_adapter.py:41-87 | the batch loop, with its `break`s on failure and on an empty page, returns the list and requests of its specification `Search` |
| Lab03Fetch.SearchFromExplained | Lab03/src/repositories_adapter.py:47-85 | from any batch on, the loop keeps the earlier list and appends the edges of every 200 answer in order. Each request carries the next cursor of the latest page before it. It reads at most one 200 answer and five requests per remaining batch. Only its last answer can stop it, and it stops before its last batch only at a failure or an empty page |
| Lab03Fetch.FetchRepositoriesExplained | Lab03/src/repositories_adapter.py:45-87 | `fetch_repositories` returns the in-order edges of the 200 answers it read, never `None`. It reads at most total // batch of them (the remainder is never fetched) and sends at most five requests per batch. Every request is a search for `batch_size` edges after the next cursor of the latest page before it, null before the first. Every answer but the last lets it go on. A run that read fewer than total // batch pages ended at a failure or an empty page |
| Lab03Fetch.Reviewed | Lab03/src/repositories_adapter.py:127-131 | the kept pull requests are exactly the `{number, title}` of those with at least one review |
| Lab03Fetch.ReviewedIsRefs | Lab03/src/repositories_adapter.py:127-131 | the comprehension is the reviewed pull requests of the page, in page order, each reduced to `{number, title}` |
| Lab03Fetch.ReviewedIsFilter | Lab03/src/repositories_adapter.py:127-131 | the kept pull requests keep page order and are a subsequence of the page. Each reviewed one is kept as often as it occurs, and an unreviewed one never |
| Lab03Fetch.LastCursorSplit | Lab03/src/repositories_adapter.py:133-134 | the cursor held at any request is the one a loop restarted part-way, from the cursor held there, would hold |
| Lab03Fetch.Compose | Lab03/src/repositories_adapter.py:98-142 | a call after which the loop goes on, followed by the rest of the loop from the cursor it left, is one loop with the two budgets added |
| Lab03Fetch.ReviewedAppend | Lab03/src/repositories_adapter.py:127-131 | filtering two pages in turn is filtering their concatenation, so page order is kept |
| Lab03Fetch.FetchPullRequests | Lab03/src/repositories_adapter.py:90-144 | the page loop, with its `break`s, returns the list and requests of its specification `PullRequests` |
| Lab03Fetch.PullRequestsFromExplained | Lab03/src/repositories_adapter.py:98-142 | from any page count on, the loop appends the reviewed pull requests of every 200 answer in order. Each request carries the next cursor of the latest page before it. It reads at most one 200 answer and five requests per remaining page. Only its last answer can stop it, and it stops before `max_pages` pages only at a failure or a page without a next cursor |
| Lab03Fetch.FetchPullRequestsExplained | Lab03/src/repositories_adapter.py:90-144 | at most `max_pages` pages and at most five requests per page. Every request asks for this repository's pull requests after the next cursor of the latest page before it, null before the first. The result is the reviewed pull requests of each page in page order. Every answer but the last lets it go on. A run that read fewer than `max_pages` pages ended at a failure or a page without a next cursor |
| Lab03Fetch.AllGoOnEach | Lab03/src/repositories_adapter.py:98-142 | "each of the first m calls ended at a 200 answer after which the loop goes on" is the same whether stated call by call or by recursion over the calls |
| Lab03Fetch.AllGoOnJoin | Lab03/src/repositories_adapter.py:98-142 | a run of calls that go on followed by another such run is one such run |
| Lab03Fetch.InCallsOne | Lab03/src/repositories_adapter.py:23-38 | one call is a run of exactly one whole call, whatever the call budget |
| Lab03Fetch.InCallsWeaken | Lab03/src/repositories_adapter.py:98-142 | a run of calls whose last answer does not let the loop go on stays a complete run under any larger budget |
| Lab03Fetch.InCallsCompose | Lab03/src/repositories_adapter.py:98-142 | a run of calls whose last call goes on, followed by a run of calls from where it ended, is one run of calls with the two budgets added |
| Lab03Fetch.CallsStop | Lab03/src/repositories_adapter.py:72-85 | a call that returned no body, or a page after which the loop does not go on, is a complete run of one call under any budget |
| Lab03Fetch.CallsGoOn | Lab03/src/repositories_adapter.py:72-85 | a call that returned a continuing page, followed by a run of calls, is a run with one call more and one more in the budget |
| Lab03Fetch.CallsSpelled | Lab03/src/repositories_adapter.py:98-142 | a run split into calls has some number n of whole calls, at most the budget. It ends where the n-th call ends, and its waits are the calls' waits. Every call but the last ended at a continuing 200. A run with fewer calls than the budget ended at a call that did not go on |
| Lab03Fetch.SearchFromCalls | Lab03/src/repositories_adapter.py:47-85 | from any batch on, the search loop's answers split into at most one whole call per remaining batch. Every call but the last returned a non-empty page, and a loop that stopped early stopped at a call without a body or with an empty page |
| Lab03Fetch.FetchRepositoriesCalls | Lab03/src/repositories_adapter.py:41-87 | `fetch_repositories` makes at most total // batch whole calls of `make_github_request`, ends where the last one ends and waits their backoffs. Each call but the last returned a non-empty page, and fewer calls means the last returned no body or an empty page |
| Lab03Fetch.PullRequestsFromCalls | Lab03/src/repositories_adapter.py:98-142 | from any page count on, the page loop's answers split into at most one whole call per remaining page. Every call but the last returned a page with a next cursor, and a loop that stopped early stopped at a call without a body or without a next cursor |
| Lab03Fetch.FetchPullRequestsCalls | Lab03/src/repositories_adapter.py:90-144 | `fetch_pull_requests` makes at most `max_pages` whole calls, ends where the last one ends and waits their backoffs. Each call but the last returned a page with a next cursor, and fewer calls means the last returned no body or no next cursor |
| Lab03Metrics.DescriptionLength | Lab03/src/repositories_adapter.py:281 | the description length is the body text's length, 0 when it is null |
| Lab03Metrics.TotalsAppend | Lab03/src/repositories_adapter.py:273-274 | the added and removed line totals are sums over the file nodes: totals of a concatenation add up |
| Lab03Metrics.CalculatePrMetrics | Lab03/src/repositories_adapter.py:252-294 | skipped for no data, for a null or empty end time, or for less than 3600 s. Malformed exactly when a timestamp it parses does not parse. Measured otherwise, with analysis time ≥ 3600 s equal to end − created, file totals as sums, description length, and the other counts copied |
| Lab03Metrics.MeasuredEndsAfterCreation | Lab03/src/repositories_adapter.py:258-269 | a measured pull request ends after it was created in calendar order, and its analysis time in hours is at least 1 |
| Lab03Metrics.EndTimeByState | Lab03/src/repositories_adapter.py:259 | a MERGED pull request is timed to `mergedAt`, any other to `closedAt` |
| Lab03Metrics.PrDetails | Lab03/src/repositories_adapter.py:246-249 | an absent or data-less body gives null details. A body of the other two shapes raises. Details that are present come from a pull-request body |
| Lab03Metrics.Take | Lab03/src/repositories_adapter.py:309 | `reviewed_prs[:max_prs]` is the prefix of length min(n, max_prs) |
| Lab03Metrics.CollectRepositoryMetrics | Lab03/src/repositories_adapter.py:297-320 | the refetch and detail loop, with its exceptions, returns the metrics and requests of its specification `Collect` |
| Lab03Metrics.CollectFromExplained | Lab03/src/repositories_adapter.py:309-318 | from any pull request on, the loop keeps earlier metrics, sends at most five detail requests per remaining pull request (each for one of them), and adds at most one well-tagged metric per pull request |
| Lab03Metrics.CollectExplained | Lab03/src/repositories_adapter.py:305-320 | only the first `max_prs` reviewed pull requests are looked at, with at most five detail requests each. At most one metric per pull request is kept, each tagged with the repository's owner and name and each of at least an hour |
| Lab03Metrics.CollectFromGathered | Lab03/src/repositories_adapter.py:309-318 | from any pull request on, the loop keeps the earlier metrics and appends the tagged metrics of every measured 200 detail answer, in order. It ends in `None` exactly when its last answer is a 200 whose handling raises, and no earlier 200 answer raises |
| Lab03Metrics.CollectStep | Lab03/src/repositories_adapter.py:309-318 | one pass of the detail loop gives up on a raising 200 answer. Otherwise it goes on with that answer's tagged metric added when the answer is measured |
| Lab03Metrics.CollectGathered | Lab03/src/repositories_adapter.py:297-320 | `collect_repository_metrics` returns the tagged metrics of the measured 200 detail answers, in order. It fails exactly when its last answer is a 200 whose handling raises: a body of another shape, or a timestamp that does not parse |
| Lab03Metrics.DetailQueriesLength | Lab03/src/repositories_adapter.py:309-318 | the detail queries of n calls are as many as the answers those calls read |
| Lab03Metrics.DetailQueryAt | Lab03/src/repositories_adapter.py:309-318 | every request of the k-th detail call asks for the details of the k-th pull request left |
| Lab03Metrics.MonotoneStarts | Lab03/src/repositories_adapter.py:23-38 | later calls start later |
| Lab03Metrics.NoneRaiseEach | Lab03/src/repositories_adapter.py:309-318 | "none of the first m detail calls ended at a raising 200 answer" is the same call by call as by recursion over the calls |
| Lab03Metrics.DetailCallsSpelled | Lab03/src/repositories_adapter.py:309-318 | the detail loop made n whole calls. Every request of call k asks for pull request `prs[i + k]`, and the waits are the calls' backoffs. With a list, there was one call per pull request left and none raised. With `None`, the last call ended at a raising 200 answer and no earlier one did |
| Lab03Metrics.DetailCallsRaise | Lab03/src/repositories_adapter.py:309-311 | a first detail call whose 200 answer raises is the whole loop: one call, `None` |
| Lab03Metrics.DetailCallsStep | Lab03/src/repositories_adapter.py:309-318 | a first detail call that does not raise, followed by the rest of the loop in calls, is the loop with one call more |
| Lab03Metrics.CollectFromCalls | Lab03/src/repositories_adapter.py:309-318 | from any pull request on, the detail loop is a run of whole calls, one per pull request in order, as `DetailCalls` states |
| Lab03Metrics.CollectCalls | Lab03/src/repositories_adapter.py:297-320 | `collect_repository_metrics` sends, after its pull-request fetch, exactly one call per pull request among the first `max_prs` when it returns a list. On `None` it made at most that many, the last ending at a raising 200 answer |
| Lab03Metrics.FieldMeanIsMean | Lab03/src/repositories_adapter.py:176-186 | each average column is the mean of that metric over the collected metrics |
| Lab03Metrics.MergedCount | Lab03/src/repositories_adapter.py:187 | the merged pull requests are no more than all measured ones |
| Lab03Metrics.MergeRate | Lab03/src/repositories_adapter.py:187 | the merge rate times the number of metrics is the number of MERGED ones, so it lies in [0, 1] |
| Lab03Metrics.ShareAtMostOne | Lab03/src/repositories_adapter.py:187 | a part of a positive whole divided by it lies in [0, 1], and times the whole gives back the part |
| Lab03Metrics.AverageMetrics | Lab03/src/repositories_adapter.py:164-188 | averages are all zero without metrics. Otherwise the analysis time is the mean of the seconds column divided by 3600, each other average is the mean of its column (files, additions, deletions, description length, comments, participants, reviews), and the merge rate is the merged share. The rate is always in [0, 1] |
| Lab03Metrics.AverageAnalysisAtLeastAnHour | Lab03/src/repositories_adapter.py:179 | metrics of at least an hour each average to at least an hour |
| Lab03Metrics.RowOfDescribes | Lab03/src/repositories_adapter.py:191-211 | a row built from at most ten well-tagged metrics describes its repository. It copies name, owner, stars and URL and maps a null language to "Desconhecido". Its averages are the averages of those metrics, with a merge rate in [0, 1]. It is zero-filled when the reviewed count is 0 |
| Lab03Metrics.ProcessData | Lab03/src/repositories_adapter.py:147-215 | the repository loop returns the rows and requests of its specification `Process` |
| Lab03Metrics.CollectCost | Lab03/src/repositories_adapter.py:297-320 | one collection sends at most 5 × (3 + 10) requests: a second pull-request fetch, then the detail requests |
| Lab03Metrics.RepositoryRowCost | Lab03/src/repositories_adapter.py:151-174 | metric collection runs only when the reviewed count is above 0. With no reviewed pull requests the row is zero-filled and no further request is sent |
| Lab03Metrics.RepositoryRowDescribes | Lab03/src/repositories_adapter.py:151-213 | each row describes its repository and counts its reviewed pull requests. Its averages are those of the metrics collected for it, or all zero without reviewed pull requests. There is no row exactly when the collection raised |
| Lab03Metrics.ProcessFromExplained | Lab03/src/repositories_adapter.py:151-213 | from any repository on, earlier rows are kept and each later repository gets exactly one row describing it, whose averages are those of at most ten metrics of that repository |
| Lab03Metrics.ProcessExplained | Lab03/src/repositories_adapter.py:147-215 | exactly one row per input repository, in order. Each row describes its repository, and its averages are those of at most ten metrics of that repository |
| Timestamps.Parse | Lab03/src/repositories_adapter.py:258 | a parsed timestamp is a valid instant (month 1-12, a day that exists in that month, hour, minute and second in range) |
| Timestamps.FormatThenParse | Lab03/src/repositories_adapter.py:258 | every valid instant reads back from its canonical text |
| Timestamps.ParseThenFormat | Lab03/src/repositories_adapter.py:258 | every text that parses is the canonical text of its instant, so parsing is injective |
| Timestamps.BeforeMeansEarlier | Lab03/src/repositories_adapter.py:264-265 | a calendar-earlier instant has fewer seconds since the epoch |
| Timestamps.EpochOrder | Lab03/src/repositories_adapter.py:264-265 | seconds since the epoch order instants exactly as the calendar does, in both directions, and distinct instants have distinct counts |
| Timestamps.EpochIsZero | Lab03/src/repositories_adapter.py:265 | 1970-01-01T00:00:00Z is second 0 |
| Statistics.Mean | Lab01/src/statistics_calculator.py:10 | the mean is undefined exactly for no values, and otherwise times the count gives the sum |
| Statistics.MeanWithin | Lab01/src/statistics_calculator.py:10 | the mean of values between lo and hi lies between them |
| Statistics.Sort | Lab01/src/statistics_calculator.py:19 | sorting gives an ascending permutation of the values |
| Statistics.SortedUnique | Lab01/src/statistics_calculator.py:19 | a multiset has exactly one ascending arrangement |
| Statistics.Median | Lab01/src/statistics_calculator.py:19 | the median is undefined exactly for no values |
| Statistics.MedianPermutation | Lab01/src/statistics_calculator.py:19 | the median does not depend on the order of the values |
| Statistics.MedianWithin | Lab01/src/statistics_calculator.py:19 | the median of values between lo and hi lies between them |
| Statistics.MedianSplits | Lab01/src/statistics_calculator.py:19 | for an odd count the median is the sorted middle value, with as many values at or below it as at or above it |
| Statistics.Distinct | Lab01/src/statistics_calculator.py:28 | the distinct values of a sorted column, strictly ascending, with the same members |
| Statistics.OccurringTimes | Lab01/src/statistics_calculator.py:28 | exactly the candidates that occur k times, ascending |
| Statistics.MaxCount | Lab01/src/statistics_calculator.py:28 | the highest number of occurrences among the candidates, reached by one of them |
| Statistics.Modes | Lab01/src/statistics_calculator.py:28 | the modes are exactly the values occurring at least as often as any other, ascending, and there is one for any non-empty column |
| Statistics.MaxCountIsMaximum | Lab01/src/statistics_calculator.py:28 | the highest count over a column's own values is the highest count of any value |
| Statistics.TiedModes | Lab01/src/statistics_calculator.py:24-30 | all ties are reported: [1, 1, 2, 2, 3] has modes [1, 2] |
| Statistics.SummariseColumns | Lab01/src/statistics_calculator.py:9-11 | one entry per column name, holding the summary of the last column of that name |
| Statistics.CalculateMean | Lab01/src/statistics_calculator.py:6-12 | one entry per column, each that column's mean |
| Statistics.CalculateMedian | Lab01/src/statistics_calculator.py:15-21 | one entry per column, each that column's median |
| Statistics.CalculateMode | Lab01/src/statistics_calculator.py:24-30 | one entry per column, each all of that column's modes |
| Statistics.Instants | Lab01/src/statistics_calculator.py:37-39 | every timestamp is parsed in order to its seconds since the epoch. `None` exactly when one does not parse |
| Statistics.ParseAll | Lab01/src/statistics_calculator.py:37-39 | the parsing loop returns exactly `Instants` |
| Statistics.InstantsPrefixNone | Lab01/src/statistics_calculator.py:37-39 | one unparsable timestamp makes the whole list fail |
| Statistics.CalculateLastUpdateStatistics | Lab01/src/statistics_calculator.py:33-50 | the mean, median and all modes of the parsed timestamps, or `None` exactly when one of them does not parse |
| Statistics.AgeDays | Lab01/src/statistics_calculator.py:59-60 | the age is the number of whole days elapsed, rounded down |
| Statistics.AgesOf | Lab01/src/statistics_calculator.py:57-60 | one whole-day age per instant, in order |
| Statistics.RepositoryAges | Lab01/src/statistics_calculator.py:57-60 | one whole-day age per row, or `None` exactly when a creation date does not parse |
| Statistics.InYears | Lab01/src/statistics_calculator.py:63 | an age in years times 365.25 is the age in days |
| Statistics.RepositoriesMiddleAge | Lab01/src/statistics_calculator.py:53-64 | the mean of the whole-day ages, in years of 365.25 days |
| Statistics.RepositoriesMedianAge | Lab01/src/statistics_calculator.py:66-77 | the median of the whole-day ages, in years of 365.25 days |
| Statistics.AgesNotNegative | Lab01/src/statistics_calculator.py:62-76 | repositories no older than the reference instant have a mean and median age of at least zero years |
| Statistics.AgeOfPastIsNotNegative | Lab01/src/statistics_calculator.py:59-60 | a creation instant no later than the reference instant has an age of at least zero days |

## Left out

- **Network and query text.** HTTP calls (`requests.post`) and the text of
  the GraphQL queries are not modelled. Answers come from the scripted
  server, and a request is recorded only by what varies in it: the batch
  size and cursor, the repository, or the pull-request number.
- **Side effects.** Sleeping is recorded as a list of delays, not performed.
  Printing, CSV writing (`csv_writer`, Lab01/src/file_adapter.py),
  `pd.set_option`, plots and HTML reports are not modelled.
- **Startup.** The token check that raises at import time, `load_dotenv`,
  argparse, and Lab01/install_dependencies.py are not modelled.
- **Lab02 repository processing.** `processData`, `clone_repo`,
  `remove_repo`, `remove_readonly`, `has_java_files` and `count_lines`
  (Lab02/src/repositories_adapter.py:118-234) are left out. They clone with
  git, walk the filesystem and run subprocesses.
- **Lab02 `calculate_repos_age`.** It uses floats and the wall clock, and it
  divides by 325.25 rather than 365.25. It is not modelled.
- **Lab02/src/quality_metrics_adapter.py** is not part of this model. It runs
  an external Java tool.
- **Lab05 benchmark.** `testar_rest`, `testar_graphql` and the module-level
  run (Lab05/src/repositories_adapter.py:114-163) are left out. They time
  wall-clock calls and reference names the module never defines.
  Lab05/src/analise_estatistica.py, a paired t-test on floats, is also left
  out.
- **Lab03/src/main.py** is not modelled. It only wires the calls together,
  with I/O.
- **Rounding and formatting.** `round(..., n)` and the percent string of the
  merge rate (Lab03/src/repositories_adapter.py:202-210,
  Lab01/src/statistics_calculator.py:11, 20, 64, 77) are not modelled. The
  model states properties of the exact values.
- **Lab01 search bodies.** A 200 answer to the Lab01, Lab02 or Lab05 search
  always carries a page in the model. The source raises `KeyError` on a 200
  body without `data.search`, and that path is not modelled.
- **Null repository in PR details.** The model cannot express a pull-request
  detail body whose `repository` is null. The source raises `TypeError` on
  one.
- **A 200 answer whose `data` is null.** The model's answer bodies always
  carry a `data` object, so a body `{"data": null}` cannot be expressed. On
  one the source raises: `AttributeError` from `data["data"].get(...)` in
  `fetch_repositories` and `fetch_pull_requests`
  (Lab03/src/repositories_adapter.py:73, 123), and `TypeError` from
  `data["data"]["repository"]` in `fetch_pr_details`
  (Lab03/src/repositories_adapter.py:248). Those exceptions are not
  modelled.
- **Pull-request pages.** A pull-request page body whose `pullRequests` is
  null is read like a missing repository (the loop stops). The source would
  raise on it. The same holds for a 200 answer to the list query that
  carries a pull-request detail body (`repository.pullRequest`): the model
  stops the loop quietly, where the source raises `KeyError` at
  `data['data']['repository']['pullRequests']`
  (Lab03/src/repositories_adapter.py:123-124).
- Lab03Fetch.FetchPullRequests: a 200 answer to the list query whose body
  has another shape (a pull-request detail body) ends the loop with the
  pull requests read so far. The source raises `KeyError` there
  (Lab03/src/repositories_adapter.py:123-124), and the exception leaves
  `process_data`. This path is not modelled as raising.
- Lab03Metrics.CollectFromExplained: states upper bounds only (at most five
  requests per pull request left, at most one metric each). The exact shape
  of the requests, one whole call per pull request in order, is stated by
  `Lab03Metrics.CollectFromCalls` and `Lab03Metrics.DetailCallsSpelled`.
- Timestamps.Parse: only the fixed-width `YYYY-MM-DDTHH:MM:SSZ` form is
  accepted. The leniency of `strptime` is not modelled: it also accepts
  unpadded fields such as `2024-1-5T3:4:5Z`. The same holds for
  `pd.to_datetime`, which accepts many more formats and offsets.
- Lab02Adapter.Lower: lower-cases the ASCII letters only. Python's
  `str.lower` also folds other Unicode letters.
- Statistics.RepositoriesMiddleAge: `datetime.now(timezone.utc)` is taken
  once, as the parameter `now`, rather than once per row. Instants are whole
  seconds, where pandas keeps nanoseconds.
- Statistics.RepositoriesMedianAge: the same single `now` and whole-second
  instants.
- Statistics.CalculateLastUpdateStatistics: the timestamps are instants in
  whole seconds, where pandas timestamps have nanosecond precision. A mean
  of timestamps is an exact `real` number of seconds.
- Statistics.CalculateMean: columns hold whole numbers. pandas would also
  average floats and skip `NaN` cells, and neither is modelled. The same
  holds for `Statistics.CalculateMedian` and `Statistics.CalculateMode`.
- Statistics.SummariseColumns: a table is a sequence of named columns. When
  a name repeats, the last column wins, as in a Python dict built in order.
  A DataFrame's own handling of duplicate labels is not modelled.
- Lab03Metrics.ProcessExplained: states one row per repository only for runs
  that end without an exception. A run that raises is `None` and has no
  table, as in the source.
- Lab03Metrics.AverageMetrics: averages the analysis time as the mean of
  seconds divided by 3600. Dividing first and then averaging gives the same
  real value. The float arithmetic of pandas is not modelled.
- **Docstring.** The docstrings of the Lab01, Lab02 and Lab05
  `fetchRepositories` promise "100 repositories in 4 calls of 25". The code
  fetches `totalRepos // batchSize` batches: 40 for Lab01 and Lab05, 3 for
  Lab02. The model follows the code.
- **Duplicated Lab01 code.** `fetchRepositories` and `processData` in
  Lab01/src/main.py are word-for-word copies of those in
  Lab01/src/repositories_adapter.py, and are modelled once, by the
  `Lab01Adapter` members.
