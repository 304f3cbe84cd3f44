# github_metrics in Dafny

This project models the core of github_metrics. The tool pages through a
repository's branches and merged pull requests with the GitHub GraphQL API,
then reduces what it fetched to a few engineering metrics:

- total commits and total pull requests;
- commits per `%Y-%U` week;
- average commit size (additions + deletions);
- the seconds from each commit to the merge of its pull request;
- average commits per pull request.

It has eight modules, one per file:

- `Outcomes` (outcomes.dfy): `Option`, and `Outcome`, which is either a value
  or the `ValueError` a call raises.
- `Timestamps` (timestamps.dfy) models the date handling:
  - `datetime.strptime` with `"%Y-%m-%dT%H:%M:%SZ"`;
  - the difference of two datetimes in seconds;
  - `strftime("%Y-%U")`, the Sunday-based week bucket.
- `Records` (records.dfy): the JSON nodes the code reads, as datatypes. A key
  that may be missing is an `Option`.
- `MetricDefinitions` (metric_definitions.dfy) holds the reference definitions
  both metric implementations are proved against:
  - weekly tallies;
  - commit-to-merge deltas;
  - sums and means.
- `MetricsCalculator` (metrics_calculator.dfy): the `MetricsCalculator` class.
  It has no fields, so its methods are members of the module.
- `Metrics` (metrics.dfy): the metric functions of metrics.py, and the
  reduction half of `calculate_commit_metrics`.
- `GitHubApi` (github_api.dfy) models `execute_graphql_query` and the two
  fetch loops:
  - The network is a list of responses that the successive POSTs receive.
  - Once that list runs out, every further POST is a connection error.
- `Agreement` (agreement.dfy): the two metric implementations agree when every
  commit carries a date.

The loops of the source are Dafny methods with loop invariants. Each method's
postcondition ties its result to a reference function, and the properties the
code promises are lemmas about that function.

## Model

| member | source | states |
|---|---|---|
| Timestamps.Parse | metrics_calculator.py:9 | a parsed datetime has a month, day, hour, minute and second that exist (`strptime` raises ValueError otherwise) |
| Timestamps.FormatParse | metrics.py:49 | a text Parse accepts is exactly the canonical text of the datetime it returns |
| Timestamps.ParseFormat | metrics.py:63 | parsing the canonical text of any valid datetime gives that datetime back |
| Timestamps.Format | metrics_calculator.py:9 | the canonical 20-character text of a datetime in the `"%Y-%m-%dT%H:%M:%SZ"` layout |
| Timestamps.Ordinal | metrics_calculator.py:25 | `toordinal()`: 0001-01-01 is day 1, and every date's number falls within the days of its own year |
| Timestamps.DaysBeforeMonthStep | metrics_calculator.py:25 | the month table behind the ordinal: January starts at day 0, each month starts where the previous one ends, and December ends the year |
| Timestamps.Seconds | metrics_calculator.py:25 | whole seconds since 0001-01-01T00:00:00, so `(a - b).total_seconds()` is `Seconds(a) - Seconds(b)` |
| Timestamps.SecondsOrder | metrics_calculator.py:25 | `(a - b).total_seconds()` is negative, zero or positive exactly as a is before, equal to or after b |
| Timestamps.DaysBeforeYearStep | metrics.py:66 | the day count behind the seconds adds 365 or 366 days per year, following the Gregorian leap rule |
| Timestamps.DayOfYear | metrics_calculator.py:12 | `tm_yday`: the days since 1 January, from 0 to one less than the days of the year |
| Timestamps.Weekday | metrics_calculator.py:12 | `tm_wday`: 0 for Sunday through 6 for Saturday |
| Timestamps.WeekOfYear | metrics_calculator.py:12 | `%U` is a week number from 0 to 53 |
| Timestamps.WeekOfYearBySunday | metrics_calculator.py:12 | within a year, two dates share a `%U` week exactly when they have the same preceding-or-equal Sunday |
| Timestamps.WeekZero | metrics.py:52 | week 0 holds exactly the days before the first Sunday of the year |
| Timestamps.WeekKey | metrics_calculator.py:12 | `strftime("%Y-%U")`: a 7-character key, the four-digit year, '-', the two-digit `%U` week |
| Timestamps.WeekKeySameBucket | metrics_calculator.py:12-13 | two dates land in the same `"%Y-%U"` bucket exactly when they have the same year and the same `%U` week |
| Records.IsMerged | metrics.py:60-62 | `pr.get("mergedAt")` is truthy: present, not null and not empty |
| Records.CommitNodes | metrics.py:64 | `pr.get("commits", {}).get("nodes", [])` |
| Records.HasNextPage | github_api.py:110 | `page_info.get("hasNextPage", False)` is true |
| MetricDefinitions.ParseAll | metrics_calculator.py:9 | the list comprehension raises exactly when some date fails to parse; otherwise it gives one parsed datetime per text, in order |
| MetricDefinitions.Tally | metrics_calculator.py:10-13 | the counting loop's map, one `get(week, 0) + 1` per key in order; every count lies between 1 and the number of keys |
| MetricDefinitions.WeekFrequency | metrics.py:47-54 | `calculate_commit_frequency` as a function: the ValueError of the first unparsable date, or the tally of the week keys of the parsed dates |
| MetricDefinitions.TallyExact | metrics_calculator.py:11-13 | a week key is in the counts exactly when some date falls in it, and its count is the number of such dates |
| MetricDefinitions.TallyTotal | metrics.py:51-53 | the counts add up to the number of dates tallied |
| MetricDefinitions.WeekFrequencyMeaning | metrics.py:47-54 | the frequency map exists exactly when every date parses; then every count is at least 1, the counts sum to the number of dates, and each key's count is the number of dates in that week |
| MetricDefinitions.SameWeekExample | metrics.py:47-54 | a Monday and the following Saturday give the single bucket "2024-09" with count 2 |
| MetricDefinitions.WeekBoundaryExample | metrics.py:47-54 | a Saturday and the following Sunday fall into "2024-09" and "2024-10" |
| MetricDefinitions.NodeDeltas | metrics_calculator.py:23-25 | the inner loop as a function: one merged-minus-committed delta per commit node in order, or the ValueError of the first unparsable date |
| MetricDefinitions.PullRequestDeltas | metrics.py:60-66 | one pull request's entries: none when `mergedAt` is falsy, the ValueError when it does not parse, otherwise its nodes' deltas |
| MetricDefinitions.MergeDeltas | metrics.py:56-67 | the outer loop as a function: the entries of each pull request in order, or the first ValueError |
| MetricDefinitions.MergeDeltasAppend | metrics.py:59-66 | the deltas of concatenated pull-request lists are the deltas of the first list followed by those of the second (or the first ValueError) |
| MetricDefinitions.UnmergedContributesNothing | metrics.py:60-62 | a pull request without a truthy `mergedAt` adds no entry, wherever it stands |
| MetricDefinitions.MergeDeltasRaisesEarly | metrics_calculator.py:22-24 | once a prefix of the pull requests raises ValueError, the whole computation raises |
| MetricDefinitions.NodeDeltasMeaning | metrics_calculator.py:23-25 | for one merged pull request: the result exists exactly when every commit date parses, and then it has one entry per commit node, in order |
| MetricDefinitions.PullRequestDeltasMeaning | metrics_calculator.py:20-25 | one pull request's entries exist exactly when its merge time and commit dates parse; each entry is merged minus committed in seconds for its commit node |
| MetricDefinitions.MergeDeltasMeaning | metrics.py:56-67 | the commit-to-merge list exists exactly when every date read parses; it then has one entry per (mergedAt, committedDate) pair of the merged pull requests, in order, each the signed difference in seconds |
| MetricDefinitions.Additions | metrics_calculator.py:45 | `commit.get("additions", 0)`: the commit's additions, 0 when the key is missing |
| MetricDefinitions.Deletions | metrics_calculator.py:46 | `commit.get("deletions", 0)`: the commit's deletions, 0 when the key is missing |
| MetricDefinitions.SumAdditions | metrics_calculator.py:45 | the `sum` of the additions of all commits |
| MetricDefinitions.SumDeletions | metrics_calculator.py:46 | the `sum` of the deletions of all commits |
| MetricDefinitions.SumSizes | metrics.py:27-29 | the `sum` of additions plus deletions over the commit sizes |
| MetricDefinitions.SumSizesAppend | metrics.py:29 | the sum of a concatenation is the sum of its parts |
| MetricDefinitions.NodeCount | metrics_calculator.py:30 | `len(pr["commits"]["nodes"])` of one pull request that has them |
| MetricDefinitions.TotalNodes | metrics.py:71 | `sum(len(pr["commits"]["nodes"]) for pr in pull_requests)` |
| MetricDefinitions.TotalNodesAppend | metrics_calculator.py:30 | the node total of a concatenation is the total of its parts |
| MetricDefinitions.SumSizesSplit | metrics.py:27-29 | summing `add + delete` per commit equals total additions plus total deletions |
| MetricDefinitions.SumSizesBounds | metrics_calculator.py:44-51 | if every commit size is between lo and hi, the total is between n·lo and n·hi |
| MetricDefinitions.TotalNodesBounds | metrics_calculator.py:30 | if every pull request has between lo and hi commit nodes, the total is between n·lo and n·hi |
| MetricDefinitions.Mean | metrics.py:73 | `total / count if count else 0` exactly: 0 for no items, otherwise the value that times the count gives the total |
| MetricDefinitions.MeanBetween | metrics.py:73 | a total between n·lo and n·hi, divided by n > 0, lies between lo and hi |
| MetricsCalculator.CommittedDates | metrics_calculator.py:9 | one date per commit, in order, each the commit's `committedDate` |
| MetricsCalculator.CalculateCommitFrequency | metrics_calculator.py:7-14 | the loop leaves the weekly tally of the parsed dates, or the ValueError of the first unparsable date |
| MetricsCalculator.CalculateCommitToMergeTime | metrics_calculator.py:16-26 | the loops build the commit-to-merge list of the reference definition; the `commits` argument plays no part |
| MetricsCalculator.CommitTimes | metrics_calculator.py:23-25 | the inner loop appends merged minus committed seconds for each commit node, or raises at the first unparsable date |
| MetricsCalculator.CalculateCommitsPerPullRequest | metrics_calculator.py:28-32 | 0 when there are no pull requests; otherwise the result times the number of pull requests is the total number of commit nodes |
| MetricsCalculator.CalculateTotalCommits | metrics_calculator.py:34-36 | the number of commits |
| MetricsCalculator.CalculateAverageCommitSize | metrics_calculator.py:38-51 | 0 when there are no commits; otherwise the result times the number of commits is total additions plus total deletions, a missing count being 0 |
| MetricsCalculator.FrequencySumsToTotal | metrics_calculator.py:7-14 | the weekly counts sum to the total number of commits, and each is at least 1 |
| MetricsCalculator.FrequencyRaisesOnlyOnBadDate | metrics_calculator.py:9 | the frequency raises exactly when some commit's `committedDate` does not parse |
| MetricsCalculator.CommitsPerPullRequestBetween | metrics_calculator.py:28-32 | the mean lies between the smallest and the largest per-pull-request count |
| MetricsCalculator.AverageCommitSizeBetween | metrics_calculator.py:38-51 | the average lies between the smallest and the largest commit size |
| Metrics.PresentDates | metrics.py:23 | at most one date per commit |
| Metrics.PresentDatesMembers | metrics.py:23 | a text is in the list exactly when some commit carries it as its `committedDate` |
| Metrics.PresentDatesAppend | metrics.py:23 | order and copies are kept: the dates of a concatenation are the dates of the first part followed by those of the second |
| Metrics.PresentDatesSingle | metrics.py:23 | a single commit contributes its date once when it has one, and nothing otherwise |
| Metrics.CalculateCommitFrequency | metrics.py:47-54 | the loop leaves the weekly tally of the parsed dates, or the ValueError of the first unparsable date |
| Metrics.CalculateCommitToMergeTime | metrics.py:56-67 | the loops build the commit-to-merge list of the reference definition; `commits` is not read |
| Metrics.CommitNodeTimes | metrics.py:64-66 | the inner loop appends merged minus committed seconds per commit node, or raises at the first unparsable date |
| Metrics.CalculateCommitsPerPullRequest | metrics.py:69-73 | 0 when there are no pull requests; otherwise the result times the count is the total number of commit nodes |
| Metrics.AverageCommitSize | metrics.py:27-30 | 0 when there are no commits; otherwise the result times the count is the sum of the commit sizes |
| Metrics.CalculateCommitMetrics | metrics.py:19-45 | returns exactly when the frequency and the commit-to-merge list both compute; then the totals are the list lengths and every other field is its reference value |
| Metrics.PresentDatesCount | metrics.py:23 | the filtered date list is as long as the number of dated commits, at most the number of commits |
| Metrics.FrequencyTotalAtMostTotalCommits | metrics.py:19-24 | the weekly counts sum to the number of dated commits, which is at most "Total Commits" and equal to it exactly when every commit is dated |
| Agreement.PresentDatesAllDated | metrics.py:23 | when every commit is dated, the filtered date list equals the calculator's full list |
| Agreement.FrequencyAgrees | metrics_calculator.py:7-14 | when every commit is dated, both implementations compute the same frequency and the dated count equals the total |
| Agreement.AverageCommitSizeAgrees | metrics.py:27-30 | the calculator's separate sums and the per-commit sum give the same average commit size |
| GitHubApi.RunFrom | github_api.py:76-91 | the retry loop from a given attempt on: no POST once `attempt` reaches `retries`; otherwise a POST count between `attempt` and `retries`, `None` only after every remaining attempt failed, and data or a ValueError from the last POST made |
| GitHubApi.Run | github_api.py:74-93 | at most `retries` POSTs and none when `retries` ≤ 0; `None` comes only after exactly max(retries, 0) failed POSTs; otherwise the last POST is the only one that did not fail |
| GitHubApi.Backoffs | github_api.py:88-91 | the k-th failure (from 1) is followed by a wait of `backoff_factor ** k` seconds |
| GitHubApi.Pow | github_api.py:89 | `backoff_factor ** attempt`: positive for a positive factor, 0 after the first power of 0, and for a negative factor nonzero and negative exactly at odd exponents |
| GitHubApi.Query | github_api.py:74-93 | one call with any backoff factor: at most max(retries, 0) POSTs; `None` only after max(retries, 0) failures; otherwise one POST more than the failures slept through, and data only from a POST within the responses |
| GitHubApi.ExecuteGraphqlQuery | github_api.py:74-93 | the retry loop returns the result and POST count of `Query` and sleeps the waits `Backoffs` gives, in order; a negative wait raises ValueError as `time.sleep` does |
| GitHubApi.NegativeFactorRaises | github_api.py:87-91 | with a negative factor the first wait is negative, so the call raises ValueError after one POST exactly when that POST does not bring data; with any other factor the factor changes only the waits |
| GitHubApi.RunFromSkip | github_api.py:87-91 | failed attempts only advance the attempt counter |
| GitHubApi.FirstSuccessReturned | github_api.py:84-86 | after k < retries failures, a response with data is returned at once, by the (k+1)-th POST |
| GitHubApi.GraphqlErrorsNotRetried | github_api.py:84-85 | after k < retries failures, a GraphQL error payload raises ValueError at once and is not retried |
| GitHubApi.NoneOnlyAfterAllFailed | github_api.py:92-93 | `None` comes back exactly when all of the first `retries` POSTs failed |
| GitHubApi.SumBackoffs | github_api.py:88-91 | the waits the retry loop returns add up to `TotalWait` |
| GitHubApi.RunFromData | github_api.py:84-86 | data a query returns is the payload of one of the responses |
| GitHubApi.TotalWaitGeometric | github_api.py:89-91 | (b − 1) times the total sleep after n failures is b^(n+1) − b |
| GitHubApi.DefaultRetriesGiveUp | github_api.py:74-93 | with the defaults, three failures followed by a success give `None` after three POSTs and waits of 2, 4 and 8 seconds |
| GitHubApi.PaginateFrom | github_api.py:100-112 | the `while True` loop from a state on: query with the cursor; stop on `None`, a ValueError or a page without `hasNextPage`; otherwise go on with `endCursor` |
| GitHubApi.Paginate | github_api.py:121-137 | the whole loop, started with a null cursor and nothing collected |
| GitHubApi.PaginateFromShape | github_api.py:100-112 | the first query carries the starting cursor and each later one the previous page's `endCursor`; every page but the last has a next page; at most one query more than the responses consumed |
| GitHubApi.PaginateShape | github_api.py:121-137 | the whole loop starts from a null cursor, chains cursors, stops at the first page without a next page, and makes at most n + 3 POSTs for n responses |
| GitHubApi.PaginateFromPages | github_api.py:100-105 | every page the loop collects was collected before or is the payload of one of the remaining responses |
| GitHubApi.PaginatePages | github_api.py:121-126 | every page a fetch loop collects is the payload of one of its responses |
| GitHubApi.RefCommits | github_api.py:107-108 | `ref["target"]["history"]["nodes"]` when the ref has a target with a history, otherwise no commits |
| GitHubApi.RefsCommits | github_api.py:106-108 | the history nodes of the refs whose target has a history, in ref order |
| GitHubApi.PagesCommits | github_api.py:100-108 | the history nodes collected page by page, in page order |
| GitHubApi.CollectRefCommits | github_api.py:106-108 | the history nodes of the refs that have a target with a history, concatenated in ref order |
| GitHubApi.FetchCommits | github_api.py:95-114 | the loop returns the history nodes of every received page in order: everything collected so far when a query gives up, or the ValueError; it also returns the cursors sent and the POSTs made |
| GitHubApi.LocalPart | github_api.py:130 | `developer_email.split("@")[0]`: the longest prefix without '@', which is the whole text or is followed by '@' |
| GitHubApi.ByAuthor | github_api.py:130 | the filter condition: the pull request has a non-null author whose `login` is present and equals the given login |
| GitHubApi.FilterByAuthor | github_api.py:129-131 | the list comprehension: the pull requests by the login, in order; never more than given |
| GitHubApi.FilterByAuthorAppend | github_api.py:129-132 | order and copies are kept: a single pull request is kept exactly when it is by the login, and the kept pull requests of a concatenation are those of the first part followed by those of the second |
| GitHubApi.FilterByAuthorMeaning | github_api.py:129-131 | a pull request is kept exactly when it has a non-null author whose login is the given one |
| GitHubApi.FetchPullRequests | github_api.py:116-139 | the loop returns, page by page, the pull requests whose author login is the email's local part, with the same stopping rules as `fetch_commits` |
| GitHubApi.NoAuthorKeepsNothing | github_api.py:50-72 | when no node has an author, which is always the case with this query since it never asks for `author`, nothing is kept |
| GitHubApi.FetchPullRequestsNoAuthor | github_api.py:116-139 | when no response carries a pull request with an author (the pull-request query at lines 50-72 never asks for one), `fetch_pull_requests` returns an empty list or raises ValueError |
| GitHubApi.SinglePage | github_api.py:110-111 | a first page without a next page ends the loop after one POST with a null cursor |
| GitHubApi.FirstQueryFails | github_api.py:102-104 | a first query that gives up ends `fetch_commits` with an empty list after three POSTs |

## Behaviour of the code worth knowing


- GraphQL errors in a response raise `ValueError` (github_api.py:84-85). The
  `except` at line 87 does not catch it, so it escapes both fetch loops and
  `calculate_commit_metrics`.
- With the default `retries=3`, three transport failures followed by a
  success give `None` (github_api.py:77, 92-93). The fourth POST is never made
  (`DefaultRetriesGiveUp`).
- The fetch loops have no item cap (github_api.py:100-112, 121-137). They stop
  only on a missing or false `hasNextPage` (lines 110-111, 135-136), on `None`
  (lines 102-104, 123-125), or when a ValueError escapes the query. In the
  model they also stop once the response list has run out, since every
  further POST then fails and the query gives `None`.
- A negative `backoff_factor` makes the first wait negative. `time.sleep`
  then raises ValueError inside the `except` block (github_api.py:89-91), so
  the call raises after one failed POST (`NegativeFactorRaises`).
- Weeks are `%U` weeks (metrics_calculator.py:12, metrics.py:52): they start
  on Sunday, and the days before the year's first Sunday are week 0. They are
  not ISO weeks.
- The pull-request query (github_api.py:50-72) does not request `author`, so
  the author filter at lines 129-131 keeps no pull request
  (`FetchPullRequestsNoAuthor`). Pull-request metrics are
  then computed over an empty list.
- The commit query (github_api.py:21-47) reads only the first 100 history
  nodes of each branch.
  A commit reachable from several branches is counted once per branch.
  The model keeps both behaviours.

## Left out

- Network I/O, the bearer token and `.env` loading, the query texts, logging, and the module-level check for `GITHUB_TOKEN` are not modelled. The server's answers are the response list passed in.
- GitHubApi.ExecuteGraphqlQuery: does not sleep. It returns the wait times in order.
- GitHubApi.ExecuteGraphqlQuery: a connect timeout or an SSL error is the `ConnectionError` response, since requests derives both from `ConnectionError` and the `except` at line 87 retries them. `requests.post` at line 79 passes no `timeout`, so no read timeout occurs. Other exceptions, such as a body that is not JSON, propagate in the source and are not modelled.
- GitHubApi.ExecuteGraphqlQuery: a wait longer than `time.sleep` accepts (about 9.2e9 seconds, e.g. factor 2 with 34 or more retries) raises OverflowError in the source; the model returns it as a wait. The fetch loops always pass the defaults, whose waits are 2, 4 and 8 seconds.
- GitHubApi.ExecuteGraphqlQuery: a non-200 status below 400 is treated like success, as `raise_for_status` does. Only the logging of it is left out.
- GitHubApi.FetchCommits: the response list does not depend on the cursor sent. The cursors are returned so that the chaining can be stated.
- GitHubApi.FetchCommits: the loop over one page's refs is the helper method `CollectRefCommits`, called once per page.
- GitHubApi.FetchPullRequests: the author filter is a function applied to each page.
- Records: `None` is a missing key, and a JSON `null` only where the code treats it like one (a truthiness test). A `null` that `.get(key, default)` hands on is not modelled: `"additions": null` makes the sum raise TypeError and `"commits": null` makes the next `.get` raise AttributeError, where a missing key gives 0 or no nodes.
- MetricsCalculator.CalculateCommitFrequency: requires every commit to carry `committedDate`. Without it the source raises KeyError, which is not modelled.
- MetricsCalculator.CalculateCommitsPerPullRequest: requires `commits.nodes` on every pull request. Without it the source raises KeyError.
- Metrics.CalculateCommitsPerPullRequest: same KeyError precondition as the calculator's version.
- Metrics.CalculateCommitMetrics: takes the fetched lists as inputs. The two fetches happen before it.
- Timestamps.Parse: accepts only the canonical 20-character form. `strptime` also takes shorter fields such as "2024-3-4T1:2:3Z", and it matches case-insensitively, so it also takes a lowercase `t` and `z` as in "2024-03-04t10:00:00z". `strptime`'s `\d` also matches any Unicode decimal digit, so full-width digits parse in Python where `Parse` gives `None`. GitHub sends none of these forms.
- Timestamps: years range over 1..9999 as in Python's `datetime`; seconds are whole, since the wire format has none finer.
- Timestamps.WeekKey: always pads the year to four digits. CPython on Linux before 3.12.5 hands `%Y` to glibc, which does not pad years below 1000, so there the key of such a year is shorter.
- MetricsCalculator.CalculateAverageCommitSize: uses exact reals where Python divides in floating point. Python returns the integer 0 for an empty list; the model returns 0.0.
- MetricsCalculator.CalculateCommitToMergeTime: gives whole seconds as integers, where `total_seconds()` returns a float with the same value.
- The frequency maps do not model dict insertion order.
- main.py, the interactive `__main__` block of metrics.py, and printing are not part of this model.
