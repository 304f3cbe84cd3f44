/** github_api.py: the retrying GraphQL POST and the two cursor-paginated
    fetch loops. The network is an oracle: the list of responses the
    successive POSTs receive, in the order they are made; once it is used up
    every further POST fails with a connection error. The time the retry
    loop sleeps is returned instead of slept. */
module GitHubApi {
  import opened Outcomes
  import opened Records

  /** What one `requests.post` amounts to for `execute_graphql_query`. */
  datatype Response<P> =
    | HttpError          // status 4xx/5xx: `raise_for_status` raises HTTPError
    | ConnectionError    // requests.exceptions.ConnectionError
    | GraphqlErrors      // a decoded body with an "errors" key
    | Success(data: P)   // a decoded body without "errors"

  predicate IsFailure<P>(r: Response<P>) {
    r.HttpError? || r.ConnectionError?
  }

  /** The response the k-th POST (from 0) receives. */
  function ResponseAt<P>(rs: seq<Response<P>>, k: nat): Response<P> {
    if k < |rs| then rs[k] else ConnectionError
  }

  /** The default arguments of `execute_graphql_query`. */
  const Retries: int := 3
  const BackoffFactor: int := 2

  // ---------------------------------------------------------------------
  // execute_graphql_query
  // ---------------------------------------------------------------------

  /** One call of `execute_graphql_query`: what it returns (`Returns(None)`
      after the last retry, or `RaisesValueError` for GraphQL errors), how
      many POSTs it made and how many of them failed and were retried. */
  datatype QueryRun<P> = QueryRun(result: Outcome<Option<P>>, posts: nat, failures: nat)

  function Max0(n: int): nat {
    if n < 0 then 0 else n
  }

  /** The retry loop from attempt number `attempt` on (the POSTs before it
      having failed): an HTTP or connection error uses up an attempt;
      GraphQL errors raise at once; data is returned at once. Once
      `attempt` reaches `retries` the answer is `None`. */
  function RunFrom<P>(rs: seq<Response<P>>, retries: int, attempt: nat): (run: QueryRun<P>)
    ensures attempt <= run.posts <= Max0(retries) || run.posts == attempt >= retries
    ensures run.result == Returns(None) ==> run.posts == run.failures == (if attempt < retries then retries else attempt)
    ensures run.result != Returns(None) ==> run.posts == run.failures + 1 && 1 <= run.posts <= |rs|
    decreases Max0(retries - attempt)
  {
    if attempt >= retries then QueryRun(Returns(None), attempt, attempt)
    else
      match ResponseAt(rs, attempt)
      case Success(d) => QueryRun(Returns(Some(d)), attempt + 1, attempt)
      case GraphqlErrors => QueryRun(RaisesValueError, attempt + 1, attempt)
      case _ => RunFrom(rs, retries, attempt + 1)
  }

  /** One whole call: the POSTs it makes, how many failed, and what it
      returns. At most `retries` POSTs, none when `retries` <= 0. */
  function Run<P>(rs: seq<Response<P>>, retries: int): (run: QueryRun<P>)
    ensures run.posts <= Max0(retries)
    ensures run.result == Returns(None) ==> run.posts == run.failures == Max0(retries)
    ensures run.result != Returns(None) ==> run.posts == run.failures + 1 && 1 <= run.posts <= |rs|
  {
    RunFrom(rs, retries, 0)
  }

  /** `backoff_factor ** attempt`: never negative for a base that is not,
      and for a negative base negative exactly at odd exponents. */
  function Pow(b: int, e: nat): (r: int)
    ensures b > 0 ==> r > 0
    ensures b == 0 ==> r == (if e == 0 then 1 else 0)
    ensures b < 0 ==> (r < 0 <==> e % 2 == 1) && r != 0
  {
    if e == 0 then 1 else b * Pow(b, e - 1)
  }

  /** The waits after the first n failures: b^1, ..., b^n. */
  function Backoffs(b: int, n: nat): (ws: seq<int>)
    ensures |ws| == n
    ensures forall k :: 0 <= k < n ==> ws[k] == Pow(b, k + 1)
  {
    if n == 0 then [] else Backoffs(b, n - 1) + [Pow(b, n)]
  }

  /** One call with backoff factor b. `time.sleep` raises ValueError for a
      negative length, and the first wait is b itself, so with b < 0 a
      first POST that fails raises (no wait was slept, hence no failure is
      counted); every other call runs as `Run` says. */
  function Query<P>(rs: seq<Response<P>>, retries: int, b: int): (run: QueryRun<P>)
    ensures run.posts <= Max0(retries)
    ensures run.result == Returns(None) ==> run.posts == run.failures == Max0(retries)
    ensures run.result != Returns(None) ==> run.posts == run.failures + 1
    ensures run.result.Returns? && run.result.value.Some? ==> run.posts <= |rs|
  {
    if b < 0 && 0 < retries && IsFailure(ResponseAt(rs, 0)) then QueryRun(RaisesValueError, 1, 0)
    else Run(rs, retries)
  }

  /** `execute_graphql_query(query, variables, retries, backoff_factor)`:
      POST until data or GraphQL errors come back or `retries` attempts have
      failed, sleeping `backoff_factor ** attempt` seconds after the
      attempt-th failure (a negative wait raises ValueError). Returns the
      result, the number of POSTs made and the waits slept, in order. */
  method ExecuteGraphqlQuery<P>(rs: seq<Response<P>>, retries: int, backoffFactor: int)
    returns (r: Outcome<Option<P>>, posts: nat, waits: seq<int>)
    ensures r == Query(rs, retries, backoffFactor).result
    ensures posts == Query(rs, retries, backoffFactor).posts
    ensures waits == Backoffs(backoffFactor, Query(rs, retries, backoffFactor).failures)
  {
    var attempt: nat := 0;
    waits := [];
    while attempt < retries
      invariant waits == Backoffs(backoffFactor, attempt)
      invariant Run(rs, retries) == RunFrom(rs, retries, attempt)
      invariant backoffFactor < 0 ==> attempt == 0
      decreases retries - attempt
    {
      var response := ResponseAt(rs, attempt);
      match response
      case Success(data) =>
        return Returns(Some(data)), attempt + 1, waits;
      case GraphqlErrors =>
        return RaisesValueError, attempt + 1, waits;
      case _ =>
        attempt := attempt + 1;
        var waitTime := Pow(backoffFactor, attempt);
        if waitTime < 0 {
          // time.sleep(wait_time) raises ValueError
          return RaisesValueError, attempt, waits;
        }
        waits := waits + [waitTime];
    }
    return Returns(None), attempt, waits;
  }

  /** With a negative backoff factor the call raises ValueError exactly when
      its first POST fails or gets GraphQL errors, after that one POST and
      without sleeping; with any other factor the factor changes only the
      waits. */
  lemma NegativeFactorRaises<P>(rs: seq<Response<P>>, retries: int, b: int)
    requires 0 < retries
    ensures b < 0 ==> (Query(rs, retries, b).result == RaisesValueError <==> !ResponseAt(rs, 0).Success?)
    ensures b < 0 && Query(rs, retries, b).result == RaisesValueError ==> Query(rs, retries, b).posts == 1
    ensures b >= 0 ==> Query(rs, retries, b) == Run(rs, retries)
  {
  }

  /** Failed attempts from a to k leave the outcome as it was at a. */
  lemma {:induction false} RunFromSkip<P>(rs: seq<Response<P>>, retries: int, a: nat, k: nat)
    requires a <= k <= retries
    requires forall j :: a <= j < k ==> IsFailure(ResponseAt(rs, j))
    ensures RunFrom(rs, retries, a) == RunFrom(rs, retries, k)
    decreases k - a
  {
    if a < k {
      assert IsFailure(ResponseAt(rs, a));
      RunFromSkip(rs, retries, a + 1, k);
    }
  }

  // ---------------------------------------------------------------------
  // Properties of the retry loop
  // ---------------------------------------------------------------------

  /** After k failed attempts (k below the number of retries), a response
      with data is returned at once, by the (k+1)-th POST. */
  lemma FirstSuccessReturned<P>(rs: seq<Response<P>>, retries: int, k: nat, d: P)
    requires k < retries
    requires forall j :: 0 <= j < k ==> IsFailure(ResponseAt(rs, j))
    requires ResponseAt(rs, k) == Success(d)
    ensures Run(rs, retries) == QueryRun(Returns(Some(d)), k + 1, k)
  {
    RunFromSkip(rs, retries, 0, k);
  }

  /** GraphQL errors after k failed attempts raise ValueError; they are not
      retried. */
  lemma GraphqlErrorsNotRetried<P>(rs: seq<Response<P>>, retries: int, k: nat)
    requires k < retries
    requires forall j :: 0 <= j < k ==> IsFailure(ResponseAt(rs, j))
    requires ResponseAt(rs, k) == GraphqlErrors
    ensures Run(rs, retries) == QueryRun(RaisesValueError, k + 1, k)
  {
    RunFromSkip(rs, retries, 0, k);
  }

  /** `None` comes back exactly when the first `retries` POSTs all failed
      (or no POST was allowed at all). */
  lemma {:induction false} NoneOnlyAfterAllFailed<P>(rs: seq<Response<P>>, retries: int, a: nat)
    requires a <= Max0(retries)
    ensures RunFrom(rs, retries, a).result == Returns(None) <==>
      forall j :: a <= j < retries ==> IsFailure(ResponseAt(rs, j))
    decreases Max0(retries) - a
  {
    if a < retries {
      NoneOnlyAfterAllFailed(rs, retries, a + 1);
    }
  }

  /** The total time slept after n failures: b + b^2 + ... + b^n, which
      times (b - 1) is b^(n+1) - b. */
  function TotalWait(b: int, n: nat): int {
    if n == 0 then 0 else TotalWait(b, n - 1) + Pow(b, n)
  }

  function Sum(xs: seq<int>): int {
    if xs == [] then 0 else Sum(xs[..|xs| - 1]) + xs[|xs| - 1]
  }

  /** TotalWait is the sum of the waits the retry loop returns. */
  lemma {:induction false} SumBackoffs(b: int, n: nat)
    ensures Sum(Backoffs(b, n)) == TotalWait(b, n)
  {
    if n > 0 {
      SumBackoffs(b, n - 1);
      assert Backoffs(b, n)[..n - 1] == Backoffs(b, n - 1);
    }
  }

  lemma {:induction false} TotalWaitGeometric(b: int, n: nat)
    ensures (b - 1) * TotalWait(b, n) == Pow(b, n + 1) - b
  {
    if n > 0 {
      TotalWaitGeometric(b, n - 1);
      calc {
        (b - 1) * TotalWait(b, n);
        (b - 1) * TotalWait(b, n - 1) + (b - 1) * Pow(b, n);
        Pow(b, n) - b + b * Pow(b, n) - Pow(b, n);
        Pow(b, n + 1) - b;
      }
    }
  }

  /** With the defaults (3 retries, factor 2), three failures in a row give
      `None` after three POSTs and waits of 2, 4 and 8 seconds, even when
      the next POST would have succeeded. */
  lemma DefaultRetriesGiveUp<P>(d: P)
    ensures Run([ConnectionError, HttpError, ConnectionError, Success(d)], Retries)
         == QueryRun(Returns(None), 3, 3)
    ensures Backoffs(BackoffFactor, 3) == [2, 4, 8]
    ensures TotalWait(BackoffFactor, 3) == 14
  {
    var rs: seq<Response<P>> := [ConnectionError, HttpError, ConnectionError, Success(d)];
    assert IsFailure(ResponseAt(rs, 0)) && IsFailure(ResponseAt(rs, 1)) && IsFailure(ResponseAt(rs, 2));
    RunFromSkip(rs, Retries, 0, 3);
  }

  // ---------------------------------------------------------------------
  // Cursor pagination
  // ---------------------------------------------------------------------

  /** Why a fetch loop stopped: a page without a next page, a query that
      returned `None`, or a ValueError that escaped. */
  datatype Stop = LastPage | QueryFailed | ErrorRaised

  /** The pages a fetch loop received, the cursor each of its queries
      carried, the POSTs it made, and why it stopped. */
  datatype Pagination<N> = Pagination(
    pages: seq<Page<N>>,
    cursors: seq<Option<string>>,
    posts: nat,
    stop: Stop)

  /** The `while True` loop of both fetch functions, from a state `st` of
      the iterations so far on: query with `cursor`; stop on `None`, on a
      raised ValueError or on a page whose `hasNextPage` is not true;
      otherwise go on with the page's `endCursor`. */
  function PaginateFrom<N>(rest: seq<Response<Page<N>>>, cursor: Option<string>, st: Pagination<N>): Pagination<N>
    decreases |rest|
  {
    var run := Run(rest, Retries);
    var cursors := st.cursors + [cursor];
    var posts := st.posts + run.posts;
    match run.result
    case RaisesValueError => Pagination(st.pages, cursors, posts, ErrorRaised)
    case Returns(None) => Pagination(st.pages, cursors, posts, QueryFailed)
    case Returns(Some(page)) =>
      if !HasNextPage(page) then Pagination(st.pages + [page], cursors, posts, LastPage)
      else PaginateFrom(rest[run.posts..], page.pageInfo.endCursor, Pagination(st.pages + [page], cursors, posts, st.stop))
  }

  /** The whole loop, started with `cursor`. */
  function Paginate<N>(rs: seq<Response<Page<N>>>, cursor: Option<string>): Pagination<N> {
    PaginateFrom(rs, cursor, Pagination([], [], 0, LastPage))
  }

  /** The first query carries `first` and every later one the `endCursor`
      of the page before it; every page but the last has a next page, and
      the last has one only when a query then failed or raised. */
  predicate WellChained<N>(p: Pagination<N>, first: Option<string>) {
    && |p.cursors| == |p.pages| + (if p.stop == LastPage then 0 else 1)
    && |p.cursors| >= 1 && p.cursors[0] == first
    && (forall k :: 0 <= k < |p.pages| && k + 1 < |p.cursors| ==>
          p.cursors[k + 1] == p.pages[k].pageInfo.endCursor)
    && (forall k :: 0 <= k < |p.pages| ==>
          (HasNextPage(p.pages[k]) <==> (k < |p.pages| - 1 || p.stop != LastPage)))
  }

  lemma {:induction false} PaginateFromShape<N>(rest: seq<Response<Page<N>>>, cursor: Option<string>,
                                                st: Pagination<N>, first: Option<string>)
    requires WellChained(Pagination(st.pages, st.cursors + [cursor], st.posts, QueryFailed), first)
    ensures WellChained(PaginateFrom(rest, cursor, st), first)
    ensures PaginateFrom(rest, cursor, st).posts <= st.posts + |rest| + Max0(Retries)
    decreases |rest|
  {
    var run := Run(rest, Retries);
    if run.result.Returns? && run.result.value.Some? && HasNextPage(run.result.value.value) {
      var page := run.result.value.value;
      var cursors := st.cursors + [cursor];
      var next := Pagination(st.pages + [page], cursors, st.posts + run.posts, st.stop);
      var pending := Pagination(next.pages, next.cursors + [page.pageInfo.endCursor], next.posts, QueryFailed);
      assert pending.cursors[0] == first by {
        assert pending.cursors[0] == cursors[0];
      }
      forall k | 0 <= k < |pending.pages| && k + 1 < |pending.cursors|
        ensures pending.cursors[k + 1] == pending.pages[k].pageInfo.endCursor
      {
        if k < |st.pages| {
          assert pending.cursors[k + 1] == (st.cursors + [cursor])[k + 1];
          assert pending.pages[k] == st.pages[k];
        }
      }
      forall k | 0 <= k < |pending.pages|
        ensures HasNextPage(pending.pages[k])
      {
        if k < |st.pages| {
          assert pending.pages[k] == st.pages[k];
        }
      }
      PaginateFromShape(rest[run.posts..], page.pageInfo.endCursor, next, first);
    } else if run.result.Returns? && run.result.value.Some? {
      var page := run.result.value.value;
      var p := PaginateFrom(rest, cursor, st);
      assert p == Pagination(st.pages + [page], st.cursors + [cursor], st.posts + run.posts, LastPage);
      forall k | 0 <= k < |p.pages|
        ensures HasNextPage(p.pages[k]) <==> (k < |p.pages| - 1 || p.stop != LastPage)
      {
        if k < |st.pages| {
          assert p.pages[k] == st.pages[k];
        }
      }
    }
  }

  /** The shape of a whole fetch loop, and at most |rs| + 3 POSTs. */
  lemma PaginateShape<N>(rs: seq<Response<Page<N>>>, cursor: Option<string>)
    ensures WellChained(Paginate(rs, cursor), cursor)
    ensures Paginate(rs, cursor).posts <= |rs| + Max0(Retries)
  {
    PaginateFromShape(rs, cursor, Pagination([], [], 0, LastPage), cursor);
  }

  // ---------------------------------------------------------------------
  // fetch_commits
  // ---------------------------------------------------------------------

  /** `ref["target"]["history"]["nodes"]` when `"target" in ref and
      "history" in ref["target"]`, otherwise nothing. */
  function RefCommits(ref: Ref): seq<Commit> {
    match ref.target
    case Some(Target(Some(history))) => history.nodes
    case _ => []
  }

  /** The commits of a list of refs, ref by ref. */
  function RefsCommits(refs: seq<Ref>): seq<Commit> {
    if refs == [] then [] else RefsCommits(refs[..|refs| - 1]) + RefCommits(refs[|refs| - 1])
  }

  /** The commits of a list of pages, page by page. */
  function PagesCommits(pages: seq<Page<Ref>>): seq<Commit> {
    if pages == [] then [] else PagesCommits(pages[..|pages| - 1]) + RefsCommits(pages[|pages| - 1].nodes)
  }

  /** What `fetch_commits` returns when the fetch loop went as p says. */
  function FetchedCommits(p: Pagination<Ref>): Outcome<seq<Commit>> {
    if p.stop == ErrorRaised then RaisesValueError else Returns(PagesCommits(p.pages))
  }

  lemma PagesCommitsSnoc(pages: seq<Page<Ref>>, page: Page<Ref>)
    ensures PagesCommits(pages + [page]) == PagesCommits(pages) + RefsCommits(page.nodes)
  {
    assert (pages + [page])[..|pages|] == pages;
  }

  lemma RefsCommitsSnoc(refs: seq<Ref>, i: nat)
    requires i < |refs|
    ensures RefsCommits(refs[..i + 1]) == RefsCommits(refs[..i]) + RefCommits(refs[i])
  {
    assert refs[..i + 1][..i] == refs[..i];
  }

  /** The inner loop of `fetch_commits` over one page's refs: extend the
      list with `ref["target"]["history"]["nodes"]` of every ref that has
      them. */
  method CollectRefCommits(refs: seq<Ref>) returns (commits: seq<Commit>)
    ensures commits == RefsCommits(refs)
  {
    commits := [];
    var i := 0;
    while i < |refs|
      invariant 0 <= i <= |refs|
      invariant commits == RefsCommits(refs[..i])
    {
      RefsCommitsSnoc(refs, i);
      var ref := refs[i];
      if ref.target.Some? && ref.target.value.history.Some? {
        commits := commits + ref.target.value.history.value.nodes;
      } else {
        assert commits + [] == commits;
      }
      i := i + 1;
    }
    assert refs[..i] == refs;
  }

  /** `fetch_commits(owner, repo, developer_email)`: page through the refs
      with the default retries, collecting the history nodes of every ref
      whose target has a history. A query that gives up ends the loop with
      what was collected so far; a ValueError escapes. Also returns the
      cursor each query carried and the number of POSTs. */
  method FetchCommits(rs: seq<Response<Page<Ref>>>)
    returns (r: Outcome<seq<Commit>>, cursors: seq<Option<string>>, posts: nat)
    ensures r == FetchedCommits(Paginate(rs, None))
    ensures cursors == Paginate(rs, None).cursors
    ensures posts == Paginate(rs, None).posts
  {
    var commits: seq<Commit> := [];
    var cursor: Option<string> := None;
    var rest := rs;
    ghost var pages: seq<Page<Ref>> := [];
    cursors := [];
    posts := 0;
    while true
      invariant Paginate(rs, None) == PaginateFrom(rest, cursor, Pagination(pages, cursors, posts, LastPage))
      invariant commits == PagesCommits(pages)
      decreases |rest|
    {
      var data, n, _ := ExecuteGraphqlQuery(rest, Retries, BackoffFactor);
      cursors := cursors + [cursor];
      posts := posts + n;
      if data.RaisesValueError? {
        return RaisesValueError, cursors, posts;
      }
      if data.value.None? {
        break;
      }
      var page := data.value.value;
      var found := CollectRefCommits(page.nodes);
      commits := commits + found;
      PagesCommitsSnoc(pages, page);
      if !HasNextPage(page) {
        pages := pages + [page];
        break;
      }
      pages := pages + [page];
      cursor := page.pageInfo.endCursor;
      rest := rest[n..];
    }
    return Returns(commits), cursors, posts;
  }

  // ---------------------------------------------------------------------
  // fetch_pull_requests
  // ---------------------------------------------------------------------

  /** `developer_email.split("@")[0]`: the text before the first '@', or
      the whole text when there is none. */
  function LocalPart(email: string): (login: string)
    ensures |login| <= |email| && login == email[..|login|]
    ensures '@' !in login
    ensures |login| == |email| || email[|login|] == '@'
  {
    if email == [] || email[0] == '@' then [] else [email[0]] + LocalPart(email[1..])
  }

  /** The filter condition: `"author" in pr and pr["author"] and
      pr["author"].get("login") == login`. */
  predicate ByAuthor(pr: PullRequest, login: string) {
    pr.author.Some? && pr.author.value.login == Some(login)
  }

  /** The list comprehension that keeps the pull requests by `login`, in order. */
  function FilterByAuthor(prs: seq<PullRequest>, login: string): (kept: seq<PullRequest>)
    ensures |kept| <= |prs|
  {
    if prs == [] then []
    else
      var rest := FilterByAuthor(prs[..|prs| - 1], login);
      if ByAuthor(prs[|prs| - 1], login) then rest + [prs[|prs| - 1]] else rest
  }

  /** The filter keeps exactly the pull requests by `login`. */
  lemma {:induction false} FilterByAuthorMeaning(prs: seq<PullRequest>, login: string)
    ensures forall pr :: pr in FilterByAuthor(prs, login) <==> pr in prs && ByAuthor(pr, login)
  {
    if prs != [] {
      var n := |prs| - 1;
      FilterByAuthorMeaning(prs[..n], login);
      assert prs == prs[..n] + [prs[n]];
    }
  }

  /** The comprehension keeps order and copies: a single pull request is
      kept exactly when it is by `login`, and the kept pull requests of a
      concatenation are those of the first part followed by those of the
      second. */
  lemma {:induction false} FilterByAuthorAppend(a: seq<PullRequest>, b: seq<PullRequest>, login: string)
    ensures FilterByAuthor(a + b, login) == FilterByAuthor(a, login) + FilterByAuthor(b, login)
    ensures forall pr :: FilterByAuthor([pr], login) == (if ByAuthor(pr, login) then [pr] else [])
  {
    forall pr ensures FilterByAuthor([pr], login) == (if ByAuthor(pr, login) then [pr] else []) {
      assert [pr][..0] == [];
    }
    if b == [] {
      assert a + b == a;
    } else {
      var n := |b| - 1;
      assert (a + b)[..|a + b| - 1] == a + b[..n];
      assert (a + b)[|a + b| - 1] == b[n];
      FilterByAuthorAppend(a, b[..n], login);
    }
  }

  /** The kept pull requests of a list of pages, page by page. */
  function PagesPullRequests(pages: seq<Page<PullRequest>>, login: string): seq<PullRequest> {
    if pages == [] then []
    else PagesPullRequests(pages[..|pages| - 1], login) + FilterByAuthor(pages[|pages| - 1].nodes, login)
  }

  /** What `fetch_pull_requests` returns when the fetch loop went as p says. */
  function FetchedPullRequests(p: Pagination<PullRequest>, login: string): Outcome<seq<PullRequest>> {
    if p.stop == ErrorRaised then RaisesValueError else Returns(PagesPullRequests(p.pages, login))
  }

  lemma PagesPullRequestsSnoc(pages: seq<Page<PullRequest>>, page: Page<PullRequest>, login: string)
    ensures PagesPullRequests(pages + [page], login)
         == PagesPullRequests(pages, login) + FilterByAuthor(page.nodes, login)
  {
    assert (pages + [page])[..|pages|] == pages;
  }

  /** `fetch_pull_requests(owner, repo, developer_email)`: page through the
      pull requests with the default retries, keeping those whose author's
      login is the part of `developer_email` before the first '@'. A query
      that gives up ends the loop with what was collected so far; a
      ValueError escapes. Also returns the cursor each query carried and the
      number of POSTs. */
  method FetchPullRequests(developerEmail: string, rs: seq<Response<Page<PullRequest>>>)
    returns (r: Outcome<seq<PullRequest>>, cursors: seq<Option<string>>, posts: nat)
    ensures r == FetchedPullRequests(Paginate(rs, None), LocalPart(developerEmail))
    ensures cursors == Paginate(rs, None).cursors
    ensures posts == Paginate(rs, None).posts
  {
    var pullRequests: seq<PullRequest> := [];
    var cursor: Option<string> := None;
    var rest := rs;
    ghost var pages: seq<Page<PullRequest>> := [];
    var login := LocalPart(developerEmail);
    cursors := [];
    posts := 0;
    while true
      invariant Paginate(rs, None) == PaginateFrom(rest, cursor, Pagination(pages, cursors, posts, LastPage))
      invariant pullRequests == PagesPullRequests(pages, login)
      decreases |rest|
    {
      var data, n, _ := ExecuteGraphqlQuery(rest, Retries, BackoffFactor);
      cursors := cursors + [cursor];
      posts := posts + n;
      if data.RaisesValueError? {
        return RaisesValueError, cursors, posts;
      }
      if data.value.None? {
        break;
      }
      var page := data.value.value;
      var filteredPrs := FilterByAuthor(page.nodes, login);
      pullRequests := pullRequests + filteredPrs;
      PagesPullRequestsSnoc(pages, page, login);
      if !HasNextPage(page) {
        pages := pages + [page];
        break;
      }
      pages := pages + [page];
      cursor := page.pageInfo.endCursor;
      rest := rest[n..];
    }
    return Returns(pullRequests), cursors, posts;
  }

  // ---------------------------------------------------------------------
  // Properties of the fetch loops
  // ---------------------------------------------------------------------

  /** A pull request without an author is never kept. The pull-request query
      does not ask for `author`, so every node comes back without one and
      the fetch keeps nothing. */
  lemma {:induction false} NoAuthorKeepsNothing(pages: seq<Page<PullRequest>>, login: string)
    requires forall k, j :: 0 <= k < |pages| && 0 <= j < |pages[k].nodes| ==> pages[k].nodes[j].author.None?
    ensures PagesPullRequests(pages, login) == []
  {
    if pages != [] {
      var n := |pages| - 1;
      NoAuthorKeepsNothing(pages[..n], login);
      NoAuthorFilteredOut(pages[n].nodes, login);
    }
  }

  lemma {:induction false} NoAuthorFilteredOut(prs: seq<PullRequest>, login: string)
    requires forall j :: 0 <= j < |prs| ==> prs[j].author.None?
    ensures FilterByAuthor(prs, login) == []
  {
    if prs != [] {
      NoAuthorFilteredOut(prs[..|prs| - 1], login);
    }
  }

  /** Data a query returns is the payload of one of the responses. */
  lemma {:induction false} RunFromData<P>(rs: seq<Response<P>>, retries: int, attempt: nat)
    ensures RunFrom(rs, retries, attempt).result.Returns? && RunFrom(rs, retries, attempt).result.value.Some? ==>
      Success(RunFrom(rs, retries, attempt).result.value.value) in rs
    decreases Max0(retries - attempt)
  {
    if attempt < retries && IsFailure(ResponseAt(rs, attempt)) {
      RunFromData(rs, retries, attempt + 1);
    }
  }

  /** Every page the loop collects is one it had before or the payload of
      one of the remaining responses. */
  lemma {:induction false} PaginateFromPages<N>(rest: seq<Response<Page<N>>>, cursor: Option<string>, st: Pagination<N>)
    ensures forall page :: page in PaginateFrom(rest, cursor, st).pages ==> page in st.pages || Success(page) in rest
    decreases |rest|
  {
    var run := Run(rest, Retries);
    RunFromData(rest, Retries, 0);
    if run.result.Returns? && run.result.value.Some? && HasNextPage(run.result.value.value) {
      var page := run.result.value.value;
      var next := Pagination(st.pages + [page], st.cursors + [cursor], st.posts + run.posts, st.stop);
      PaginateFromPages(rest[run.posts..], page.pageInfo.endCursor, next);
      forall q | Success(q) in rest[run.posts..] ensures Success(q) in rest {
        var i :| 0 <= i < |rest[run.posts..]| && rest[run.posts..][i] == Success(q);
        assert rest[run.posts + i] == Success(q);
      }
    }
  }

  /** The pages of a whole fetch loop are payloads of its responses. */
  lemma PaginatePages<N>(rs: seq<Response<Page<N>>>, cursor: Option<string>)
    ensures forall page :: page in Paginate(rs, cursor).pages ==> Success(page) in rs
  {
    PaginateFromPages(rs, cursor, Pagination([], [], 0, LastPage));
  }

  /** When no response carries a pull request with an author, as with the
      pull-request query, which never asks for `author`, `fetch_pull_requests`
      returns an empty list (or the ValueError of a GraphQL error). */
  lemma FetchPullRequestsNoAuthor(developerEmail: string, rs: seq<Response<Page<PullRequest>>>)
    requires forall i, j :: 0 <= i < |rs| && rs[i].Success? && 0 <= j < |rs[i].data.nodes| ==>
      rs[i].data.nodes[j].author.None?
    ensures FetchedPullRequests(Paginate(rs, None), LocalPart(developerEmail)) in {Returns([]), RaisesValueError}
  {
    var pages := Paginate(rs, None).pages;
    PaginatePages(rs, None);
    forall k, j | 0 <= k < |pages| && 0 <= j < |pages[k].nodes|
      ensures pages[k].nodes[j].author.None?
    {
      assert Success(pages[k]) in rs;
      var i :| 0 <= i < |rs| && rs[i] == Success(pages[k]);
      assert rs[i].data.nodes[j] == pages[k].nodes[j];
    }
    NoAuthorKeepsNothing(pages, LocalPart(developerEmail));
  }

  /** A first page without a next page ends the loop after one query. */
  lemma SinglePage<N>(rs: seq<Response<Page<N>>>, page: Page<N>)
    requires |rs| > 0 && rs[0] == Success(page) && !HasNextPage(page)
    ensures Paginate(rs, None) == Pagination([page], [None], 1, LastPage)
  {
    FirstSuccessReturned(rs, Retries, 0, page);
  }

  /** A first query that gives up ends the loop with nothing collected. */
  lemma FirstQueryFails(rs: seq<Response<Page<Ref>>>)
    requires forall j :: 0 <= j < Retries ==> IsFailure(ResponseAt(rs, j))
    ensures FetchedCommits(Paginate(rs, None)) == Returns([])
    ensures Paginate(rs, None).posts == 3
  {
    NoneOnlyAfterAllFailed(rs, Retries, 0);
  }
}
