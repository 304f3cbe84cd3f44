/** The GraphQL response nodes the metrics consume, as the Python code reads
    them out of the decoded JSON dictionaries. A key that may be missing is an
    `Option` whose `None` stands for the missing key. A JSON null is `None`
    only where the code treats it like a missing key (a truthiness test such
    as `pr.get("mergedAt")` or `pr["author"]`); a null that `.get(key, default)`
    would hand on, such as `"additions": null` or `"commits": null`, is not
    modelled. */
module Records {
  import opened Outcomes

  /** A node of `history.nodes` in the commit query. */
  datatype Commit = Commit(
    oid: Option<string>,
    committedDate: Option<string>,
    additions: Option<int>,
    deletions: Option<int>)

  /** `commit { oid committedDate }` inside a pull request's commit node. */
  datatype CommitRef = CommitRef(oid: string, committedDate: string)

  /** A node of a pull request's `commits.nodes`. */
  datatype PullRequestCommit = PullRequestCommit(commit: CommitRef)

  /** The `commits` object of a pull request; its `nodes` key may be missing. */
  datatype CommitConnection = CommitConnection(nodes: Option<seq<PullRequestCommit>>)

  /** The `author` object of a pull request. */
  datatype Author = Author(login: Option<string>)

  /** A node of `pullRequests.nodes`. */
  datatype PullRequest = PullRequest(
    title: string,
    author: Option<Author>,
    mergedAt: Option<string>,
    commits: Option<CommitConnection>)

  /** `history { nodes }` of a branch head. */
  datatype History = History(nodes: seq<Commit>)

  /** The `target` of a ref; `history` is present when the target is a commit. */
  datatype Target = Target(history: Option<History>)

  /** A node of `refs.nodes`: a branch. */
  datatype Ref = Ref(name: string, target: Option<Target>)

  /** `pageInfo { hasNextPage endCursor }`. */
  datatype PageInfo = PageInfo(hasNextPage: Option<bool>, endCursor: Option<string>)

  /** One page of a connection: `refs` in the commit query, `pullRequests`
      in the pull-request query. */
  datatype Page<N> = Page(nodes: seq<N>, pageInfo: PageInfo)

  /** `if not page_info.get("hasNextPage", False): break` continues only on true. */
  predicate HasNextPage<N>(page: Page<N>) {
    page.pageInfo.hasNextPage == Some(true)
  }

  /** `pr.get("mergedAt")` is truthy: present, not null and not the empty string. */
  predicate IsMerged(pr: PullRequest) {
    pr.mergedAt.Some? && pr.mergedAt.value != ""
  }

  /** `pr.get("commits", {}).get("nodes", [])`. */
  function CommitNodes(pr: PullRequest): seq<PullRequestCommit> {
    match pr.commits
    case Some(CommitConnection(Some(nodes))) => nodes
    case _ => []
  }

  /** `pr["commits"]["nodes"]` can be evaluated without a KeyError. */
  predicate HasCommitNodes(pr: PullRequest) {
    pr.commits.Some? && pr.commits.value.nodes.Some?
  }
}
