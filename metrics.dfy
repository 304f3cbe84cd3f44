/** metrics.py: the module-level metric functions and the reduction part of
    `calculate_commit_metrics`, which takes the fetched commits and pull
    requests as its inputs here. */
module Metrics {
  import opened Outcomes
  import opened Timestamps
  import opened Records
  import opened MetricDefinitions

  /** `[commit.get("committedDate") for commit in commits if "committedDate" in commit]`:
      the dates of the commits that carry one, in order. */
  function PresentDates(commits: seq<Commit>): (dates: seq<string>)
    ensures |dates| <= |commits|
  {
    if commits == [] then []
    else
      var rest := PresentDates(commits[1..]);
      match commits[0].committedDate
      case Some(d) => [d] + rest
      case None => rest
  }

  /** A text is among the dates exactly when some commit carries it. */
  lemma {:induction false} PresentDatesMembers(commits: seq<Commit>)
    ensures forall d :: d in PresentDates(commits) <==>
      exists i :: 0 <= i < |commits| && commits[i].committedDate == Some(d)
  {
    if commits != [] {
      PresentDatesMembers(commits[1..]);
      assert forall i :: 1 <= i < |commits| ==> commits[i] == commits[1..][i - 1];
    }
  }

  /** The number of commits that carry a `committedDate`. */
  function DatedCount(commits: seq<Commit>): nat {
    if commits == [] then 0
    else (if commits[0].committedDate.Some? then 1 else 0) + DatedCount(commits[1..])
  }

  /** `calculate_commit_frequency(commit_dates)`: parse every date (the first
      that does not parse raises ValueError), then count the dates per
      `"%Y-%U"` week bucket. */
  method CalculateCommitFrequency(commitDates: seq<string>) returns (r: Outcome<map<string, nat>>)
    ensures r == WeekFrequency(commitDates)
  {
    var parsed := ParseAll(commitDates);
    if parsed.RaisesValueError? {
      return RaisesValueError;
    }
    var dates := parsed.value;
    var weekCommitCounts: map<string, nat> := map[];
    var i := 0;
    while i < |dates|
      invariant 0 <= i <= |dates|
      invariant weekCommitCounts == Tally(WeekKeys(dates[..i]))
    {
      var week := WeekKey(dates[i]);
      TallyStep(dates, i);
      weekCommitCounts := Bump(weekCommitCounts, week);
      i := i + 1;
    }
    assert dates[..i] == dates;
    return Returns(weekCommitCounts);
  }

  /** `calculate_commit_to_merge_time(commits, pull_requests)`: for each
      merged pull request in order, parse `mergedAt`, then append merged -
      committed in seconds for each of its commit nodes. `commits` is not
      read. */
  method CalculateCommitToMergeTime(commits: seq<Commit>, pullRequests: seq<PullRequest>)
    returns (r: Outcome<seq<int>>)
    ensures r == MergeDeltas(pullRequests)
  {
    var commitToMergeTimes: seq<int> := [];
    var i := 0;
    while i < |pullRequests|
      invariant 0 <= i <= |pullRequests|
      invariant MergeDeltas(pullRequests[..i]) == Returns(commitToMergeTimes)
    {
      var pr := pullRequests[i];
      MergeDeltasStep(pullRequests, i);
      if !IsMerged(pr) {
        assert commitToMergeTimes + [] == commitToMergeTimes;
        i := i + 1;
        continue;
      }
      var mergedTime := Parse(pr.mergedAt.value);
      if mergedTime.None? {
        MergeDeltasRaisesEarly(pullRequests, i + 1);
        return RaisesValueError;
      }
      var prTimes := CommitNodeTimes(mergedTime.value, CommitNodes(pr));
      if prTimes.RaisesValueError? {
        MergeDeltasRaisesEarly(pullRequests, i + 1);
        return RaisesValueError;
      }
      commitToMergeTimes := commitToMergeTimes + prTimes.value;
      i := i + 1;
    }
    assert pullRequests[..i] == pullRequests;
    return Returns(commitToMergeTimes);
  }

  /** The inner loop of `calculate_commit_to_merge_time` over one merged
      pull request's commit nodes, given its parsed merge time. */
  method CommitNodeTimes(mergedTime: DateTime, nodes: seq<PullRequestCommit>) returns (r: Outcome<seq<int>>)
    requires Valid(mergedTime)
    ensures r == NodeDeltas(mergedTime, nodes)
  {
    var times: seq<int> := [];
    var j := 0;
    while j < |nodes|
      invariant 0 <= j <= |nodes|
      invariant NodeDeltas(mergedTime, nodes[..j]) == Returns(times)
    {
      var commitTime := Parse(nodes[j].commit.committedDate);
      if commitTime.None? {
        NodeDeltasStepRaises(mergedTime, nodes, j);
        return RaisesValueError;
      }
      NodeDeltasStep(mergedTime, nodes, j, commitTime.value);
      times := times + [Seconds(mergedTime) - Seconds(commitTime.value)];
      j := j + 1;
    }
    assert nodes[..j] == nodes;
    return Returns(times);
  }

  /** `calculate_commits_per_pull_request(pull_requests)`: total commit nodes
      over the number of pull requests, 0 for none; `pr["commits"]["nodes"]`
      must exist (otherwise a KeyError escapes). */
  function CalculateCommitsPerPullRequest(pullRequests: seq<PullRequest>): (r: real)
    requires AllHaveCommitNodes(pullRequests)
    ensures |pullRequests| == 0 ==> r == 0.0
    ensures |pullRequests| > 0 ==> r * |pullRequests| as real == TotalNodes(pullRequests) as real
  {
    Mean(TotalNodes(pullRequests), |pullRequests|)
  }

  /** The average commit size as `calculate_commit_metrics` computes it:
      the sum over the commits of additions + deletions (0 for a missing
      count) over the number of commits, 0 for none. */
  function AverageCommitSize(commits: seq<Commit>): (r: real)
    ensures |commits| == 0 ==> r == 0.0
    ensures |commits| > 0 ==> r * |commits| as real == SumSizes(commits) as real
  {
    Mean(SumSizes(commits), |commits|)
  }

  /** The dictionary `calculate_commit_metrics` returns. */
  datatype CommitMetrics = CommitMetrics(
    totalCommits: nat,
    totalPullRequests: nat,
    commitFrequency: map<string, nat>,
    averageCommitSize: real,
    commitToMergeTimes: seq<int>,
    commitsPerPullRequest: real)

  /** `calculate_commit_metrics` after the two fetches: the counts, the
      weekly frequency of the dated commits, the average size, the
      commit-to-merge times and the commits per pull request. A ValueError
      from parsing a date escapes. */
  method CalculateCommitMetrics(commits: seq<Commit>, pullRequests: seq<PullRequest>)
    returns (r: Outcome<CommitMetrics>)
    requires AllHaveCommitNodes(pullRequests)
    ensures r.Returns? <==>
      WeekFrequency(PresentDates(commits)).Returns? && MergeDeltas(pullRequests).Returns?
    ensures r.Returns? ==>
      && r.value.totalCommits == |commits|
      && r.value.totalPullRequests == |pullRequests|
      && r.value.commitFrequency == WeekFrequency(PresentDates(commits)).value
      && r.value.averageCommitSize == AverageCommitSize(commits)
      && r.value.commitToMergeTimes == MergeDeltas(pullRequests).value
      && r.value.commitsPerPullRequest == CalculateCommitsPerPullRequest(pullRequests)
  {
    var totalCommits := |commits|;
    var totalPullRequests := |pullRequests|;
    var commitFrequencies := CalculateCommitFrequency(PresentDates(commits));
    if commitFrequencies.RaisesValueError? {
      return RaisesValueError;
    }
    var averageCommitSize := AverageCommitSize(commits);
    var commitToMergeTimes := CalculateCommitToMergeTime(commits, pullRequests);
    if commitToMergeTimes.RaisesValueError? {
      return RaisesValueError;
    }
    var commitsPerPr := CalculateCommitsPerPullRequest(pullRequests);
    return Returns(CommitMetrics(totalCommits, totalPullRequests, commitFrequencies.value,
                                 averageCommitSize, commitToMergeTimes.value, commitsPerPr));
  }

  // ---------------------------------------------------------------------
  // Properties
  // ---------------------------------------------------------------------

  /** Exactly the dated commits are kept. */
  lemma {:induction false} PresentDatesCount(commits: seq<Commit>)
    ensures |PresentDates(commits)| == DatedCount(commits)
    ensures DatedCount(commits) <= |commits|
  {
    if commits != [] {
      PresentDatesCount(commits[1..]);
    }
  }

  /** The comprehension keeps order and copies: the dates of a concatenation
      are the dates of the first part followed by those of the second. */
  lemma {:induction false} PresentDatesAppend(a: seq<Commit>, b: seq<Commit>)
    ensures PresentDates(a + b) == PresentDates(a) + PresentDates(b)
  {
    if a == [] {
      assert a + b == b;
    } else {
      assert (a + b)[0] == a[0];
      assert (a + b)[1..] == a[1..] + b;
      PresentDatesAppend(a[1..], b);
      var rest := PresentDates(a[1..]);
      match a[0].committedDate
      case Some(d) =>
        assert PresentDates(a) == [d] + rest;
        assert PresentDates(a + b) == [d] + (rest + PresentDates(b));
      case None =>
        assert PresentDates(a) == rest;
    }
  }

  /** A single commit contributes its date once when it has one, and nothing
      otherwise. */
  lemma PresentDatesSingle(c: Commit)
    ensures PresentDates([c]) == (if c.committedDate.Some? then [c.committedDate.value] else [])
  {
    assert [c][1..] == [];
  }

  /** The weekly counts add up to the number of dated commits, which is at
      most "Total Commits"; they are equal when every commit carries a date. */
  lemma FrequencyTotalAtMostTotalCommits(commits: seq<Commit>)
    requires WeekFrequency(PresentDates(commits)).Returns?
    ensures Total(WeekFrequency(PresentDates(commits)).value) == DatedCount(commits) <= |commits|
    ensures DatedCount(commits) == |commits| <==> forall i :: 0 <= i < |commits| ==> commits[i].committedDate.Some?
  {
    WeekFrequencyMeaning(PresentDates(commits));
    PresentDatesCount(commits);
    DatedCountAll(commits);
  }

  lemma {:induction false} DatedCountAll(commits: seq<Commit>)
    ensures DatedCount(commits) <= |commits|
    ensures DatedCount(commits) == |commits| <==> forall i :: 0 <= i < |commits| ==> commits[i].committedDate.Some?
  {
    if commits != [] {
      DatedCountAll(commits[1..]);
      assert forall i :: 1 <= i < |commits| ==> commits[i] == commits[1..][i - 1];
    }
  }
}
