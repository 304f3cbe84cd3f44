/** metrics_calculator.py: the `MetricsCalculator` class. It has no fields,
    so its methods are modelled as the members of this module. The counting
    and collecting loops are methods proved against the definitions in
    MetricDefinitions; the sums and averages are functions. */
module MetricsCalculator {
  import opened Outcomes
  import opened Timestamps
  import opened Records
  import opened MetricDefinitions

  /** Every commit carries `committedDate`: `commit["committedDate"]` then
      raises no KeyError. */
  predicate AllDated(commits: seq<Commit>) {
    forall i :: 0 <= i < |commits| ==> commits[i].committedDate.Some?
  }

  /** `[commit["committedDate"] for commit in commits]` */
  function CommittedDates(commits: seq<Commit>): (dates: seq<string>)
    requires AllDated(commits)
    ensures |dates| == |commits|
    ensures forall i :: 0 <= i < |commits| ==> commits[i].committedDate == Some(dates[i])
  {
    if commits == [] then []
    else [commits[0].committedDate.value] + CommittedDates(commits[1..])
  }

  /** `calculate_commit_frequency`: parse every `committedDate` (the first
      that does not parse raises ValueError), then count the dates per
      `"%Y-%U"` week bucket. */
  method CalculateCommitFrequency(commits: seq<Commit>) returns (r: Outcome<map<string, nat>>)
    requires AllDated(commits)
    ensures r == WeekFrequency(CommittedDates(commits))
  {
    var parsed := ParseAll(CommittedDates(commits));
    if parsed.RaisesValueError? {
      return RaisesValueError;
    }
    var commitDates := parsed.value;
    var weeklyCounts: map<string, nat> := map[];
    var i := 0;
    while i < |commitDates|
      invariant 0 <= i <= |commitDates|
      invariant weeklyCounts == Tally(WeekKeys(commitDates[..i]))
    {
      var week := WeekKey(commitDates[i]);
      TallyStep(commitDates, i);
      weeklyCounts := Bump(weeklyCounts, week);
      i := i + 1;
    }
    assert commitDates[..i] == commitDates;
    return Returns(weeklyCounts);
  }

  /** `calculate_commit_to_merge_time`: for each merged pull request in
      order, parse `mergedAt`, then append merged - committed in seconds for
      each of its commit nodes. The `commits` argument is not read. */
  method CalculateCommitToMergeTime(commits: seq<Commit>, pullRequests: seq<PullRequest>)
    returns (r: Outcome<seq<int>>)
    ensures r == MergeDeltas(pullRequests)
  {
    var times: seq<int> := [];
    var i := 0;
    while i < |pullRequests|
      invariant 0 <= i <= |pullRequests|
      invariant MergeDeltas(pullRequests[..i]) == Returns(times)
    {
      var pr := pullRequests[i];
      MergeDeltasStep(pullRequests, i);
      if !IsMerged(pr) {
        assert times + [] == times;
        i := i + 1;
        continue;
      }
      var mergeTime := Parse(pr.mergedAt.value);
      if mergeTime.None? {
        MergeDeltasRaisesEarly(pullRequests, i + 1);
        return RaisesValueError;
      }
      var prTimes := CommitTimes(mergeTime.value, CommitNodes(pr));
      if prTimes.RaisesValueError? {
        MergeDeltasRaisesEarly(pullRequests, i + 1);
        return RaisesValueError;
      }
      times := times + prTimes.value;
      i := i + 1;
    }
    assert pullRequests[..i] == pullRequests;
    return Returns(times);
  }

  /** The inner loop of `calculate_commit_to_merge_time` over one merged
      pull request's commit nodes, given its parsed merge time. */
  method CommitTimes(mergeTime: DateTime, nodes: seq<PullRequestCommit>) returns (r: Outcome<seq<int>>)
    requires Valid(mergeTime)
    ensures r == NodeDeltas(mergeTime, nodes)
  {
    var times: seq<int> := [];
    var j := 0;
    while j < |nodes|
      invariant 0 <= j <= |nodes|
      invariant NodeDeltas(mergeTime, nodes[..j]) == Returns(times)
    {
      var commitTime := Parse(nodes[j].commit.committedDate);
      if commitTime.None? {
        NodeDeltasStepRaises(mergeTime, nodes, j);
        return RaisesValueError;
      }
      NodeDeltasStep(mergeTime, nodes, j, commitTime.value);
      times := times + [Seconds(mergeTime) - Seconds(commitTime.value)];
      j := j + 1;
    }
    assert nodes[..j] == nodes;
    return Returns(times);
  }

  /** `calculate_commits_per_pull_request`: total commit nodes over the
      number of pull requests, 0 for no pull requests. `pr["commits"]["nodes"]`
      must exist for every pull request (otherwise a KeyError escapes). */
  function CalculateCommitsPerPullRequest(pullRequests: seq<PullRequest>): (r: real)
    requires AllHaveCommitNodes(pullRequests)
    ensures |pullRequests| == 0 ==> r == 0.0
    ensures |pullRequests| > 0 ==> r * |pullRequests| as real == TotalNodes(pullRequests) as real
  {
    Mean(TotalNodes(pullRequests), |pullRequests|)
  }

  /** `calculate_total_commits` */
  function CalculateTotalCommits(commits: seq<Commit>): (n: nat)
    ensures n == |commits|
  {
    |commits|
  }

  /** `calculate_average_commit_size`: (total additions + total deletions)
      over the number of commits, a missing count counting as 0, and 0 for
      no commits. */
  function CalculateAverageCommitSize(commits: seq<Commit>): (r: real)
    ensures |commits| == 0 ==> r == 0.0
    ensures |commits| > 0 ==>
      r * |commits| as real == (SumAdditions(commits) + SumDeletions(commits)) as real
  {
    Mean(SumAdditions(commits) + SumDeletions(commits), |commits|)
  }

  // ---------------------------------------------------------------------
  // Properties
  // ---------------------------------------------------------------------

  /** The weekly counts add up to the total number of commits, and each is
      at least 1. */
  lemma FrequencySumsToTotal(commits: seq<Commit>)
    requires AllDated(commits)
    ensures WeekFrequency(CommittedDates(commits)).Returns? ==>
      && Total(WeekFrequency(CommittedDates(commits)).value) == CalculateTotalCommits(commits)
      && forall k :: k in WeekFrequency(CommittedDates(commits)).value ==>
           WeekFrequency(CommittedDates(commits)).value[k] >= 1
  {
    WeekFrequencyMeaning(CommittedDates(commits));
  }

  /** The frequency is computed exactly when every `committedDate` parses. */
  lemma FrequencyRaisesOnlyOnBadDate(commits: seq<Commit>)
    requires AllDated(commits)
    ensures WeekFrequency(CommittedDates(commits)).RaisesValueError? <==>
      exists i :: 0 <= i < |commits| && Parse(commits[i].committedDate.value).None?
  {
    var dates := CommittedDates(commits);
    WeekFrequencyMeaning(dates);
    if WeekFrequency(dates).RaisesValueError? {
      var i :| 0 <= i < |dates| && Parse(dates[i]).None?;
      assert commits[i].committedDate.value == dates[i];
    }
  }

  /** The mean number of commits per pull request lies between the smallest
      and the largest per-pull-request count. */
  lemma CommitsPerPullRequestBetween(pullRequests: seq<PullRequest>, lo: int, hi: int)
    requires AllHaveCommitNodes(pullRequests) && |pullRequests| > 0
    requires forall i :: 0 <= i < |pullRequests| ==> lo <= NodeCount(pullRequests[i]) <= hi
    ensures lo as real <= CalculateCommitsPerPullRequest(pullRequests) <= hi as real
  {
    TotalNodesBounds(pullRequests, lo, hi);
    MeanBetween(TotalNodes(pullRequests), |pullRequests|, lo, hi);
  }

  /** The average commit size lies between the smallest and the largest
      commit size. */
  lemma AverageCommitSizeBetween(commits: seq<Commit>, lo: int, hi: int)
    requires |commits| > 0
    requires forall i :: 0 <= i < |commits| ==> lo <= Additions(commits[i]) + Deletions(commits[i]) <= hi
    ensures lo as real <= CalculateAverageCommitSize(commits) <= hi as real
  {
    SumSizesBounds(commits, lo, hi);
    SumSizesSplit(commits);
    MeanBetween(SumSizes(commits), |commits|, lo, hi);
  }
}
