/** The `MetricsCalculator` class and the functions of metrics.py compute the
    same metrics in two ways: the calculator reads `commit["committedDate"]`
    of every commit, while metrics.py only keeps the commits that carry one.
    When every commit is dated the two agree on every metric. */
module Agreement {
  import opened Records
  import opened MetricDefinitions
  import MetricsCalculator
  import Metrics

  /** With every commit dated, metrics.py's filtered date list is the
      calculator's full one. */
  lemma {:induction false} PresentDatesAllDated(commits: seq<Commit>)
    requires MetricsCalculator.AllDated(commits)
    ensures Metrics.PresentDates(commits) == MetricsCalculator.CommittedDates(commits)
  {
    if commits != [] {
      assert MetricsCalculator.AllDated(commits[1..]) by {
        forall i | 0 <= i < |commits| - 1
          ensures commits[1..][i].committedDate.Some?
        {
          assert commits[1..][i] == commits[i + 1];
        }
      }
      PresentDatesAllDated(commits[1..]);
    }
  }

  /** With every commit dated, both compute the same weekly frequency (or
      both raise the same ValueError), and metrics.py's dated-commit count
      is "Total Commits". */
  lemma FrequencyAgrees(commits: seq<Commit>)
    requires MetricsCalculator.AllDated(commits)
    ensures WeekFrequency(MetricsCalculator.CommittedDates(commits))
         == WeekFrequency(Metrics.PresentDates(commits))
    ensures Metrics.DatedCount(commits) == MetricsCalculator.CalculateTotalCommits(commits)
  {
    PresentDatesAllDated(commits);
    Metrics.DatedCountAll(commits);
  }

  /** Both compute the same average commit size: the calculator sums
      additions and deletions separately, metrics.py sums per commit. */
  lemma AverageCommitSizeAgrees(commits: seq<Commit>)
    ensures MetricsCalculator.CalculateAverageCommitSize(commits) == Metrics.AverageCommitSize(commits)
  {
    SumSizesSplit(commits);
  }
}
