/** The reductions both metric implementations compute, stated once, with the
    properties they promise. The two implementations (module
    MetricsCalculator for metrics_calculator.py, module Metrics for
    metrics.py) are proved to return these. */
module MetricDefinitions {
  import opened Outcomes
  import opened Timestamps
  import opened Records

  // ---------------------------------------------------------------------
  // Weekly commit counts
  // ---------------------------------------------------------------------

  predicate AllValid(ds: seq<DateTime>) {
    forall i :: 0 <= i < |ds| ==> Valid(ds[i])
  }

  /** `[datetime.strptime(d, "%Y-%m-%dT%H:%M:%SZ") for d in dates]`: every
      text parsed, in order, or the ValueError of the first that does not. */
  function ParseAll(dates: seq<string>): (r: Outcome<seq<DateTime>>)
    ensures r.Returns? <==> forall i :: 0 <= i < |dates| ==> Parse(dates[i]).Some?
    ensures r.Returns? ==> |r.value| == |dates| && AllValid(r.value)
    ensures r.Returns? ==> forall i :: 0 <= i < |dates| ==> Parse(dates[i]) == Some(r.value[i])
  {
    if dates == [] then Returns([])
    else
      match Parse(dates[0])
      case None => RaisesValueError
      case Some(d) =>
        match ParseAll(dates[1..])
        case RaisesValueError => RaisesValueError
        case Returns(ds) => Returns([d] + ds)
  }

  /** One step of the counting loop: `counts[k] = counts.get(k, 0) + 1`. */
  function Bump(counts: map<string, nat>, k: string): map<string, nat> {
    counts[k := if k in counts then counts[k] + 1 else 1]
  }

  /** The map the counting loop builds from a list of keys, one Bump per key
      in order; every count lies between 1 and the number of keys. */
  function Tally(keys: seq<string>): (counts: map<string, nat>)
    ensures forall k :: k in counts ==> 1 <= counts[k] <= |keys|
  {
    if keys == [] then map[]
    else Bump(Tally(keys[..|keys| - 1]), keys[|keys| - 1])
  }

  /** How many times k occurs in the list. */
  function Occurrences(keys: seq<string>, k: string): nat {
    if keys == [] then 0
    else Occurrences(keys[..|keys| - 1], k) + (if keys[|keys| - 1] == k then 1 else 0)
  }

  lemma {:induction false} OccurrencesPositive(keys: seq<string>, k: string)
    ensures Occurrences(keys, k) > 0 <==> k in keys
  {
    if keys != [] {
      var n := |keys| - 1;
      OccurrencesPositive(keys[..n], k);
      assert keys == keys[..n] + [keys[n]];
    }
  }

  /** The keys of the tally are exactly the keys in the list, and each value
      is the number of times its key occurs. */
  lemma {:induction false} TallyExact(keys: seq<string>, k: string)
    ensures k in Tally(keys) <==> k in keys
    ensures k in Tally(keys) ==> Tally(keys)[k] == Occurrences(keys, k)
  {
    OccurrencesPositive(keys, k);
    if keys != [] {
      TallyExact(keys[..|keys| - 1], k);
      OccurrencesPositive(keys[..|keys| - 1], k);
    }
  }

  /** The sum of the values of a map. */
  ghost function Total(m: map<string, nat>): nat
    decreases |m|
  {
    if m == map[] then 0
    else
      var k :| k in m;
      assert (m - {k}).Keys == m.Keys - {k};
      m[k] + Total(m - {k})
  }

  /** The sum does not depend on which key is taken out first. */
  lemma {:induction false} TotalRemove(m: map<string, nat>, k: string)
    requires k in m
    ensures Total(m) == m[k] + Total(m - {k})
    decreases |m|
  {
    var j :| j in m && Total(m) == m[j] + Total(m - {j});
    if j != k {
      assert (m - {j}).Keys == m.Keys - {j};
      assert (m - {k}).Keys == m.Keys - {k};
      TotalRemove(m - {j}, k);
      TotalRemove(m - {k}, j);
      assert m - {j} - {k} == m - {k} - {j};
    }
  }

  lemma TotalBump(m: map<string, nat>, k: string)
    ensures Total(Bump(m, k)) == Total(m) + 1
  {
    var b := Bump(m, k);
    TotalRemove(b, k);
    if k in m {
      TotalRemove(m, k);
      assert b - {k} == m - {k};
    } else {
      assert b - {k} == m;
    }
  }

  /** The counts add up to the number of keys: every key is counted once. */
  lemma {:induction false} TallyTotal(keys: seq<string>)
    ensures Total(Tally(keys)) == |keys|
  {
    if keys != [] {
      TallyTotal(keys[..|keys| - 1]);
      TotalBump(Tally(keys[..|keys| - 1]), keys[|keys| - 1]);
    }
  }

  /** The `strftime("%Y-%U")` bucket of each date, in order. */
  function WeekKeys(ds: seq<DateTime>): (keys: seq<string>)
    requires AllValid(ds)
    ensures |keys| == |ds|
  {
    seq(|ds|, i requires 0 <= i < |ds| => WeekKey(ds[i]))
  }

  /** One more date adds its bucket to the tally of the dates before it. */
  lemma TallyStep(ds: seq<DateTime>, i: nat)
    requires AllValid(ds) && i < |ds|
    ensures Tally(WeekKeys(ds[..i + 1])) == Bump(Tally(WeekKeys(ds[..i])), WeekKey(ds[i]))
  {
    assert WeekKeys(ds[..i + 1])[..i] == WeekKeys(ds[..i]);
  }

  /** What `calculate_commit_frequency` returns for a list of date texts. */
  function WeekFrequency(dates: seq<string>): Outcome<map<string, nat>> {
    match ParseAll(dates)
    case RaisesValueError => RaisesValueError
    case Returns(ds) => Returns(Tally(WeekKeys(ds)))
  }

  /** The frequency map is produced exactly when every date parses; then its
      values are positive and add up to the number of dates, its keys are the
      week buckets of the dates, and each value counts the dates in its bucket. */
  lemma WeekFrequencyMeaning(dates: seq<string>)
    ensures WeekFrequency(dates).Returns? <==> forall i :: 0 <= i < |dates| ==> Parse(dates[i]).Some?
    ensures WeekFrequency(dates).Returns? ==>
      var keys := WeekKeys(ParseAll(dates).value);
      var counts := WeekFrequency(dates).value;
      && Total(counts) == |dates|
      && (forall k :: k in counts ==> counts[k] >= 1)
      && (forall k :: k in counts <==> k in keys)
      && (forall k :: k in counts ==> counts[k] == Occurrences(keys, k))
  {
    if WeekFrequency(dates).Returns? {
      var keys := WeekKeys(ParseAll(dates).value);
      TallyTotal(keys);
      forall k ensures (k in Tally(keys) <==> k in keys) && (k in Tally(keys) ==> Tally(keys)[k] == Occurrences(keys, k)) {
        TallyExact(keys, k);
      }
    }
  }

  lemma ExampleWeeks()
    ensures WeekOfYear(DateTime(2024, 3, 4, 10, 0, 0)) == 9
    ensures WeekOfYear(DateTime(2024, 3, 9, 23, 59, 59)) == 9
    ensures WeekOfYear(DateTime(2024, 3, 10, 0, 0, 0)) == 10
  {
    assert DaysBeforeYear(2024) == 738885;
  }

  lemma ExampleParseMonday()
    ensures Parse("2024-03-04T10:00:00Z") == Some(DateTime(2024, 3, 4, 10, 0, 0))
  {
    var dt := DateTime(2024, 3, 4, 10, 0, 0);
    assert Pad2(0) == "00";
    assert Pad2(3) == "03";
    assert Pad2(4) == "04";
    assert Pad2(10) == "10";
    assert Pad2(20) == "20";
    assert Pad2(24) == "24";
    assert Pad4(2024) == "2024";
    assert Format(dt) == "2024-03-04T10:00:00Z";
    ParseFormat(dt);
  }

  lemma ExampleParseSaturday()
    ensures Parse("2024-03-09T23:59:59Z") == Some(DateTime(2024, 3, 9, 23, 59, 59))
  {
    var dt := DateTime(2024, 3, 9, 23, 59, 59);
    assert Pad2(3) == "03";
    assert Pad2(9) == "09";
    assert Pad2(20) == "20";
    assert Pad2(23) == "23";
    assert Pad2(24) == "24";
    assert Pad2(59) == "59";
    assert Pad4(2024) == "2024";
    assert Format(dt) == "2024-03-09T23:59:59Z";
    ParseFormat(dt);
  }

  lemma ExampleParseSunday()
    ensures Parse("2024-03-10T00:00:00Z") == Some(DateTime(2024, 3, 10, 0, 0, 0))
  {
    var dt := DateTime(2024, 3, 10, 0, 0, 0);
    assert Pad2(0) == "00";
    assert Pad2(3) == "03";
    assert Pad2(10) == "10";
    assert Pad2(20) == "20";
    assert Pad2(24) == "24";
    assert Pad4(2024) == "2024";
    assert Format(dt) == "2024-03-10T00:00:00Z";
    ParseFormat(dt);
  }

  lemma ExampleParseTwo(a: string, b: string, da: DateTime, db: DateTime)
    requires Parse(a) == Some(da) && Parse(b) == Some(db)
    ensures ParseAll([a, b]) == Returns([da, db])
  {
    assert [a, b][1..] == [b] && [b][1..] == [];
    assert [db] + [] == [db] && [da] + [db] == [da, db];
    assert ParseAll([b]).value == [db];
  }

  lemma WeekFrequencyOfTwo(a: string, b: string, da: DateTime, db: DateTime)
    requires Parse(a) == Some(da) && Parse(b) == Some(db)
    ensures WeekFrequency([a, b]) == Returns(Tally([WeekKey(da), WeekKey(db)]))
  {
    ExampleParseTwo(a, b, da, db);
    assert WeekKeys([da, db]) == [WeekKey(da), WeekKey(db)];
  }

  lemma WeekKeyExamples()
    ensures WeekKey(DateTime(2024, 3, 4, 10, 0, 0)) == "2024-09"
    ensures WeekKey(DateTime(2024, 3, 9, 23, 59, 59)) == "2024-09"
    ensures WeekKey(DateTime(2024, 3, 10, 0, 0, 0)) == "2024-10"
  {
    ExampleWeeks();
    assert Pad4(2024) == "2024" && Pad2(9) == "09" && Pad2(10) == "10";
  }

  lemma TallyExamples()
    ensures Tally(["2024-09", "2024-09"]) == map["2024-09" := 2]
    ensures Tally(["2024-09", "2024-10"]) == map["2024-09" := 1, "2024-10" := 1]
  {
    assert ["2024-09", "2024-09"][..1] == ["2024-09"] && ["2024-09", "2024-10"][..1] == ["2024-09"];
    assert ["2024-09"][..0] == [];
    assert Tally(["2024-09"]) == map["2024-09" := 1];
    assert Tally(["2024-09", "2024-09"]) == map["2024-09" := 1]["2024-09" := 2];
    assert map["2024-09" := 1]["2024-09" := 2] == map["2024-09" := 2];
  }

  /** Two commits in the same Sunday-based week share one bucket with count 2. */
  lemma SameWeekExample()
    ensures WeekFrequency(["2024-03-04T10:00:00Z", "2024-03-09T23:59:59Z"])
         == Returns(map["2024-09" := 2])
  {
    ExampleParseMonday();
    ExampleParseSaturday();
    WeekKeyExamples();
    TallyExamples();
    WeekFrequencyOfTwo("2024-03-04T10:00:00Z", "2024-03-09T23:59:59Z",
                       DateTime(2024, 3, 4, 10, 0, 0), DateTime(2024, 3, 9, 23, 59, 59));
  }

  /** A Saturday and the following Sunday fall into two buckets. */
  lemma WeekBoundaryExample()
    ensures WeekFrequency(["2024-03-09T23:59:59Z", "2024-03-10T00:00:00Z"])
         == Returns(map["2024-09" := 1, "2024-10" := 1])
  {
    ExampleParseSaturday();
    ExampleParseSunday();
    WeekKeyExamples();
    TallyExamples();
    WeekFrequencyOfTwo("2024-03-09T23:59:59Z", "2024-03-10T00:00:00Z",
                       DateTime(2024, 3, 9, 23, 59, 59), DateTime(2024, 3, 10, 0, 0, 0));
  }

  // ---------------------------------------------------------------------
  // Commit-to-merge deltas
  // ---------------------------------------------------------------------

  /** Sequencing of two computations of lists: the concatenation, or the
      exception of the first one that raises. */
  function Then(a: Outcome<seq<int>>, b: Outcome<seq<int>>): Outcome<seq<int>> {
    match a
    case RaisesValueError => RaisesValueError
    case Returns(xs) =>
      match b
      case RaisesValueError => RaisesValueError
      case Returns(ys) => Returns(xs + ys)
  }

  /** The delta of one commit node against the merge time, or the ValueError
      of parsing its `committedDate`. */
  function NodeDelta(merged: DateTime, node: PullRequestCommit): Outcome<seq<int>>
    requires Valid(merged)
  {
    match Parse(node.commit.committedDate)
    case None => RaisesValueError
    case Some(c) => Returns([Seconds(merged) - Seconds(c)])
  }

  /** The inner loop over one pull request's commit nodes. */
  function NodeDeltas(merged: DateTime, nodes: seq<PullRequestCommit>): Outcome<seq<int>>
    requires Valid(merged)
  {
    if nodes == [] then Returns([])
    else Then(NodeDeltas(merged, nodes[..|nodes| - 1]), NodeDelta(merged, nodes[|nodes| - 1]))
  }

  /** What one pull request adds: nothing when it is not merged, otherwise
      one delta per commit node (after `mergedAt` itself has parsed). */
  function PullRequestDeltas(pr: PullRequest): Outcome<seq<int>> {
    if !IsMerged(pr) then Returns([])
    else
      match Parse(pr.mergedAt.value)
      case None => RaisesValueError
      case Some(m) => NodeDeltas(m, CommitNodes(pr))
  }

  /** What `calculate_commit_to_merge_time` returns: the outer loop over the
      pull requests in order. */
  function MergeDeltas(prs: seq<PullRequest>): Outcome<seq<int>> {
    if prs == [] then Returns([])
    else Then(MergeDeltas(prs[..|prs| - 1]), PullRequestDeltas(prs[|prs| - 1]))
  }

  /** One more pull request appends its deltas to those before it. */
  lemma MergeDeltasStep(prs: seq<PullRequest>, i: nat)
    requires i < |prs|
    ensures MergeDeltas(prs[..i + 1]) == Then(MergeDeltas(prs[..i]), PullRequestDeltas(prs[i]))
  {
    assert prs[..i + 1][..i] == prs[..i];
  }

  /** One more commit node whose date parses appends its delta. */
  lemma NodeDeltasStep(m: DateTime, nodes: seq<PullRequestCommit>, j: nat, c: DateTime)
    requires Valid(m) && j < |nodes| && Parse(nodes[j].commit.committedDate) == Some(c)
    ensures NodeDeltas(m, nodes[..j + 1]) == Then(NodeDeltas(m, nodes[..j]), Returns([Seconds(m) - Seconds(c)]))
  {
    assert nodes[..j + 1][..j] == nodes[..j];
    assert nodes[..j + 1][j] == nodes[j];
    assert NodeDelta(m, nodes[j]) == Returns([Seconds(m) - Seconds(c)]);
  }

  /** A commit node whose date does not parse makes its pull request raise. */
  lemma NodeDeltasStepRaises(m: DateTime, nodes: seq<PullRequestCommit>, j: nat)
    requires Valid(m) && j < |nodes| && Parse(nodes[j].commit.committedDate).None?
    ensures NodeDeltas(m, nodes).RaisesValueError?
  {
    assert nodes[..j + 1][..j] == nodes[..j];
    NodeDeltasRaisesEarly(m, nodes, j + 1);
  }

  lemma ThenAssociative(a: Outcome<seq<int>>, b: Outcome<seq<int>>, c: Outcome<seq<int>>)
    ensures Then(Then(a, b), c) == Then(a, Then(b, c))
  {
    if a.Returns? && b.Returns? && c.Returns? {
      assert (a.value + b.value) + c.value == a.value + (b.value + c.value);
    }
  }

  /** The deltas of a concatenation of pull-request lists are the deltas of
      the first followed by those of the second. */
  lemma {:induction false} MergeDeltasAppend(a: seq<PullRequest>, b: seq<PullRequest>)
    ensures MergeDeltas(a + b) == Then(MergeDeltas(a), MergeDeltas(b))
  {
    if b == [] {
      assert a + b == a;
      if MergeDeltas(a).Returns? {
        assert MergeDeltas(a).value + [] == MergeDeltas(a).value;
      }
    } else {
      var n := |b| - 1;
      assert (a + b)[..|a + b| - 1] == a + b[..n];
      assert (a + b)[|a + b| - 1] == b[n];
      MergeDeltasAppend(a, b[..n]);
      ThenAssociative(MergeDeltas(a), MergeDeltas(b[..n]), PullRequestDeltas(b[n]));
    }
  }

  /** An unmerged pull request contributes no entries, wherever it stands. */
  lemma UnmergedContributesNothing(a: seq<PullRequest>, pr: PullRequest, b: seq<PullRequest>)
    requires !IsMerged(pr)
    ensures MergeDeltas(a + [pr] + b) == MergeDeltas(a + b)
  {
    MergeDeltasAppend(a + [pr], b);
    MergeDeltasAppend(a, [pr]);
    MergeDeltasAppend(a, b);
    assert [pr][..0] == [];
    if MergeDeltas(a).Returns? {
      assert MergeDeltas(a).value + [] == MergeDeltas(a).value;
    }
  }

  /** Once a prefix raises, the whole list raises. */
  lemma MergeDeltasRaisesEarly(prs: seq<PullRequest>, k: nat)
    requires k <= |prs| && MergeDeltas(prs[..k]).RaisesValueError?
    ensures MergeDeltas(prs).RaisesValueError?
  {
    assert prs == prs[..k] + prs[k..];
    MergeDeltasAppend(prs[..k], prs[k..]);
  }

  lemma {:induction false} NodeDeltasAppend(m: DateTime, a: seq<PullRequestCommit>, b: seq<PullRequestCommit>)
    requires Valid(m)
    ensures NodeDeltas(m, a + b) == Then(NodeDeltas(m, a), NodeDeltas(m, b))
  {
    if b == [] {
      assert a + b == a;
      if NodeDeltas(m, a).Returns? {
        assert NodeDeltas(m, a).value + [] == NodeDeltas(m, a).value;
      }
    } else {
      var n := |b| - 1;
      assert (a + b)[..|a + b| - 1] == a + b[..n];
      assert (a + b)[|a + b| - 1] == b[n];
      NodeDeltasAppend(m, a, b[..n]);
      ThenAssociative(NodeDeltas(m, a), NodeDeltas(m, b[..n]), NodeDelta(m, b[n]));
    }
  }

  lemma NodeDeltasRaisesEarly(m: DateTime, nodes: seq<PullRequestCommit>, k: nat)
    requires Valid(m) && k <= |nodes| && NodeDeltas(m, nodes[..k]).RaisesValueError?
    ensures NodeDeltas(m, nodes).RaisesValueError?
  {
    assert nodes == nodes[..k] + nodes[k..];
    NodeDeltasAppend(m, nodes[..k], nodes[k..]);
  }

  /** The (mergedAt, committedDate) texts of one pull request's commit
      nodes, given its `mergedAt` text. */
  function PairsFor(mergedAt: string, nodes: seq<PullRequestCommit>): seq<(string, string)> {
    seq(|nodes|, j requires 0 <= j < |nodes| => (mergedAt, nodes[j].commit.committedDate))
  }

  /** The (mergedAt, committedDate) texts the deltas are computed from: one
      pair per commit node of each merged pull request, in pull-request order
      then commit order. */
  function PairsOf(pr: PullRequest): seq<(string, string)> {
    if !IsMerged(pr) then [] else PairsFor(pr.mergedAt.value, CommitNodes(pr))
  }

  function MergePairs(prs: seq<PullRequest>): seq<(string, string)> {
    if prs == [] then [] else MergePairs(prs[..|prs| - 1]) + PairsOf(prs[|prs| - 1])
  }

  /** merged - committed in seconds, when both texts parse. */
  function PairDelta(p: (string, string)): Option<int> {
    match (Parse(p.0), Parse(p.1))
    case (Some(m), Some(c)) => Some(Seconds(m) - Seconds(c))
    case _ => None
  }

  /** Every date the computation parses for this pull request is well formed. */
  predicate MergeDatesParse(pr: PullRequest) {
    IsMerged(pr) ==>
      && Parse(pr.mergedAt.value).Some?
      && forall j :: 0 <= j < |CommitNodes(pr)| ==> Parse(CommitNodes(pr)[j].commit.committedDate).Some?
  }

  lemma {:induction false} NodeDeltasMeaning(m: DateTime, nodes: seq<PullRequestCommit>)
    requires Valid(m)
    ensures NodeDeltas(m, nodes).Returns? <==> forall j :: 0 <= j < |nodes| ==> NodeDelta(m, nodes[j]).Returns?
    ensures NodeDeltas(m, nodes).Returns? ==>
      |NodeDeltas(m, nodes).value| == |nodes| &&
      forall j :: 0 <= j < |nodes| ==> NodeDelta(m, nodes[j]) == Returns([NodeDeltas(m, nodes).value[j]])
  {
    if nodes != [] {
      var n := |nodes| - 1;
      NodeDeltasMeaning(m, nodes[..n]);
      assert forall j :: 0 <= j < n ==> nodes[..n][j] == nodes[j];
      var before, last := NodeDeltas(m, nodes[..n]), NodeDelta(m, nodes[n]);
      assert NodeDeltas(m, nodes) == Then(before, last);
      if before.Returns? && last.Returns? {
        NodeDeltaSingle(m, nodes[n]);
        var xs := before.value + last.value;
        forall j | 0 <= j < |nodes|
          ensures NodeDelta(m, nodes[j]) == Returns([xs[j]])
        {
          if j == n {
            assert last.value == [xs[j]];
          }
        }
      }
    }
  }

  lemma NodeDeltaSingle(m: DateTime, node: PullRequestCommit)
    requires Valid(m)
    ensures NodeDelta(m, node).Returns? ==> NodeDelta(m, node) == Returns([NodeDelta(m, node).value[0]])
  {
  }

  /** One node's delta is the delta of its (mergedAt, committedDate) pair. */
  lemma NodeDeltaPair(mergedAt: string, m: DateTime, node: PullRequestCommit)
    requires Parse(mergedAt) == Some(m)
    ensures NodeDelta(m, node).Returns? <==> PairDelta((mergedAt, node.commit.committedDate)).Some?
    ensures NodeDelta(m, node).Returns? ==>
      NodeDelta(m, node) == Returns([PairDelta((mergedAt, node.commit.committedDate)).value])
  {
  }

  lemma PullRequestDeltasMeaning(pr: PullRequest)
    ensures PullRequestDeltas(pr).Returns? <==> MergeDatesParse(pr)
    ensures PullRequestDeltas(pr).Returns? ==>
      |PullRequestDeltas(pr).value| == |PairsOf(pr)| &&
      forall j :: 0 <= j < |PairsOf(pr)| ==> PairDelta(PairsOf(pr)[j]) == Some(PullRequestDeltas(pr).value[j])
  {
    if IsMerged(pr) && Parse(pr.mergedAt.value).Some? {
      var nodes := CommitNodes(pr);
      var m := Parse(pr.mergedAt.value).value;
      NodeDeltasMeaning(m, nodes);
      forall j | 0 <= j < |nodes|
        ensures NodeDelta(m, nodes[j]).Returns? <==> Parse(nodes[j].commit.committedDate).Some?
        ensures NodeDelta(m, nodes[j]).Returns? ==>
          NodeDelta(m, nodes[j]) == Returns([PairDelta(PairsOf(pr)[j]).value])
      {
        assert PairsOf(pr)[j] == (pr.mergedAt.value, nodes[j].commit.committedDate);
        NodeDeltaPair(pr.mergedAt.value, m, nodes[j]);
      }
    }
  }

  lemma {:induction false} MergeDeltasReturns(prs: seq<PullRequest>)
    ensures MergeDeltas(prs).Returns? <==> forall i :: 0 <= i < |prs| ==> MergeDatesParse(prs[i])
  {
    if prs != [] {
      var n := |prs| - 1;
      MergeDeltasReturns(prs[..n]);
      PullRequestDeltasMeaning(prs[n]);
      assert forall i :: 0 <= i < n ==> prs[..n][i] == prs[i];
      assert MergeDeltas(prs) == Then(MergeDeltas(prs[..n]), PullRequestDeltas(prs[n]));
    }
  }

  lemma {:induction false} MergeDeltasValues(prs: seq<PullRequest>)
    requires MergeDeltas(prs).Returns?
    ensures |MergeDeltas(prs).value| == |MergePairs(prs)|
    ensures forall k :: 0 <= k < |MergePairs(prs)| ==> PairDelta(MergePairs(prs)[k]) == Some(MergeDeltas(prs).value[k])
  {
    if prs != [] {
      var n := |prs| - 1;
      var before, last := MergeDeltas(prs[..n]), PullRequestDeltas(prs[n]);
      assert MergeDeltas(prs) == Then(before, last);
      MergeDeltasValues(prs[..n]);
      PullRequestDeltasMeaning(prs[n]);
      assert MergePairs(prs) == MergePairs(prs[..n]) + PairsOf(prs[n]);
      ConcatPointwise(PairDelta, MergePairs(prs[..n]), PairsOf(prs[n]), before.value, last.value);
    }
  }

  /** Two pointwise correspondences concatenate to one. */
  lemma ConcatPointwise<A, B>(f: A -> Option<B>, ps: seq<A>, qs: seq<A>, xs: seq<B>, ys: seq<B>)
    requires |ps| == |xs| && |qs| == |ys|
    requires forall k :: 0 <= k < |ps| ==> f(ps[k]) == Some(xs[k])
    requires forall k :: 0 <= k < |qs| ==> f(qs[k]) == Some(ys[k])
    ensures forall k :: 0 <= k < |ps + qs| ==> f((ps + qs)[k]) == Some((xs + ys)[k])
  {
    forall k | 0 <= k < |ps + qs|
      ensures f((ps + qs)[k]) == Some((xs + ys)[k])
    {
      if k >= |ps| {
        assert (ps + qs)[k] == qs[k - |ps|] && (xs + ys)[k] == ys[k - |ps|];
      }
    }
  }

  /** The commit-to-merge list is produced exactly when every date it reads
      parses, and then it holds one entry per (mergedAt, committedDate) pair,
      in order, each the signed difference merged - committed in seconds. */
  lemma MergeDeltasMeaning(prs: seq<PullRequest>)
    ensures MergeDeltas(prs).Returns? <==> forall i :: 0 <= i < |prs| ==> MergeDatesParse(prs[i])
    ensures MergeDeltas(prs).Returns? ==>
      |MergeDeltas(prs).value| == |MergePairs(prs)| &&
      forall k :: 0 <= k < |MergePairs(prs)| ==> PairDelta(MergePairs(prs)[k]) == Some(MergeDeltas(prs).value[k])
  {
    MergeDeltasReturns(prs);
    if MergeDeltas(prs).Returns? {
      MergeDeltasValues(prs);
    }
  }

  // ---------------------------------------------------------------------
  // Sums behind the averages
  // ---------------------------------------------------------------------

  /** `commit.get("additions", 0)` */
  function Additions(c: Commit): int {
    c.additions.GetOr(0)
  }

  /** `commit.get("deletions", 0)` */
  function Deletions(c: Commit): int {
    c.deletions.GetOr(0)
  }

  function SumAdditions(cs: seq<Commit>): int {
    if cs == [] then 0 else Additions(cs[0]) + SumAdditions(cs[1..])
  }

  function SumDeletions(cs: seq<Commit>): int {
    if cs == [] then 0 else Deletions(cs[0]) + SumDeletions(cs[1..])
  }

  /** `sum(add + delete for add, delete in commit_sizes)` */
  function SumSizes(cs: seq<Commit>): int {
    if cs == [] then 0 else Additions(cs[0]) + Deletions(cs[0]) + SumSizes(cs[1..])
  }

  /** Like `sum`, SumSizes adds up the parts of a concatenation. */
  lemma {:induction false} SumSizesAppend(a: seq<Commit>, b: seq<Commit>)
    ensures SumSizes(a + b) == SumSizes(a) + SumSizes(b)
  {
    if a != [] {
      assert (a + b)[1..] == a[1..] + b;
      SumSizesAppend(a[1..], b);
    } else {
      assert a + b == b;
    }
  }

  /** Summing per commit or per column gives the same total. */
  lemma {:induction false} SumSizesSplit(cs: seq<Commit>)
    ensures SumSizes(cs) == SumAdditions(cs) + SumDeletions(cs)
  {
    if cs != [] {
      SumSizesSplit(cs[1..]);
    }
  }

  /** If every commit's size lies in [lo, hi], so does the sum divided by the count. */
  lemma {:induction false} SumSizesBounds(cs: seq<Commit>, lo: int, hi: int)
    requires forall i :: 0 <= i < |cs| ==> lo <= Additions(cs[i]) + Deletions(cs[i]) <= hi
    ensures lo * |cs| <= SumSizes(cs) <= hi * |cs|
  {
    if cs != [] {
      assert forall i :: 0 <= i < |cs| - 1 ==> cs[1..][i] == cs[i + 1];
      SumSizesBounds(cs[1..], lo, hi);
    }
  }

  /** `len(pr["commits"]["nodes"])` */
  function NodeCount(pr: PullRequest): nat
    requires HasCommitNodes(pr)
  {
    |pr.commits.value.nodes.value|
  }

  predicate AllHaveCommitNodes(prs: seq<PullRequest>) {
    forall i :: 0 <= i < |prs| ==> HasCommitNodes(prs[i])
  }

  /** `sum(len(pr["commits"]["nodes"]) for pr in pull_requests)` */
  function TotalNodes(prs: seq<PullRequest>): nat
    requires AllHaveCommitNodes(prs)
  {
    if prs == [] then 0 else NodeCount(prs[0]) + TotalNodes(prs[1..])
  }

  /** Like `sum`, TotalNodes adds up the parts of a concatenation. */
  lemma {:induction false} TotalNodesAppend(a: seq<PullRequest>, b: seq<PullRequest>)
    requires AllHaveCommitNodes(a) && AllHaveCommitNodes(b)
    ensures AllHaveCommitNodes(a + b)
    ensures TotalNodes(a + b) == TotalNodes(a) + TotalNodes(b)
  {
    assert forall i :: 0 <= i < |a + b| ==> (a + b)[i] == if i < |a| then a[i] else b[i - |a|];
    if a != [] {
      assert (a + b)[1..] == a[1..] + b;
      assert AllHaveCommitNodes(a[1..]) by {
        assert forall i :: 0 <= i < |a| - 1 ==> a[1..][i] == a[i + 1];
      }
      TotalNodesAppend(a[1..], b);
    } else {
      assert a + b == b;
    }
  }

  lemma {:induction false} TotalNodesBounds(prs: seq<PullRequest>, lo: int, hi: int)
    requires AllHaveCommitNodes(prs)
    requires forall i :: 0 <= i < |prs| ==> lo <= NodeCount(prs[i]) <= hi
    ensures lo * |prs| <= TotalNodes(prs) <= hi * |prs|
  {
    if prs != [] {
      assert forall i :: 0 <= i < |prs| - 1 ==> prs[1..][i] == prs[i + 1];
      TotalNodesBounds(prs[1..], lo, hi);
    }
  }

  /** Python's `total / count if count else 0`, exactly. */
  function Mean(total: int, count: nat): (r: real)
    ensures count == 0 ==> r == 0.0
    ensures count > 0 ==> r * count as real == total as real
  {
    if count == 0 then 0.0 else total as real / count as real
  }

  /** A mean of values in [lo, hi] is in [lo, hi]. */
  lemma MeanBetween(total: int, count: nat, lo: int, hi: int)
    requires count > 0 && lo * count <= total <= hi * count
    ensures lo as real <= Mean(total, count) <= hi as real
  {
    var q := Mean(total, count);
    assert q * count as real == total as real;
    assert (lo * count) as real == lo as real * count as real;
    assert (hi * count) as real == hi as real * count as real;
  }
}
