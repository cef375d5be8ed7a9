/** Dashboard aggregates over the attempt table and the audit log: failure
    counts per rule and per message, per-feed performance, an article's
    compliance history, and a 24-hour health verdict with recommendations.
    Timestamps are seconds. */
module Dashboard {
  import opened Text
  import opened Domain
  import opened OrderedMaps
  import opened Sorting
  import opened FeedRegistryService
  import opened ComplianceEngine
  import opened ComplianceMonitor

  // ---------------------------------------------------------------------
  // Tallies: `$t[$k] = ($t[$k] ?? 0) + 1`

  datatype Tally = Tally(key: string, count: nat)

  function TallyKey(t: Tally): string
  {
    t.key
  }

  /** The `arsort` key: larger counts first. */
  function NegCount(t: Tally): int
  {
    -(t.count as int)
  }

  /** `$t[$k] ?? 0`. */
  function CountOf(ts: seq<Tally>, k: string): nat
  {
    var i := Find(ts, TallyKey, k);
    if i < 0 then 0 else ts[i].count
  }

  predicate Positive(ts: seq<Tally>)
  {
    forall i :: 0 <= i < |ts| ==> ts[i].count > 0
  }

  /** One more occurrence of `k`; every other count is unchanged. */
  function Bump(ts: seq<Tally>, k: string): (r: seq<Tally>)
    ensures CountOf(r, k) == CountOf(ts, k) + 1
    ensures forall j :: j != k ==> CountOf(r, j) == CountOf(ts, j)
    ensures forall j :: j in Keys(r, TallyKey) <==> j in Keys(ts, TallyKey) || j == k
    ensures UniqueKeys(ts, TallyKey) ==> UniqueKeys(r, TallyKey)
    ensures Positive(ts) ==> Positive(r)
  {
    var e := Tally(k, CountOf(ts, k) + 1);
    var r := Assign(ts, TallyKey, e);
    AssignedValue(ts, TallyKey, e);
    forall j | j != k ensures CountOf(r, j) == CountOf(ts, j) {
      FindOther(ts, TallyKey, e, j);
    }
    assert forall j :: j in Keys(r, TallyKey) <==> j in Keys(ts, TallyKey) || j == k by {
      if k in Keys(ts, TallyKey) {
        assert Keys(r, TallyKey) == Keys(ts, TallyKey);
      } else {
        assert Keys(r, TallyKey) == Keys(ts, TallyKey) + [k];
      }
    }
    r
  }

  function BumpAll(ts: seq<Tally>, ks: seq<string>): seq<Tally>
  {
    if ks == [] then ts else Bump(BumpAll(ts, ks[..|ks| - 1]), ks[|ks| - 1])
  }

  function Occurrences(ks: seq<string>, k: string): nat
  {
    if ks == [] then 0
    else Occurrences(ks[..|ks| - 1], k) + (if ks[|ks| - 1] == k then 1 else 0)
  }

  /** Counting a list of keys adds each key's number of occurrences. */
  lemma {:induction false} BumpAllCounts(ts: seq<Tally>, ks: seq<string>)
    ensures forall k :: CountOf(BumpAll(ts, ks), k) == CountOf(ts, k) + Occurrences(ks, k)
    ensures forall k :: k in Keys(BumpAll(ts, ks), TallyKey) <==> k in Keys(ts, TallyKey) || k in ks
    ensures UniqueKeys(ts, TallyKey) ==> UniqueKeys(BumpAll(ts, ks), TallyKey)
    ensures Positive(ts) ==> Positive(BumpAll(ts, ks))
  {
    if ks != [] {
      var init := ks[..|ks| - 1];
      BumpAllCounts(ts, init);
      assert ks == init + [ks[|ks| - 1]];
    }
  }

  lemma BumpAllSnoc(ts: seq<Tally>, ks: seq<string>, k: string)
    ensures BumpAll(ts, ks + [k]) == Bump(BumpAll(ts, ks), k)
  {
    assert (ks + [k])[..|ks|] == ks;
  }

  /** The inner `foreach` over a list of keys. */
  method BumpEach(tally: seq<Tally>, ks: seq<string>) returns (r: seq<Tally>)
    ensures r == BumpAll(tally, ks)
  {
    r := tally;
    var j := 0;
    while j < |ks|
      invariant 0 <= j <= |ks|
      invariant r == BumpAll(tally, ks[..j])
    {
      assert ks[..j + 1][..j] == ks[..j];
      r := Bump(r, ks[j]);
      j := j + 1;
    }
    assert ks[..j] == ks;
  }

  /** With unique keys and positive counts, `Tally(k, c)` is an entry
      exactly when `c` is the positive count of `k`. */
  lemma TallyMember(ts: seq<Tally>, k: string, c: nat)
    requires UniqueKeys(ts, TallyKey) && Positive(ts)
    ensures Tally(k, c) in ts <==> c == CountOf(ts, k) && c > 0
  {
    var i := Find(ts, TallyKey, k);
    if Tally(k, c) in ts {
      var m :| 0 <= m < |ts| && ts[m] == Tally(k, c);
      assert i >= 0;
      assert i == m;
    }
    if c == CountOf(ts, k) && c > 0 {
      assert ts[i] == Tally(k, c);
    }
  }

  /** `arsort`: counts in descending order. */
  function Arsort(ts: seq<Tally>): (r: seq<Tally>)
    ensures |r| == |ts| && multiset(r) == multiset(ts)
    ensures forall i, j :: 0 <= i < j < |r| ==> r[i].count >= r[j].count
  {
    var r := SortBy(ts, NegCount);
    assert forall i, j :: 0 <= i < j < |r| ==> NegCount(r[i]) <= NegCount(r[j]);
    r
  }

  // ---------------------------------------------------------------------
  // Issues by rule

  /** Failed attempts at or after `start`. */
  predicate CountedFailure(at: Attempt, start: int)
  {
    at.attemptedAt >= start && at.status == Failed
  }

  /** The rule names of the failing entries, in map order. */
  function FailingNames(results: seq<CheckEntry>): seq<string>
  {
    if results == [] then []
    else
      var last := results[|results| - 1];
      FailingNames(results[..|results| - 1]) + (if last.passed then [] else [last.rule])
  }

  /** The tally the nested loops of `getComplianceIssuesByRule` build. */
  function IssuesTally(attempts: seq<Attempt>, start: int): seq<Tally>
  {
    if attempts == [] then []
    else
      var last := attempts[|attempts| - 1];
      BumpAll(IssuesTally(attempts[..|attempts| - 1], start),
              if CountedFailure(last, start) then FailingNames(last.complianceResults) else [])
  }

  /** How many failing entries under rule `k` the counted attempts hold. */
  function RuleFailures(attempts: seq<Attempt>, start: int, k: string): nat
  {
    if attempts == [] then 0
    else
      var last := attempts[|attempts| - 1];
      RuleFailures(attempts[..|attempts| - 1], start, k)
        + (if CountedFailure(last, start) then Occurrences(FailingNames(last.complianceResults), k) else 0)
  }

  lemma {:induction false} IssuesTallyCounts(attempts: seq<Attempt>, start: int)
    ensures forall k :: CountOf(IssuesTally(attempts, start), k) == RuleFailures(attempts, start, k)
    ensures UniqueKeys(IssuesTally(attempts, start), TallyKey) && Positive(IssuesTally(attempts, start))
  {
    if attempts != [] {
      var last := attempts[|attempts| - 1];
      IssuesTallyCounts(attempts[..|attempts| - 1], start);
      BumpAllCounts(IssuesTally(attempts[..|attempts| - 1], start),
                    if CountedFailure(last, start) then FailingNames(last.complianceResults) else []);
    }
  }

  /** `getComplianceIssuesByRule`. */
  function IssuesByRule(attempts: seq<Attempt>, start: int): seq<Tally>
  {
    Arsort(IssuesTally(attempts, start))
  }

  /** Each rule appears with the number of its failing entries across the
      failed attempts since `start`, largest counts first. */
  lemma IssuesByRuleCounts(attempts: seq<Attempt>, start: int, k: string, c: nat)
    ensures Tally(k, c) in IssuesByRule(attempts, start) <==> c == RuleFailures(attempts, start, k) && c > 0
    ensures forall i, j :: 0 <= i < j < |IssuesByRule(attempts, start)| ==>
      IssuesByRule(attempts, start)[i].count >= IssuesByRule(attempts, start)[j].count
  {
    var ts := IssuesTally(attempts, start);
    IssuesTallyCounts(attempts, start);
    TallyMember(ts, k, c);
    assert Tally(k, c) in IssuesByRule(attempts, start) <==> Tally(k, c) in multiset(ts);
  }

  lemma FailingNamesSnoc(results: seq<CheckEntry>, j: nat)
    requires j < |results|
    ensures results[j].passed ==> FailingNames(results[..j + 1]) == FailingNames(results[..j])
    ensures !results[j].passed ==> FailingNames(results[..j + 1]) == FailingNames(results[..j]) + [results[j].rule]
  {
    assert results[..j + 1][..j] == results[..j];
    assert FailingNames(results[..j]) + [] == FailingNames(results[..j]);
  }

  /** The inner `foreach`: one more count for each failing entry's rule. */
  method BumpFailing(tally: seq<Tally>, results: seq<CheckEntry>) returns (r: seq<Tally>)
    ensures r == BumpAll(tally, FailingNames(results))
  {
    r := tally;
    var j := 0;
    while j < |results|
      invariant 0 <= j <= |results|
      invariant r == BumpAll(tally, FailingNames(results[..j]))
    {
      FailingNamesSnoc(results, j);
      if !results[j].passed {
        BumpAllSnoc(tally, FailingNames(results[..j]), results[j].rule);
        r := Bump(r, results[j].rule);
      }
      j := j + 1;
    }
    assert results[..j] == results;
  }

  /** The nested loops, then the sort. */
  method GetComplianceIssuesByRule(attempts: seq<Attempt>, start: int) returns (r: seq<Tally>)
    ensures r == IssuesByRule(attempts, start)
  {
    var tally: seq<Tally> := [];
    var i := 0;
    while i < |attempts|
      invariant 0 <= i <= |attempts|
      invariant tally == IssuesTally(attempts[..i], start)
    {
      assert attempts[..i + 1][..i] == attempts[..i];
      var at := attempts[i];
      if CountedFailure(at, start) {
        tally := BumpFailing(tally, at.complianceResults);
      }
      i := i + 1;
    }
    assert attempts[..i] == attempts;
    r := Arsort(tally);
  }

  // ---------------------------------------------------------------------
  // Trending failure reasons

  const UnknownError := "Unknown error"

  function ReasonOf(e: CheckEntry): string
  {
    match e.message
    case Some(m) => m
    case None => UnknownError
  }

  function ReasonsOf(fc: seq<CheckEntry>): (ms: seq<string>)
    ensures |ms| == |fc|
    ensures forall i :: 0 <= i < |ms| ==> ms[i] == ReasonOf(fc[i])
  {
    if fc == [] then [] else ReasonsOf(fc[..|fc| - 1]) + [ReasonOf(fc[|fc| - 1])]
  }

  /** The messages of the failed checks stored with an attempt's error. */
  function Reasons(at: Attempt): (ms: seq<string>)
    ensures at.errorDetails.ComplianceError? ==> |ms| == |at.errorDetails.failedChecks|
    ensures at.errorDetails.ComplianceError? ==>
      forall i :: 0 <= i < |ms| ==> ms[i] == ReasonOf(at.errorDetails.failedChecks[i])
    ensures !at.errorDetails.ComplianceError? ==> ms == []
  {
    match at.errorDetails
    case ComplianceError(_, fc, _) => ReasonsOf(fc)
    case _ => []
  }

  function ReasonsTally(attempts: seq<Attempt>, start: int): seq<Tally>
  {
    if attempts == [] then []
    else
      var last := attempts[|attempts| - 1];
      BumpAll(ReasonsTally(attempts[..|attempts| - 1], start),
              if CountedFailure(last, start) then Reasons(last) else [])
  }

  function ReasonCount(attempts: seq<Attempt>, start: int, m: string): nat
  {
    if attempts == [] then 0
    else
      var last := attempts[|attempts| - 1];
      ReasonCount(attempts[..|attempts| - 1], start, m)
        + (if CountedFailure(last, start) then Occurrences(Reasons(last), m) else 0)
  }

  lemma {:induction false} ReasonsTallyCounts(attempts: seq<Attempt>, start: int)
    ensures forall m :: CountOf(ReasonsTally(attempts, start), m) == ReasonCount(attempts, start, m)
    ensures UniqueKeys(ReasonsTally(attempts, start), TallyKey) && Positive(ReasonsTally(attempts, start))
  {
    if attempts != [] {
      var last := attempts[|attempts| - 1];
      ReasonsTallyCounts(attempts[..|attempts| - 1], start);
      BumpAllCounts(ReasonsTally(attempts[..|attempts| - 1], start),
                    if CountedFailure(last, start) then Reasons(last) else []);
    }
  }

  /** `array_slice(..., 0, 10, true)`. */
  function TopTen(ts: seq<Tally>): (r: seq<Tally>)
    ensures |r| <= 10
  {
    if |ts| <= 10 then ts else ts[..10]
  }

  /** `getTrendingFailureReasons`. */
  function TrendingFailureReasons(attempts: seq<Attempt>, start: int): seq<Tally>
  {
    TopTen(Arsort(ReasonsTally(attempts, start)))
  }

  /** Cutting a list sorted by descending count keeps the largest counts. */
  lemma TopTenKeepsLargest(sorted: seq<Tally>)
    requires forall i, j :: 0 <= i < j < |sorted| ==> sorted[i].count >= sorted[j].count
    ensures forall t, u :: t in sorted && t !in TopTen(sorted) && u in TopTen(sorted) ==> u.count >= t.count
  {
    var r := TopTen(sorted);
    forall t, u | t in sorted && t !in r && u in r ensures u.count >= t.count {
      var a :| 0 <= a < |sorted| && sorted[a] == t;
      var b :| 0 <= b < |r| && r[b] == u;
      assert sorted[b] == u;
      assert r == sorted[..|r|];
      assert a >= |r|;
    }
  }

  /** Every entry of the message tally holds that message's count. */
  lemma ReasonsTallyEntries(attempts: seq<Attempt>, start: int)
    ensures forall t :: t in ReasonsTally(attempts, start) ==>
      t.count == ReasonCount(attempts, start, t.key) && t.count > 0
  {
    var ts := ReasonsTally(attempts, start);
    ReasonsTallyCounts(attempts, start);
    forall t | t in ts ensures t.count == ReasonCount(attempts, start, t.key) && t.count > 0 {
      TallyMember(ts, t.key, t.count);
    }
  }

  /** At most ten messages, each with its number of occurrences, largest
      first; a message left out occurs no more often than any kept. */
  lemma TrendingKeepsTopTen(attempts: seq<Attempt>, start: int)
    ensures var r := TrendingFailureReasons(attempts, start);
      && |r| <= 10
      && (forall t :: t in r ==> t.count == ReasonCount(attempts, start, t.key) && t.count > 0)
      && (forall i, j :: 0 <= i < j < |r| ==> r[i].count >= r[j].count)
      && (forall t, u :: t in ReasonsTally(attempts, start) && t !in r && u in r ==> u.count >= t.count)
  {
    var ts := ReasonsTally(attempts, start);
    var sorted := Arsort(ts);
    var r := TopTen(sorted);
    ReasonsTallyEntries(attempts, start);
    forall t | t in r ensures t in ts {
      assert t in multiset(sorted);
    }
    TopTenKeepsLargest(sorted);
    forall t | t in ts ensures t in sorted {
      assert t in multiset(ts);
    }
  }

  /** The nested loops, then the sort and the slice. */
  method GetTrendingFailureReasons(attempts: seq<Attempt>, start: int) returns (r: seq<Tally>)
    ensures r == TrendingFailureReasons(attempts, start)
  {
    var tally: seq<Tally> := [];
    var i := 0;
    while i < |attempts|
      invariant 0 <= i <= |attempts|
      invariant tally == ReasonsTally(attempts[..i], start)
    {
      assert attempts[..i + 1][..i] == attempts[..i];
      var at := attempts[i];
      if CountedFailure(at, start) {
        tally := BumpEach(tally, Reasons(at));
      }
      i := i + 1;
    }
    assert attempts[..i] == attempts;
    r := TopTen(Arsort(tally));
  }

  // ---------------------------------------------------------------------
  // Feed performance

  /** Attempts on the feed at or after `start` whose status equals every
      status in `statuses`: the `where('status', ...)` clauses a query
      builder has accumulated. */
  function CountWhere(attempts: seq<Attempt>, feedName: string, start: int, statuses: seq<AttemptStatus>): (n: nat)
    ensures n <= |attempts|
  {
    if attempts == [] then 0
    else
      var last := attempts[|attempts| - 1];
      CountWhere(attempts[..|attempts| - 1], feedName, start, statuses)
        + (if last.feedName == feedName && last.attemptedAt >= start
              && forall s :: s in statuses ==> last.status == s then 1 else 0)
  }

  datatype Performance = Performance(
    feedName: string, displayName: string, totalAttempts: nat, successful: nat, failed: nat, successRate: nat)

  function PerformanceFeed(p: Performance): string
  {
    p.feedName
  }

  /** The counts as written: the builder that counted the successes is
      reused for the failures, so the failure query asks for a status that
      is both `success` and `failed`. */
  function PerformanceAsWritten(feed: FeedConfig, attempts: seq<Attempt>, start: int): Performance
  {
    var total := CountWhere(attempts, feed.name, start, []);
    var successful := CountWhere(attempts, feed.name, start, [Success]);
    var failed := CountWhere(attempts, feed.name, start, [Success, Failed]);
    Performance(feed.name, feed.displayName, total, successful, failed, RoundedRate(successful, total))
  }

  /** The failure count as written is always zero. */
  lemma {:induction false} FailedAlwaysZero(feed: FeedConfig, attempts: seq<Attempt>, start: int)
    ensures PerformanceAsWritten(feed, attempts, start).failed == 0
  {
    if attempts != [] {
      FailedAlwaysZero(feed, attempts[..|attempts| - 1], start);
      var last := attempts[|attempts| - 1];
      assert !(forall s :: s in [Success, Failed] ==> last.status == s) by {
        assert Success in [Success, Failed] && Failed in [Success, Failed];
      }
    }
  }

  /** One failed attempt on the feed already shows the difference. */
  lemma FailedCountMissesFailures(feed: FeedConfig)
    ensures var at := Attempt(1, 1, feed.name, Failed, [], NoError, 0, Some(0), None);
      && PerformanceAsWritten(feed, [at], 0).failed == 0
      && PerformanceFor(feed, [at], 0).failed == 1
  {
    var at := Attempt(1, 1, feed.name, Failed, [], NoError, 0, Some(0), None);
    assert [at][..0] == [];
    FailedAlwaysZero(feed, [at], 0);
  }

  /** The counts the dashboard means: each status counted on its own. */
  function PerformanceFor(feed: FeedConfig, attempts: seq<Attempt>, start: int): Performance
  {
    var total := CountWhere(attempts, feed.name, start, []);
    var successful := CountWhere(attempts, feed.name, start, [Success]);
    var failed := CountWhere(attempts, feed.name, start, [Failed]);
    Performance(feed.name, feed.displayName, total, successful, failed, RoundedRate(successful, total))
  }

  /** Successes and failures are disjoint parts of the total. */
  lemma {:induction false} StatusCountsDisjoint(attempts: seq<Attempt>, feedName: string, start: int)
    ensures CountWhere(attempts, feedName, start, [Success]) + CountWhere(attempts, feedName, start, [Failed])
            <= CountWhere(attempts, feedName, start, [])
  {
    if attempts != [] {
      StatusCountsDisjoint(attempts[..|attempts| - 1], feedName, start);
      var last := attempts[|attempts| - 1];
      assert (forall s :: s in [Success] ==> last.status == s) <==> last.status == Success by {
        assert Success in [Success];
      }
      assert (forall s :: s in [Failed] ==> last.status == s) <==> last.status == Failed by {
        assert Failed in [Failed];
      }
    }
  }

  lemma PerformanceConsistent(feed: FeedConfig, attempts: seq<Attempt>, start: int)
    ensures var p := PerformanceFor(feed, attempts, start);
      && p.successful + p.failed <= p.totalAttempts
      && p.successRate <= 10000
      && (p.totalAttempts == 0 ==> p.successRate == 0)
  {
    StatusCountsDisjoint(attempts, feed.name, start);
    var p := PerformanceFor(feed, attempts, start);
    RoundedRateAtMostFull(p.successful, p.totalAttempts);
  }

  function PerformanceMap(feeds: seq<FeedConfig>, attempts: seq<Attempt>, start: int): seq<Performance>
  {
    if feeds == [] then []
    else Assign(PerformanceMap(feeds[..|feeds| - 1], attempts, start), PerformanceFeed,
                PerformanceFor(feeds[|feeds| - 1], attempts, start))
  }

  /** The performance map has an entry for exactly the feeds' names. */
  lemma {:induction false} PerformanceMapCovers(feeds: seq<FeedConfig>, attempts: seq<Attempt>, start: int)
    ensures forall n :: n in Keys(PerformanceMap(feeds, attempts, start), PerformanceFeed) <==> HasFeed(feeds, n)
  {
    if feeds != [] {
      var init := feeds[..|feeds| - 1];
      var last := feeds[|feeds| - 1];
      PerformanceMapCovers(init, attempts, start);
      AssignKeySet(PerformanceMap(init, attempts, start), PerformanceFeed, PerformanceFor(last, attempts, start));
      assert feeds == init + [last];
      HasFeedSnoc(init, last);
    }
  }

  /** `getFeedPerformanceMetrics`, with the failure count corrected. */
  method GetFeedPerformanceMetrics(feeds: seq<FeedConfig>, attempts: seq<Attempt>, start: int)
    returns (performance: seq<Performance>)
    ensures performance == PerformanceMap(ActiveOf(feeds), attempts, start)
  {
    var active := ActiveOf(feeds);
    performance := [];
    var i := 0;
    while i < |active|
      invariant 0 <= i <= |active|
      invariant performance == PerformanceMap(active[..i], attempts, start)
    {
      assert active[..i + 1][..i] == active[..i];
      performance := Assign(performance, PerformanceFeed, PerformanceFor(active[i], attempts, start));
      i := i + 1;
    }
    assert active[..i] == active;
  }

  /** Every entry of the performance map holds consistent counts. */
  lemma {:induction false} PerformanceMapConsistent(feeds: seq<FeedConfig>, attempts: seq<Attempt>, start: int)
    ensures forall p :: p in PerformanceMap(feeds, attempts, start) ==>
      p.successful + p.failed <= p.totalAttempts && p.successRate <= 10000
  {
    if feeds != [] {
      var init := feeds[..|feeds| - 1];
      var last := feeds[|feeds| - 1];
      PerformanceMapConsistent(init, attempts, start);
      PerformanceConsistent(last, attempts, start);
      var before := PerformanceMap(init, attempts, start);
      var after := PerformanceMap(feeds, attempts, start);
      var e := PerformanceFor(last, attempts, start);
      forall p | p in after ensures p.successful + p.failed <= p.totalAttempts && p.successRate <= 10000 {
        if p != e {
          var k :| 0 <= k < |after| && after[k] == p;
          if k < |before| {
            assert before[k] in before;
          }
        }
      }
    }
  }

  // ---------------------------------------------------------------------
  // Overview

  datatype Overview = Overview(
    totalAttempts: nat, successfulPublishes: nat, failedAttempts: nat,
    issuesByRule: seq<Tally>, feedPerformance: seq<Performance>, trendingFailureReasons: seq<Tally>)

  function CountSince(attempts: seq<Attempt>, start: int, statuses: seq<AttemptStatus>): (n: nat)
    ensures n <= |attempts|
  {
    if attempts == [] then 0
    else
      var last := attempts[|attempts| - 1];
      CountSince(attempts[..|attempts| - 1], start, statuses)
        + (if last.attemptedAt >= start && forall s :: s in statuses ==> last.status == s then 1 else 0)
  }

  /** `getComplianceOverview($days)`, from `now - days` days on, with the
      corrected per-feed failure counts: the publish counts are disjoint parts
      of the total, and the performance map has one consistent entry per
      active feed. */
  function ComplianceOverview(feeds: seq<FeedConfig>, attempts: seq<Attempt>, now: int, days: int): (o: Overview)
    ensures o.successfulPublishes + o.failedAttempts <= o.totalAttempts
    ensures forall p :: p in o.feedPerformance ==>
      p.successful + p.failed <= p.totalAttempts && p.successRate <= 10000
    ensures forall n :: n in Keys(o.feedPerformance, PerformanceFeed) <==> HasFeed(ActiveOf(feeds), n)
  {
    var start := now - days * Day;
    OverviewCountsConsistent(attempts, start);
    PerformanceMapConsistent(ActiveOf(feeds), attempts, start);
    PerformanceMapCovers(ActiveOf(feeds), attempts, start);
    Overview(CountSince(attempts, start, []), CountSince(attempts, start, [Success]),
             CountSince(attempts, start, [Failed]), IssuesByRule(attempts, start),
             PerformanceMap(ActiveOf(feeds), attempts, start), TrendingFailureReasons(attempts, start))
  }

  /** Successful and failed publishes are disjoint parts of the total. */
  lemma {:induction false} OverviewCountsConsistent(attempts: seq<Attempt>, start: int)
    ensures CountSince(attempts, start, [Success]) + CountSince(attempts, start, [Failed])
            <= CountSince(attempts, start, [])
  {
    if attempts != [] {
      OverviewCountsConsistent(attempts[..|attempts| - 1], start);
      var last := attempts[|attempts| - 1];
      assert (forall s :: s in [Success] ==> last.status == s) <==> last.status == Success by {
        assert Success in [Success];
      }
      assert (forall s :: s in [Failed] ==> last.status == s) <==> last.status == Failed by {
        assert Failed in [Failed];
      }
    }
  }

  // ---------------------------------------------------------------------
  // Article compliance history

  datatype HistoryEntry = HistoryEntry(
    attemptId: nat, feedName: string, feedDisplayName: string, status: AttemptStatus,
    attemptedAt: int, completedAt: Option<int>, complianceScore: nat, passedChecks: nat,
    totalChecks: nat, externalId: Option<string>, complianceDetails: seq<CheckEntry>,
    errorDetails: ErrorDetails)

  /** `round(passed / total * 100)`: the nearest whole percent, halves up;
      0 when there are no checks. */
  function ComplianceScore(passed: nat, total: nat): (r: nat)
    ensures total == 0 ==> r == 0
    ensures total > 0 ==> 200 * passed - total < (2 * total) * r <= 200 * passed + total
  {
    if total > 0 then
      DivBounds(200 * passed + total, 2 * total);
      (200 * passed + total) / (2 * total)
    else 0
  }

  /** A score is a percentage: 100 when every check passed, 0 when none did. */
  lemma ComplianceScoreBounds(passed: nat, total: nat)
    requires passed <= total
    ensures ComplianceScore(passed, total) <= 100
    ensures total > 0 && passed == total ==> ComplianceScore(passed, total) == 100
    ensures passed == 0 ==> ComplianceScore(passed, total) == 0
  {
    var r := ComplianceScore(passed, total);
    if r > 100 {
      MulMono(2 * total, 101, r);
    }
    if total > 0 && passed == total && r < 100 {
      MulMono(2 * total, r, 99);
    }
    if total > 0 && passed == 0 && r > 0 {
      MulMono(2 * total, 1, r);
    }
  }

  function HistoryEntryOf(at: Attempt, feeds: seq<FeedConfig>): (h: HistoryEntry)
    ensures h.passedChecks <= h.totalChecks == |at.complianceResults|
    ensures h.complianceScore <= 100
    ensures h.attemptId == at.id && h.attemptedAt == at.attemptedAt
    ensures h.passedChecks == PassedCount(at.complianceResults)
    ensures h.complianceScore == ComplianceScore(h.passedChecks, h.totalChecks)
    ensures h.passedChecks == h.totalChecks ==> h.complianceScore == (if h.totalChecks == 0 then 0 else 100)
    ensures h.feedName == at.feedName && h.status == at.status && h.completedAt == at.completedAt
    ensures h.externalId == at.externalId && h.complianceDetails == at.complianceResults
    ensures h.errorDetails == at.errorDetails
    ensures h.feedDisplayName != "" || at.feedName == ""
  {
    var passed := PassedCount(at.complianceResults);
    var total := |at.complianceResults|;
    ComplianceScoreBounds(passed, total);
    var feed := Lookup(feeds, at.feedName);
    var display := if feed.Some? && feed.value.displayName != "" then feed.value.displayName else at.feedName;
    HistoryEntry(at.id, at.feedName, display, at.status, at.attemptedAt, at.completedAt,
                 ComplianceScore(passed, total), passed, total, at.externalId,
                 at.complianceResults, at.errorDetails)
  }

  /** The article's attempts, in table order. */
  function ArticleAttempts(attempts: seq<Attempt>, articleId: int): (r: seq<Attempt>)
    ensures forall at :: at in r <==> at in attempts && at.articleId == articleId
  {
    if attempts == [] then []
    else
      var last := attempts[|attempts| - 1];
      assert attempts == attempts[..|attempts| - 1] + [last];
      ArticleAttempts(attempts[..|attempts| - 1], articleId) + (if last.articleId == articleId then [last] else [])
  }

  function NegAttemptedAt(at: Attempt): int
  {
    -at.attemptedAt
  }

  /** `orderBy('attempted_at', 'desc')`. */
  function NewestFirst(attempts: seq<Attempt>, articleId: int): (r: seq<Attempt>)
    ensures multiset(r) == multiset(ArticleAttempts(attempts, articleId))
    ensures forall i, j :: 0 <= i < j < |r| ==> r[i].attemptedAt >= r[j].attemptedAt
  {
    var r := SortBy(ArticleAttempts(attempts, articleId), NegAttemptedAt);
    assert forall i, j :: 0 <= i < j < |r| ==> NegAttemptedAt(r[i]) <= NegAttemptedAt(r[j]);
    r
  }

  /** The history entries of `ats`, built front to back. */
  function HistoryEntries(ats: seq<Attempt>, feeds: seq<FeedConfig>): (r: seq<HistoryEntry>)
    ensures |r| == |ats|
    ensures forall i :: 0 <= i < |r| ==> r[i] == HistoryEntryOf(ats[i], feeds)
  {
    if ats == [] then []
    else HistoryEntries(ats[..|ats| - 1], feeds) + [HistoryEntryOf(ats[|ats| - 1], feeds)]
  }

  /** `getArticleComplianceHistory`: the loop that appends one entry per
      attempt. */
  method GetArticleComplianceHistory(attempts: seq<Attempt>, feeds: seq<FeedConfig>, articleId: int)
    returns (history: seq<HistoryEntry>)
    ensures var ordered := NewestFirst(attempts, articleId);
      && |history| == |ordered|
      && forall i :: 0 <= i < |history| ==> history[i] == HistoryEntryOf(ordered[i], feeds)
  {
    var ordered := NewestFirst(attempts, articleId);
    history := BuildHistory(ordered, feeds);
  }

  /** The loop itself: one entry per attempt, in the given order. */
  method BuildHistory(ordered: seq<Attempt>, feeds: seq<FeedConfig>) returns (history: seq<HistoryEntry>)
    ensures history == HistoryEntries(ordered, feeds)
  {
    history := [];
    var i := 0;
    while i < |ordered|
      invariant 0 <= i <= |ordered|
      invariant history == HistoryEntries(ordered[..i], feeds)
    {
      assert ordered[..i + 1][..i] == ordered[..i];
      history := history + [HistoryEntryOf(ordered[i], feeds)];
      i := i + 1;
    }
    assert ordered[..i] == ordered;
  }

  /** The history lists exactly the article's attempts, newest first. */
  lemma HistoryCoversArticle(attempts: seq<Attempt>, feeds: seq<FeedConfig>, articleId: int, at: Attempt)
    ensures at in NewestFirst(attempts, articleId) <==> at in attempts && at.articleId == articleId
  {
    var ordered := NewestFirst(attempts, articleId);
    assert at in ordered <==> at in multiset(ordered);
    assert at in ArticleAttempts(attempts, articleId) <==> at in multiset(ArticleAttempts(attempts, articleId));
  }

  // ---------------------------------------------------------------------
  // System health status

  datatype SystemMetrics = SystemMetrics(
    recentAttempts: nat, recentFailures: nat, failureRate: nat, activeRules: nat,
    recentRuleExecutions: nat, activeFeeds: nat, problematicFeeds: seq<string>)

  datatype SystemHealth = SystemHealth(overallHealth: Status, systemMetrics: SystemMetrics, recommendations: seq<Recommendation>)

  /** Completed checks logged at or after `since`. */
  function CompletedChecks(audit: seq<AuditEntry>, since: int): (n: nat)
    ensures n <= |audit|
  {
    if audit == [] then 0
    else
      CompletedChecks(audit[..|audit| - 1], since)
        + (if CountsAsExecution(audit[|audit| - 1], since) then 1 else 0)
  }

  function ActiveRuleCount(rules: seq<Rule>): (n: nat)
    ensures n <= |rules|
  {
    if rules == [] then 0
    else ActiveRuleCount(rules[..|rules| - 1]) + (if rules[|rules| - 1].isActive then 1 else 0)
  }

  /** More than half of a feed's attempts of the last day failed. */
  predicate Problematic(attempts: seq<Attempt>, feedName: string, since: int)
  {
    var tried := CountWhere(attempts, feedName, since, []);
    var failed := CountWhere(attempts, feedName, since, [Failed]);
    tried > 0 && 2 * failed > tried
  }

  /** The names of the problematic active feeds, in table order. */
  function ProblematicOf(active: seq<FeedConfig>, attempts: seq<Attempt>, since: int): (names: seq<string>)
    ensures |names| <= |active|
    ensures forall n :: n in names <==> exists f :: f in active && f.name == n && Problematic(attempts, n, since)
  {
    if active == [] then []
    else
      var f := active[|active| - 1];
      assert active == active[..|active| - 1] + [f];
      ProblematicOf(active[..|active| - 1], attempts, since) + (if Problematic(attempts, f.name, since) then [f.name] else [])
  }

  /** The loop collecting the problematic active feeds, in table order. */
  method ProblematicFeeds(active: seq<FeedConfig>, attempts: seq<Attempt>, since: int) returns (names: seq<string>)
    ensures names == ProblematicOf(active, attempts, since)
    ensures forall n :: n in names <==> exists f :: f in active && f.name == n && Problematic(attempts, n, since)
    ensures |names| <= |active|
  {
    names := [];
    var i := 0;
    while i < |active|
      invariant 0 <= i <= |active|
      invariant names == ProblematicOf(active[..i], attempts, since)
    {
      assert active[..i + 1][..i] == active[..i];
      if Problematic(attempts, active[i].name, since) {
        names := names + [active[i].name];
      }
      i := i + 1;
    }
    assert active[..i] == active;
  }

  /** The verdict of `getSystemHealthStatus`: critical when a feed is
      problematic or more than 70% of the day's attempts failed, warning
      when more than 30% failed, healthy otherwise. */
  function OverallHealth(recentAttempts: nat, recentFailures: nat, problematic: seq<string>): (s: Status)
    ensures s == Critical <==> |problematic| > 0 || (recentAttempts > 0 && 10 * recentFailures > 7 * recentAttempts)
    ensures s == Healthy <==> |problematic| == 0 && (recentAttempts == 0 || 10 * recentFailures <= 3 * recentAttempts)
  {
    var s := if recentAttempts > 0 && 10 * recentFailures > 3 * recentAttempts then Warning else Healthy;
    if |problematic| > 0 || (recentAttempts > 0 && 10 * recentFailures > 7 * recentAttempts) then Critical else s
  }

  /** The recommendation lines, one constructor per line of advice. */
  datatype Recommendation =
    | ImmediateAttention
    | ReviewRuleChanges
    | CheckFeeds(feeds: seq<string>)
    | NoChecksExecuted
    | OperatingNormally

  /** The position of each line in the advice list. */
  function Rank(r: Recommendation): nat
  {
    match r
    case ImmediateAttention => 0
    case ReviewRuleChanges => 1
    case CheckFeeds(_) => 2
    case NoChecksExecuted => 3
    case OperatingNormally => 4
  }

  /** The text each recommendation is shown as. */
  function RecommendationText(r: Recommendation): string
  {
    match r
    case ImmediateAttention => "System requires immediate attention - high failure rate detected"
    case ReviewRuleChanges => "Review recent compliance rule changes - high failure rate indicates possible issues"
    case CheckFeeds(feeds) => "Check feed configurations for: " + Join(feeds, ", ") + " - multiple failures detected"
    case NoChecksExecuted => "No compliance checks executed recently - verify system is processing articles"
    case OperatingNormally => "System operating normally - no issues detected"
  }

  /** The advice `getHealthRecommendations` gives: one line per condition
      that holds, in order, or the all-clear line when none does. */
  function Recommendations(health: Status, recentAttempts: nat, recentFailures: nat,
                           problematic: seq<string>, ruleExecutions: nat): (r: seq<Recommendation>)
    ensures |r| > 0
    ensures ImmediateAttention in r <==> health == Critical
    ensures ReviewRuleChanges in r <==> recentAttempts > 0 && 10 * recentFailures > 3 * recentAttempts
    ensures CheckFeeds(problematic) in r <==> |problematic| > 0
    ensures (forall k :: 0 <= k < |r| && r[k].CheckFeeds? ==> r[k].feeds == problematic)
    ensures NoChecksExecuted in r <==> ruleExecutions == 0
    ensures r == [OperatingNormally] <==>
      health != Critical && !(recentAttempts > 0 && 10 * recentFailures > 3 * recentAttempts)
      && |problematic| == 0 && ruleExecutions != 0
  {
    var none: seq<Recommendation> := [];
    var l1 := if health == Critical then none + [ImmediateAttention] else none;
    var l2 := if recentAttempts > 0 && 10 * recentFailures > 3 * recentAttempts then l1 + [ReviewRuleChanges] else l1;
    var l3 := if |problematic| > 0 then l2 + [CheckFeeds(problematic)] else l2;
    var l4 := if ruleExecutions == 0 then l3 + [NoChecksExecuted] else l3;
    if |l4| == 0 then l4 + [OperatingNormally] else l4
  }

  /** The lines are ranked: no line comes twice, each comes in the fixed order,
      and the all-clear line appears only when nothing else is said. */
  predicate Ranked(r: seq<Recommendation>)
  {
    forall j, k :: 0 <= j < k < |r| ==> Rank(r[j]) < Rank(r[k])
  }

  lemma RankedSnoc(l: seq<Recommendation>, x: Recommendation)
    requires Ranked(l)
    requires forall k :: 0 <= k < |l| ==> Rank(l[k]) < Rank(x)
    ensures Ranked(l + [x])
    ensures forall k :: 0 <= k < |l + [x]| ==> Rank((l + [x])[k]) <= Rank(x)
  {
  }

  lemma RankedExcludes(l: seq<Recommendation>, x: Recommendation)
    requires forall k :: 0 <= k < |l| ==> Rank(l[k]) < Rank(x)
    ensures x !in l
  {
  }

  lemma RecommendationsRanked(health: Status, recentAttempts: nat, recentFailures: nat,
                              problematic: seq<string>, ruleExecutions: nat)
    ensures Ranked(Recommendations(health, recentAttempts, recentFailures, problematic, ruleExecutions))
    ensures OperatingNormally in Recommendations(health, recentAttempts, recentFailures, problematic, ruleExecutions)
      <==> health != Critical && !(recentAttempts > 0 && 10 * recentFailures > 3 * recentAttempts)
           && |problematic| == 0 && ruleExecutions != 0
  {
    var l: seq<Recommendation> := [];
    if health == Critical {
      RankedSnoc(l, ImmediateAttention);
      l := l + [ImmediateAttention];
    }
    if recentAttempts > 0 && 10 * recentFailures > 3 * recentAttempts {
      RankedSnoc(l, ReviewRuleChanges);
      l := l + [ReviewRuleChanges];
    }
    if |problematic| > 0 {
      RankedSnoc(l, CheckFeeds(problematic));
      l := l + [CheckFeeds(problematic)];
    }
    if ruleExecutions == 0 {
      RankedSnoc(l, NoChecksExecuted);
      l := l + [NoChecksExecuted];
    }
    RankedExcludes(l, OperatingNormally);
    if |l| == 0 {
      RankedSnoc(l, OperatingNormally);
      l := l + [OperatingNormally];
    }
    assert l == Recommendations(health, recentAttempts, recentFailures, problematic, ruleExecutions);
  }

  /** `getHealthRecommendations`: appends each line whose condition holds. */
  method HealthRecommendations(health: Status, recentAttempts: nat, recentFailures: nat,
                               problematic: seq<string>, ruleExecutions: nat)
    returns (r: seq<Recommendation>)
    ensures r == Recommendations(health, recentAttempts, recentFailures, problematic, ruleExecutions)
  {
    r := [];
    if health == Critical {
      r := r + [ImmediateAttention];
    }
    if recentAttempts > 0 && 10 * recentFailures > 3 * recentAttempts {
      r := r + [ReviewRuleChanges];
    }
    if |problematic| > 0 {
      r := r + [CheckFeeds(problematic)];
    }
    if ruleExecutions == 0 {
      r := r + [NoChecksExecuted];
    }
    if |r| == 0 {
      r := r + [OperatingNormally];
    }
  }

  /** `getSystemHealthStatus`, over the last day before `now`. */
  method GetSystemHealthStatus(feeds: seq<FeedConfig>, rules: seq<Rule>, attempts: seq<Attempt>,
                               audit: seq<AuditEntry>, now: int) returns (h: SystemHealth)
    ensures var since := now - Day;
      && h.systemMetrics.recentAttempts == CountSince(attempts, since, [])
      && h.systemMetrics.recentFailures == CountSince(attempts, since, [Failed])
      && h.systemMetrics.activeFeeds == |ActiveOf(feeds)|
      && h.systemMetrics.recentRuleExecutions == CompletedChecks(audit, since)
      && (forall n :: n in h.systemMetrics.problematicFeeds <==>
            exists f :: f in feeds && f.isActive && f.name == n && Problematic(attempts, n, since))
      && h.systemMetrics.problematicFeeds == ProblematicOf(ActiveOf(feeds), attempts, since)
      && h.systemMetrics.failureRate == RoundedRate(h.systemMetrics.recentFailures, h.systemMetrics.recentAttempts)
      && h.systemMetrics.activeRules == ActiveRuleCount(rules)
      && h.overallHealth == OverallHealth(h.systemMetrics.recentAttempts, h.systemMetrics.recentFailures,
                                          h.systemMetrics.problematicFeeds)
      && h.recommendations == Recommendations(h.overallHealth, h.systemMetrics.recentAttempts,
                                              h.systemMetrics.recentFailures, h.systemMetrics.problematicFeeds,
                                              h.systemMetrics.recentRuleExecutions)
  {
    var since := now - Day;
    var recentAttempts := CountSince(attempts, since, []);
    var recentFailures := CountSince(attempts, since, [Failed]);
    var activeRules := ActiveRuleCount(rules);
    var executions := CompletedChecks(audit, since);
    var active := ActiveOf(feeds);
    var problematic := ProblematicFeeds(active, attempts, since);
    var overall := Healthy;
    if recentAttempts > 0 && 10 * recentFailures > 3 * recentAttempts {
      overall := Warning;
    }
    if |problematic| > 0 || (recentAttempts > 0 && 10 * recentFailures > 7 * recentAttempts) {
      overall := Critical;
    }
    var recommendations := HealthRecommendations(overall, recentAttempts, recentFailures, problematic, executions);
    h := SystemHealth(overall,
                      SystemMetrics(recentAttempts, recentFailures, RoundedRate(recentFailures, recentAttempts),
                                    activeRules, executions, |active|, problematic),
                      recommendations);
  }
}
