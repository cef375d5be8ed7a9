/** System health monitoring over the attempt table, the audit log and the
    rule table: consecutive failures in the last hour, rules not executed in
    the last day, per-feed success rates over the last day, and the alert
    that a non-healthy result sends. Timestamps are seconds. */
module ComplianceMonitor {
  import opened Text
  import opened Domain
  import opened OrderedMaps
  import opened FeedRegistryService

  const DefaultFailureThreshold := 5
  const Hour := 3600
  const Day := 86400

  datatype Status = Healthy | Warning | Critical

  function StatusName(s: Status): string
  {
    match s
    case Healthy => "healthy"
    case Warning => "warning"
    case Critical => "critical"
  }

  function Rank(s: Status): nat
  {
    match s
    case Healthy => 0
    case Warning => 1
    case Critical => 2
  }

  /** One entry of `metrics`; `successRate` is in hundredths of a percent,
      the value of `round(..., 2)` times 100. */
  datatype FeedMetric = FeedMetric(feedName: string, totalAttempts: nat, successfulAttempts: nat, successRate: nat)

  function MetricFeed(m: FeedMetric): string
  {
    m.feedName
  }

  datatype HealthIssue =
    | ConsecutiveFailures(feed: string, failureCount: nat, message: string)
    | StaleRules(message: string, details: seq<string>)
    | LowSuccessRate(feed: string, successRate: nat, message: string)

  datatype Health = Health(overallStatus: Status, issues: seq<HealthIssue>, metrics: seq<FeedMetric>)

  // ---------------------------------------------------------------------
  // Consecutive failures

  /** Failed attempts on the feed at or after `since`. */
  function RecentFailures(attempts: seq<Attempt>, feedName: string, since: int): (n: nat)
    ensures n <= |attempts|
  {
    if attempts == [] then 0
    else
      var last := attempts[|attempts| - 1];
      RecentFailures(attempts[..|attempts| - 1], feedName, since)
        + (if last.feedName == feedName && last.status == Failed && last.attemptedAt >= since then 1 else 0)
  }

  function ConsecutiveIssue(feedName: string, count: nat): HealthIssue
  {
    ConsecutiveFailures(feedName, count,
      "Feed " + feedName + " has " + NatToString(count) + " consecutive failures")
  }

  /** The report for the first feed, in order, at or over the threshold. */
  function FirstOverThreshold(feeds: seq<FeedConfig>, attempts: seq<Attempt>, since: int, threshold: int)
    : (r: Option<HealthIssue>)
    ensures r.None? <==> forall i :: 0 <= i < |feeds| ==> RecentFailures(attempts, feeds[i].name, since) < threshold
    ensures r.Some? ==> r.value.ConsecutiveFailures? && r.value.failureCount >= threshold
  {
    if feeds == [] then None
    else
      var count := RecentFailures(attempts, feeds[0].name, since);
      if count >= threshold then Some(ConsecutiveIssue(feeds[0].name, count))
      else
        var r := FirstOverThreshold(feeds[1..], attempts, since, threshold);
        assert forall i :: 1 <= i < |feeds| ==> feeds[i] == feeds[1..][i - 1];
        r
  }

  /** `checkConsecutiveFailures`: active feeds in table order, last hour. */
  function CheckConsecutiveFailures(feeds: seq<FeedConfig>, attempts: seq<Attempt>, now: int, threshold: int)
    : Option<HealthIssue>
  {
    FirstOverThreshold(ActiveOf(feeds), attempts, now - Hour, threshold)
  }

  /** Only the first feed over the threshold is reported, with its count. */
  lemma {:induction false} FirstFeedReported(feeds: seq<FeedConfig>, attempts: seq<Attempt>, since: int,
                                             threshold: int, i: nat)
    requires i < |feeds|
    requires RecentFailures(attempts, feeds[i].name, since) >= threshold
    requires forall j :: 0 <= j < i ==> RecentFailures(attempts, feeds[j].name, since) < threshold
    ensures FirstOverThreshold(feeds, attempts, since, threshold)
      == Some(ConsecutiveIssue(feeds[i].name, RecentFailures(attempts, feeds[i].name, since)))
  {
    if i > 0 {
      assert RecentFailures(attempts, feeds[0].name, since) < threshold;
      assert feeds[1..][i - 1] == feeds[i];
      forall j | 0 <= j < i - 1
        ensures RecentFailures(attempts, feeds[1..][j].name, since) < threshold
      {
        assert feeds[1..][j] == feeds[j + 1];
      }
      FirstFeedReported(feeds[1..], attempts, since, threshold, i - 1);
    }
  }

  // ---------------------------------------------------------------------
  // Stale rules

  /** The result keys of a `compliance_check_completed` entry. */
  function CompletedKeys(e: AuditEntry): seq<string>
  {
    if e.context.CheckCompleted? then Keys(e.context.results, EntryRule) else []
  }

  predicate CountsAsExecution(e: AuditEntry, since: int)
  {
    e.eventType == CheckCompletedEvent && e.createdAt >= since
  }

  /** The rule names of every completed check at or after `since`. */
  function ExecutedRules(audit: seq<AuditEntry>, since: int): (r: set<string>)
    ensures forall n :: n in r <==> exists e :: e in audit && CountsAsExecution(e, since) && n in CompletedKeys(e)
  {
    if audit == [] then {}
    else
      var init := audit[..|audit| - 1];
      var last := audit[|audit| - 1];
      assert audit == init + [last];
      ExecutedRules(init, since)
        + (if CountsAsExecution(last, since) then set k | k in CompletedKeys(last) else {})
  }

  /** The names of the active rules, in table order. */
  function ActiveRuleNames(rules: seq<Rule>): (names: seq<string>)
    ensures forall n :: n in names <==> exists r :: r in rules && r.isActive && r.name == n
  {
    if rules == [] then []
    else
      var last := rules[|rules| - 1];
      assert rules == rules[..|rules| - 1] + [last];
      ActiveRuleNames(rules[..|rules| - 1]) + (if last.isActive then [last.name] else [])
  }

  /** `array_values(array_diff($names, $executed))`. */
  function Without(names: seq<string>, executed: set<string>): (r: seq<string>)
    ensures |r| <= |names|
    ensures forall n :: n in r <==> n in names && n !in executed
  {
    if names == [] then []
    else
      var last := names[|names| - 1];
      assert names == names[..|names| - 1] + [last];
      Without(names[..|names| - 1], executed) + (if last in executed then [] else [last])
  }

  /** `checkStaleRules`. */
  function CheckStaleRules(rules: seq<Rule>, audit: seq<AuditEntry>, now: int): seq<string>
  {
    Without(ActiveRuleNames(rules), ExecutedRules(audit, now - Day))
  }

  /** A rule is stale exactly when it is active and no completed check of
      the last day has a result under its name. */
  lemma StaleRulesIff(rules: seq<Rule>, audit: seq<AuditEntry>, now: int, n: string)
    ensures n in CheckStaleRules(rules, audit, now) <==>
      && (exists r :: r in rules && r.isActive && r.name == n)
      && !(exists e :: e in audit && CountsAsExecution(e, now - Day) && n in CompletedKeys(e))
  {
  }

  // ---------------------------------------------------------------------
  // Feed metrics

  function TotalAttempts(attempts: seq<Attempt>, feedName: string, since: int): (n: nat)
    ensures n <= |attempts|
  {
    if attempts == [] then 0
    else
      var last := attempts[|attempts| - 1];
      TotalAttempts(attempts[..|attempts| - 1], feedName, since)
        + (if last.feedName == feedName && last.attemptedAt >= since then 1 else 0)
  }

  function SuccessfulAttempts(attempts: seq<Attempt>, feedName: string, since: int): (n: nat)
    ensures n <= TotalAttempts(attempts, feedName, since)
  {
    if attempts == [] then 0
    else
      var last := attempts[|attempts| - 1];
      SuccessfulAttempts(attempts[..|attempts| - 1], feedName, since)
        + (if last.feedName == feedName && last.status == Success && last.attemptedAt >= since then 1 else 0)
  }

  lemma {:induction false} MulMono(a: nat, b: int, c: int)
    requires b <= c
    ensures a * b <= a * c
  {
    if a > 0 {
      MulMono(a - 1, b, c);
      assert a * b == (a - 1) * b + b && a * c == (a - 1) * c + c;
    }
  }

  lemma DivBounds(x: nat, d: nat)
    requires d > 0
    ensures d * (x / d) <= x < d * (x / d) + d
  {
  }

  /** `round(s / t * 100, 2)` in hundredths: the nearest integer to
      10000 s / t, halves rounded up; 0 when there are no attempts. */
  function RoundedRate(successful: nat, total: nat): (r: nat)
    ensures total == 0 ==> r == 0
    ensures total > 0 ==> 20000 * successful - total < (2 * total) * r <= 20000 * successful + total
  {
    if total > 0 then
      DivBounds(20000 * successful + total, 2 * total);
      (20000 * successful + total) / (2 * total)
    else 0
  }

  /** A rate never exceeds 100.00 when the successes are among the attempts. */
  lemma RoundedRateAtMostFull(successful: nat, total: nat)
    requires successful <= total
    ensures RoundedRate(successful, total) <= 10000
  {
    var r := RoundedRate(successful, total);
    if r > 10000 {
      MulMono(2 * total, 10001, r);
    }
  }

  /** The rounded rate is below 80.00 exactly when 20000 s < 15999 t: a
      true rate in [79.995, 80) rounds up to 80 and raises no issue. */
  lemma LowRateIff(successful: nat, total: nat)
    requires total > 0
    ensures RoundedRate(successful, total) < 8000 <==> 20000 * successful < 15999 * total
  {
    var r := RoundedRate(successful, total);
    if r < 8000 {
      MulMono(2 * total, r, 7999);
    } else {
      MulMono(2 * total, 8000, r);
    }
  }

  function MetricOf(feed: FeedConfig, attempts: seq<Attempt>, since: int): (m: FeedMetric)
    ensures m.feedName == feed.name && m.successfulAttempts <= m.totalAttempts
    ensures m.totalAttempts == 0 ==> m.successRate == 0
  {
    var total := TotalAttempts(attempts, feed.name, since);
    var successful := SuccessfulAttempts(attempts, feed.name, since);
    FeedMetric(feed.name, total, successful, RoundedRate(successful, total))
  }

  /** The metrics map over `feeds`, keyed by feed name. */
  function Metrics(feeds: seq<FeedConfig>, attempts: seq<Attempt>, since: int): seq<FeedMetric>
  {
    if feeds == [] then []
    else Assign(Metrics(feeds[..|feeds| - 1], attempts, since), MetricFeed,
                MetricOf(feeds[|feeds| - 1], attempts, since))
  }

  /** `getFeedMetrics`: one entry per active feed, counted over the last day. */
  method GetFeedMetrics(feeds: seq<FeedConfig>, attempts: seq<Attempt>, now: int) returns (metrics: seq<FeedMetric>)
    ensures metrics == Metrics(ActiveOf(feeds), attempts, now - Day)
  {
    var active := ActiveOf(feeds);
    var since := now - Day;
    metrics := [];
    var i := 0;
    while i < |active|
      invariant 0 <= i <= |active|
      invariant metrics == Metrics(active[..i], attempts, since)
    {
      assert active[..i + 1][..i] == active[..i];
      metrics := Assign(metrics, MetricFeed, MetricOf(active[i], attempts, since));
      i := i + 1;
    }
    assert active[..i] == active;
  }

  /** Some feed in `feeds` is named `n`. */
  predicate HasFeed(feeds: seq<FeedConfig>, n: string)
  {
    exists f :: f in feeds && f.name == n
  }

  lemma HasFeedSnoc(init: seq<FeedConfig>, last: FeedConfig)
    ensures forall n :: HasFeed(init + [last], n) <==> HasFeed(init, n) || n == last.name
  {
    forall n ensures HasFeed(init + [last], n) <==> HasFeed(init, n) || n == last.name {
      if HasFeed(init + [last], n) {
        var f :| f in init + [last] && f.name == n;
        if f != last {
          assert f in init;
        }
      }
      if n == last.name {
        assert last in init + [last];
      }
      if HasFeed(init, n) {
        var f :| f in init && f.name == n;
        assert f in init + [last];
      }
    }
  }

  lemma MetricsStep(feeds: seq<FeedConfig>, attempts: seq<Attempt>, since: int)
    requires feeds != []
    ensures var before := Metrics(feeds[..|feeds| - 1], attempts, since);
      var after := Metrics(feeds, attempts, since);
      var e := MetricOf(feeds[|feeds| - 1], attempts, since);
      && (forall n :: n in Keys(after, MetricFeed) <==> n in Keys(before, MetricFeed) || n == feeds[|feeds| - 1].name)
      && (forall m :: m in after ==> m in before || m == e)
      && (UniqueKeys(before, MetricFeed) ==> UniqueKeys(after, MetricFeed))
  {
    var before := Metrics(feeds[..|feeds| - 1], attempts, since);
    var e := MetricOf(feeds[|feeds| - 1], attempts, since);
    AssignKeySet(before, MetricFeed, e);
    AssignMembers(before, MetricFeed, e);
  }

  /** Every metric is the metric of one of the feeds, and every feed has
      one entry, keyed by its name. */
  lemma {:induction false} MetricsCoverFeeds(feeds: seq<FeedConfig>, attempts: seq<Attempt>, since: int)
    ensures forall n :: n in Keys(Metrics(feeds, attempts, since), MetricFeed) <==> HasFeed(feeds, n)
    ensures forall m :: m in Metrics(feeds, attempts, since) ==> exists f :: f in feeds && m == MetricOf(f, attempts, since)
    ensures UniqueKeys(Metrics(feeds, attempts, since), MetricFeed)
  {
    if feeds != [] {
      var init := feeds[..|feeds| - 1];
      var last := feeds[|feeds| - 1];
      assert feeds == init + [last];
      MetricsCoverFeeds(init, attempts, since);
      MetricsStep(feeds, attempts, since);
      HasFeedSnoc(init, last);
      var before := Metrics(init, attempts, since);
      var after := Metrics(feeds, attempts, since);
      forall m | m in after ensures exists f :: f in feeds && m == MetricOf(f, attempts, since) {
        if m in before {
          var f :| f in init && m == MetricOf(f, attempts, since);
          assert f in feeds;
        } else {
          assert last in feeds;
        }
      }
    }
  }

  // ---------------------------------------------------------------------
  // Overall health

  function StaleIssue(stale: seq<string>): HealthIssue
  {
    StaleRules("Some compliance rules haven't been executed recently", stale)
  }

  function LowRateIssue(m: FeedMetric): HealthIssue
  {
    LowSuccessRate(m.feedName, m.successRate, "Feed " + m.feedName + " has success rate below 80%")
  }

  /** One issue per metric below 80%, in metric order. */
  function LowRateIssues(metrics: seq<FeedMetric>): (r: seq<HealthIssue>)
    ensures forall x :: x in r ==> x.LowSuccessRate? && x.successRate < 8000
    ensures |r| == 0 <==> forall i :: 0 <= i < |metrics| ==> metrics[i].successRate >= 8000
  {
    if metrics == [] then []
    else
      var last := metrics[|metrics| - 1];
      var r := LowRateIssues(metrics[..|metrics| - 1]) + (if last.successRate < 8000 then [LowRateIssue(last)] else []);
      assert forall i :: 0 <= i < |metrics| - 1 ==> metrics[i] == metrics[..|metrics| - 1][i];
      r
  }

  /** The status the issues call for: critical with a low success rate,
      warning with any other issue, healthy with none. */
  function StatusFor(issues: seq<HealthIssue>): Status
  {
    if exists x :: x in issues && x.LowSuccessRate? then Critical
    else if |issues| > 0 then Warning
    else Healthy
  }

  /** The issues `checkSystemHealth` reports, in the order it finds them. */
  function HealthIssues(consecutive: Option<HealthIssue>, stale: seq<string>, metrics: seq<FeedMetric>)
    : seq<HealthIssue>
  {
    (if consecutive.Some? then [consecutive.value] else [])
      + (if |stale| > 0 then [StaleIssue(stale)] else [])
      + LowRateIssues(metrics)
  }

  /** `checkSystemHealth`: the three checks in order, each escalating the
      status when it finds something. */
  method CheckSystemHealth(feeds: seq<FeedConfig>, rules: seq<Rule>, attempts: seq<Attempt>,
                           audit: seq<AuditEntry>, now: int, threshold: int) returns (health: Health)
    ensures var consecutive := CheckConsecutiveFailures(feeds, attempts, now, threshold);
      var stale := CheckStaleRules(rules, audit, now);
      var metrics := Metrics(ActiveOf(feeds), attempts, now - Day);
      && health.issues == HealthIssues(consecutive, stale, metrics)
      && health.metrics == metrics
      && health.overallStatus == StatusFor(health.issues)
  {
    var status := Healthy;
    var issues: seq<HealthIssue> := [];
    var consecutive := CheckConsecutiveFailures(feeds, attempts, now, threshold);
    ghost var first: seq<HealthIssue> := if consecutive.Some? then [consecutive.value] else [];
    if consecutive.Some? {
      issues := issues + [consecutive.value];
      status := Warning;
    }
    assert issues == first;
    var stale := CheckStaleRules(rules, audit, now);
    ghost var second: seq<HealthIssue> := if |stale| > 0 then [StaleIssue(stale)] else [];
    if |stale| > 0 {
      issues := issues + [StaleIssue(stale)];
      status := Warning;
    }
    assert issues == first + second;
    StatusForWarnings(first + second);
    var metrics := GetFeedMetrics(feeds, attempts, now);
    issues, status := AddLowRateIssues(metrics, issues, status);
    assert issues == HealthIssues(consecutive, stale, metrics);
    health := Health(status, issues, metrics);
  }

  /** The loop over the feed metrics: one issue per feed below 80%, each
      setting the status to critical. */
  method AddLowRateIssues(metrics: seq<FeedMetric>, issues0: seq<HealthIssue>, status0: Status)
    returns (issues: seq<HealthIssue>, status: Status)
    requires status0 == StatusFor(issues0)
    ensures issues == issues0 + LowRateIssues(metrics)
    ensures status == StatusFor(issues)
  {
    issues, status := issues0, status0;
    var i := 0;
    while i < |metrics|
      invariant 0 <= i <= |metrics|
      invariant issues == issues0 + LowRateIssues(metrics[..i])
      invariant status == if |LowRateIssues(metrics[..i])| > 0 then Critical else status0
    {
      AppendLowRate(issues0, metrics, i);
      if metrics[i].successRate < 8000 {
        issues := issues + [LowRateIssue(metrics[i])];
        status := Critical;
      }
      i := i + 1;
    }
    assert metrics[..i] == metrics;
    StatusForLowRates(issues0, LowRateIssues(metrics));
  }

  lemma AppendLowRate(issues0: seq<HealthIssue>, metrics: seq<FeedMetric>, i: nat)
    requires i < |metrics|
    ensures metrics[i].successRate < 8000 ==>
      issues0 + LowRateIssues(metrics[..i + 1]) == issues0 + LowRateIssues(metrics[..i]) + [LowRateIssue(metrics[i])]
    ensures metrics[i].successRate >= 8000 ==>
      issues0 + LowRateIssues(metrics[..i + 1]) == issues0 + LowRateIssues(metrics[..i])
    ensures |LowRateIssues(metrics[..i + 1])| > 0 <==>
      |LowRateIssues(metrics[..i])| > 0 || metrics[i].successRate < 8000
  {
    LowRateIssuesStep(metrics, i);
  }

  /** Without low-rate issues the status is a warning exactly when
      something was found. */
  lemma StatusForWarnings(issues: seq<HealthIssue>)
    requires forall x :: x in issues ==> !x.LowSuccessRate?
    ensures StatusFor(issues) == if |issues| > 0 then Warning else Healthy
  {
  }

  /** Low-rate issues make the status critical; without them it is unchanged. */
  lemma StatusForLowRates(issues0: seq<HealthIssue>, low: seq<HealthIssue>)
    requires forall x :: x in low ==> x.LowSuccessRate?
    ensures StatusFor(issues0 + low) == if |low| > 0 then Critical else StatusFor(issues0)
  {
    if |low| > 0 {
      assert low[0] in issues0 + low;
    } else {
      assert issues0 + low == issues0;
    }
  }

  lemma LowRateIssuesStep(metrics: seq<FeedMetric>, i: nat)
    requires i < |metrics|
    ensures LowRateIssues(metrics[..i + 1])
      == LowRateIssues(metrics[..i]) + (if metrics[i].successRate < 8000 then [LowRateIssue(metrics[i])] else [])
  {
    assert metrics[..i + 1][..i] == metrics[..i];
  }

  /** Appending an issue escalates the status and never lowers it. */
  lemma StatusForAppend(issues: seq<HealthIssue>, x: HealthIssue)
    ensures StatusFor(issues + [x]) == (if x.LowSuccessRate? || StatusFor(issues) == Critical then Critical else Warning)
    ensures Rank(StatusFor(issues + [x])) >= Rank(StatusFor(issues))
  {
    assert x in issues + [x];
    if exists y :: y in issues && y.LowSuccessRate? {
      var y :| y in issues && y.LowSuccessRate?;
      assert y in issues + [x];
    }
  }

  /** The verdict: critical exactly when some active feed is below 80%,
      healthy exactly when nothing was found, warning otherwise. */
  lemma StatusIff(consecutive: Option<HealthIssue>, stale: seq<string>, metrics: seq<FeedMetric>)
    requires consecutive.Some? ==> consecutive.value.ConsecutiveFailures?
    ensures var s := StatusFor(HealthIssues(consecutive, stale, metrics));
      && (s == Critical <==> exists i :: 0 <= i < |metrics| && metrics[i].successRate < 8000)
      && (s == Healthy <==> consecutive.None? && |stale| == 0 && |LowRateIssues(metrics)| == 0)
      && (consecutive.Some? || |stale| > 0 ==> Rank(s) >= Rank(Warning))
  {
    var issues := HealthIssues(consecutive, stale, metrics);
    var low := LowRateIssues(metrics);
    if exists i :: 0 <= i < |metrics| && metrics[i].successRate < 8000 {
      assert |low| > 0;
      assert low[0] in issues;
    }
    if exists x :: x in issues && x.LowSuccessRate? {
      var x :| x in issues && x.LowSuccessRate?;
    }
    if |issues| == 0 {
      assert |low| == 0;
    }
  }

  /** An active feed with no attempts in the last day has success rate 0,
      so the system is reported critical. */
  lemma IdleFeedForcesCritical(feeds: seq<FeedConfig>, rules: seq<Rule>, attempts: seq<Attempt>,
                               audit: seq<AuditEntry>, now: int, threshold: int, feed: FeedConfig)
    requires feed in feeds && feed.isActive
    requires TotalAttempts(attempts, feed.name, now - Day) == 0
    ensures var metrics := Metrics(ActiveOf(feeds), attempts, now - Day);
      StatusFor(HealthIssues(CheckConsecutiveFailures(feeds, attempts, now, threshold),
                             CheckStaleRules(rules, audit, now), metrics)) == Critical
  {
    var active := ActiveOf(feeds);
    var metrics := Metrics(active, attempts, now - Day);
    MetricsCoverFeeds(active, attempts, now - Day);
    var keys := Keys(metrics, MetricFeed);
    assert feed.name in keys;
    var k :| 0 <= k < |keys| && keys[k] == feed.name;
    assert metrics[k] in metrics;
    var f :| f in active && metrics[k] == MetricOf(f, attempts, now - Day);
    assert f.name == feed.name;
    var consecutive := CheckConsecutiveFailures(feeds, attempts, now, threshold);
    StatusIff(consecutive, CheckStaleRules(rules, audit, now), metrics);
  }

  // ---------------------------------------------------------------------
  // Alerts

  datatype SlackMessage = SlackMessage(color: string, title: string, text: string, ts: int)

  datatype Alert = Email(to: string, subject: string) | Slack(webhook: string, message: SlackMessage)

  function Color(s: Status): (c: string)
  {
    match s
    case Healthy => "good"
    case Warning => "warning"
    case Critical => "danger"
  }

  function Bullet(x: HealthIssue): string
  {
    "• " + x.message + "\n"
  }

  /** The bullet lines of the issues, in order. */
  function Bullets(issues: seq<HealthIssue>): string
  {
    if issues == [] then "" else Bullets(issues[..|issues| - 1]) + Bullet(issues[|issues| - 1])
  }

  function SlackHeader(h: Health): string
  {
    "Feed Compliance System Status: *" + StatusName(h.overallStatus) + "*\n\n"
  }

  function SlackText(h: Health): string
  {
    SlackHeader(h) + (if |h.issues| > 0 then "*Issues Found:*\n" + Bullets(h.issues) else "")
  }

  /** `formatSlackMessage`: the text is accumulated line by line. */
  method FormatSlackMessage(h: Health, now: int) returns (m: SlackMessage)
    ensures m == SlackMessage(Color(h.overallStatus), "Feed Compliance Alert", SlackText(h), now)
  {
    var text := SlackHeader(h);
    if |h.issues| > 0 {
      text := text + "*Issues Found:*\n";
      ghost var head := text;
      var i := 0;
      while i < |h.issues|
        invariant 0 <= i <= |h.issues|
        invariant text == head + Bullets(h.issues[..i])
      {
        assert h.issues[..i + 1][..i] == h.issues[..i];
        text := text + Bullet(h.issues[i]);
        i := i + 1;
      }
      assert h.issues[..i] == h.issues;
    }
    m := SlackMessage(Color(h.overallStatus), "Feed Compliance Alert", text, now);
  }

  /** Every issue's message appears as a bullet line of the Slack text. */
  lemma {:induction false} BulletsListEveryIssue(issues: seq<HealthIssue>)
    ensures forall i :: 0 <= i < |issues| ==> Contains(Bullets(issues), Bullet(issues[i]))
  {
    if issues != [] {
      var init := issues[..|issues| - 1];
      var last := issues[|issues| - 1];
      BulletsListEveryIssue(init);
      forall i | 0 <= i < |issues| ensures Contains(Bullets(issues), Bullet(issues[i])) {
        if i < |init| {
          assert issues[i] == init[i];
          ContainsInPrefix(Bullets(init), Bullet(last), Bullet(issues[i]));
        } else {
          assert Bullet(last)[..|Bullet(last)|] == Bullet(last);
          ContainsInSuffix(Bullets(init), Bullet(last), Bullet(last));
        }
      }
    }
  }

  lemma SlackListsEveryIssue(h: Health)
    ensures forall i :: 0 <= i < |h.issues| ==> Contains(SlackText(h), Bullet(h.issues[i]))
  {
    BulletsListEveryIssue(h.issues);
    if |h.issues| > 0 {
      forall i | 0 <= i < |h.issues| ensures Contains(SlackText(h), Bullet(h.issues[i])) {
        ContainsInSuffix("*Issues Found:*\n", Bullets(h.issues), Bullet(h.issues[i]));
        ContainsInSuffix(SlackHeader(h), "*Issues Found:*\n" + Bullets(h.issues), Bullet(h.issues[i]));
      }
    }
  }

  function AlertSubject(h: Health): string
  {
    "Feed Compliance Alert - Status: " + StatusName(h.overallStatus)
  }

  /** `sendAlert`: the messages it sends, given the configured address and
      webhook (unset is ""). */
  function Alerts(h: Health, email: string, webhook: string, now: int): (r: seq<Alert>)
    ensures h.overallStatus == Healthy ==> r == []
    ensures h.overallStatus != Healthy ==>
      && (Email(email, AlertSubject(h)) in r <==> !Empty(email))
      && ((Slack(webhook, SlackMessage(Color(h.overallStatus), "Feed Compliance Alert", SlackText(h), now)) in r)
            <==> !Empty(webhook))
      && |r| <= 2
  {
    if h.overallStatus == Healthy then []
    else
      (if !Empty(email) then [Email(email, AlertSubject(h))] else [])
        + (if !Empty(webhook) then [Slack(webhook, SlackMessage(Color(h.overallStatus), "Feed Compliance Alert", SlackText(h), now))] else [])
  }
}
