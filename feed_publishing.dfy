/** Publishing an article to feeds: the attempt record moves from `pending`
    to `success` or `failed` inside one database transaction, which commits
    when the closure returns and is rolled back when it throws; the external
    publish step validates a destination-specific payload. */
module FeedPublishing {
  import opened Text
  import opened Domain
  import opened OrderedMaps
  import opened FeedConfigQueries
  import opened ComplianceEngine
  import opened ComplianceExceptions
  import opened FeedRegistryService

  // ---------------------------------------------------------------------
  // Destination payloads

  datatype MsnPayload = MsnPayload(
    title: string, content: string, author: string, category: string,
    thumbnail: string, metadata: map<string, string>, publishedDate: int)

  function MsnPayloadOf(a: Article, now: int): MsnPayload
  {
    MsnPayload(a.title, a.body, a.author, a.category, a.thumbnailUrl, a.metadata, now)
  }

  const MsnTitleError := "MSN API Error: Title must be present and under 100 characters"
  const MsnContentError := "MSN API Error: Content must be at least 300 characters"
  const MsnAuthorError := "MSN API Error: Author is required"
  const MsnCategoryError := "MSN API Error: Category is required"
  const ProhibitedTerms := ["violence", "explicit", "hate"]

  function MsnTermError(term: string): string
  {
    "MSN API Error: Content contains prohibited term: " + term
  }

  /** The first of `terms` that occurs in `text`. */
  function FirstTerm(text: string, terms: seq<string>): (r: Option<string>)
    ensures r.Some? ==> r.value in terms && Contains(text, r.value)
    ensures r.None? <==> forall t :: t in terms ==> !Contains(text, t)
  {
    if terms == [] then None
    else if Contains(text, terms[0]) then Some(terms[0])
    else FirstTerm(text, terms[1..])
  }

  /** `validateMsnApiPayload`: the message it throws, or `None`. */
  function MsnVerdict(p: MsnPayload): Option<string>
  {
    if Empty(p.title) || |p.title| > 100 then Some(MsnTitleError)
    else if Empty(p.content) || |p.content| < 300 then Some(MsnContentError)
    else if Empty(p.author) then Some(MsnAuthorError)
    else if Empty(p.category) then Some(MsnCategoryError)
    else
      match FirstTerm(Lower(p.title + " " + p.content), ProhibitedTerms)
      case Some(t) => Some(MsnTermError(t))
      case None => None
  }

  /** MSN accepts exactly a title of 1 to 100 characters, content of at
      least 300, an author, a category, and no prohibited term in the
      lower-cased title and content. */
  lemma MsnAcceptsIff(p: MsnPayload)
    ensures MsnVerdict(p).None? <==>
      && !Empty(p.title) && |p.title| <= 100
      && !Empty(p.content) && |p.content| >= 300
      && !Empty(p.author) && !Empty(p.category)
      && forall t :: t in ProhibitedTerms ==> !Contains(Lower(p.title + " " + p.content), t)
  {
  }

  datatype GoogleNewsPayload = GoogleNewsPayload(
    headline: string, body: string, author: string, section: string,
    imageUrl: string, publicationDate: int)

  function GoogleNewsPayloadOf(a: Article, now: int): GoogleNewsPayload
  {
    GoogleNewsPayload(a.title, a.body, a.author, a.category, a.thumbnailUrl, now)
  }

  const GoogleHeadlineError := "Google News API Error: Headline must be present and under 120 characters"
  const GoogleBodyError := "Google News API Error: Body must be at least 200 characters"
  const GoogleImageError := "Google News API Error: Invalid image URL format"

  /** `validateGoogleNewsApiPayload`: the message it throws, or `None`. */
  function GoogleNewsVerdict(p: GoogleNewsPayload, net: UrlFacts): (r: Option<string>)
    ensures r.None? <==>
      && !Empty(p.headline) && |p.headline| <= 120
      && !Empty(p.body) && |p.body| >= 200
      && (Empty(p.imageUrl) || net.isValidUrl(p.imageUrl))
  {
    if Empty(p.headline) || |p.headline| > 120 then Some(GoogleHeadlineError)
    else if Empty(p.body) || |p.body| < 200 then Some(GoogleBodyError)
    else if !Empty(p.imageUrl) && !net.isValidUrl(p.imageUrl) then Some(GoogleImageError)
    else None
  }

  /** An Apple News component: the body text, or a photo. */
  datatype Component = Body(text: string) | Photo(url: string)

  datatype AppleNewsPayload = AppleNewsPayload(
    title: string, components: seq<Component>, author: string, datePublished: int, excerpt: string)

  /** The body component, then a photo when there is a thumbnail. */
  function AppleNewsPayloadOf(a: Article, now: int): AppleNewsPayload
  {
    var excerpt := (if |a.plainBody| <= 200 then a.plainBody else a.plainBody[..200]) + "...";
    AppleNewsPayload(a.title,
                     [Body(a.plainBody)] + (if !Empty(a.thumbnailUrl) then [Photo(a.thumbnailUrl)] else []),
                     a.author, now, excerpt)
  }

  const AppleTitleError := "Apple News API Error: Title must be present and under 80 characters"
  const AppleNoComponents := "Apple News API Error: Article must have components"
  const AppleBodyTooShort := "Apple News API Error: Body component must have at least 250 characters"
  const AppleNoBody := "Apple News API Error: Article must have a body component"

  /** The text of the first body component. */
  function FirstBody(cs: seq<Component>): (r: Option<string>)
    ensures r.None? <==> forall c :: c in cs ==> !c.Body?
  {
    if cs == [] then None
    else if cs[0].Body? then Some(cs[0].text)
    else FirstBody(cs[1..])
  }

  /** `validateAppleNewsApiPayload`: the message it throws, or `None`. */
  function AppleNewsVerdict(p: AppleNewsPayload): Option<string>
  {
    if Empty(p.title) || |p.title| > 80 then Some(AppleTitleError)
    else if |p.components| == 0 then Some(AppleNoComponents)
    else
      match FirstBody(p.components)
      case None => Some(AppleNoBody)
      case Some(text) => if Empty(text) || |text| < 250 then Some(AppleBodyTooShort) else None
  }

  /** The component loop: stops at the first body component. */
  method ValidateAppleNewsPayload(p: AppleNewsPayload) returns (r: Option<string>)
    ensures r == AppleNewsVerdict(p)
  {
    if Empty(p.title) || |p.title| > 80 {
      return Some(AppleTitleError);
    }
    if |p.components| == 0 {
      return Some(AppleNoComponents);
    }
    var hasBodyComponent := false;
    var i := 0;
    while i < |p.components|
      invariant 0 <= i <= |p.components|
      invariant !hasBodyComponent
      invariant FirstBody(p.components) == FirstBody(p.components[i..])
    {
      assert p.components[i..][1..] == p.components[i + 1..];
      if p.components[i].Body? {
        hasBodyComponent := true;
        var text := p.components[i].text;
        if Empty(text) || |text| < 250 {
          return Some(AppleBodyTooShort);
        }
        break;
      }
      i := i + 1;
    }
    if !hasBodyComponent {
      return Some(AppleNoBody);
    }
    r := None;
  }

  /** The payload built for an article always has a body component first,
      so the "no components" and "no body component" rejections are
      unreachable, and the body rule reads the article's plain text. */
  lemma AppleNewsPayloadHasBody(a: Article, now: int)
    ensures var v := AppleNewsVerdict(AppleNewsPayloadOf(a, now));
      v != Some(AppleNoComponents) && v != Some(AppleNoBody)
    ensures FirstBody(AppleNewsPayloadOf(a, now).components) == Some(a.plainBody)
  {
  }

  /** Apple News accepts an article iff its title is present and at most 80
      characters long and its plain body is present and at least 250; a bad
      title is reported before a short body. */
  lemma AppleAcceptsIff(a: Article, now: int)
    ensures var v := AppleNewsVerdict(AppleNewsPayloadOf(a, now));
      && (v.None? <==> !Empty(a.title) && |a.title| <= 80 && !Empty(a.plainBody) && |a.plainBody| >= 250)
      && (v == Some(AppleTitleError) <==> Empty(a.title) || |a.title| > 80)
  {
    AppleNewsPayloadHasBody(a, now);
    assert |AppleBodyTooShort| != |AppleTitleError|;
  }

  function ExternalId(prefix: string, articleId: int, now: int): string
  {
    prefix + IntToString(articleId) + "_" + IntToString(now)
  }

  function UnknownFeed(name: string): string
  {
    "Unknown feed type: " + name
  }

  /** `publishToExternalFeed`: the external id, or the message thrown. */
  function PublishToExternalFeed(a: Article, feed: FeedConfig, net: UrlFacts, now: int): Result<string>
  {
    if feed.name == "MSN" || feed.name == "MSN1" then
      match MsnVerdict(MsnPayloadOf(a, now))
      case Some(m) => Err(m)
      case None => Ok(ExternalId("msn_article_", a.id, now))
    else if feed.name == "GoogleNews" then
      match GoogleNewsVerdict(GoogleNewsPayloadOf(a, now), net)
      case Some(m) => Err(m)
      case None => Ok(ExternalId("gn_article_", a.id, now))
    else if feed.name == "AppleNews" then
      match AppleNewsVerdict(AppleNewsPayloadOf(a, now))
      case Some(m) => Err(m)
      case None => Ok(ExternalId("an_article_", a.id, now))
    else Err(UnknownFeed(feed.name))
  }

  /** The dispatch, with the Apple News check run by its loop. */
  method PublishExternally(a: Article, feed: FeedConfig, net: UrlFacts, now: int) returns (r: Result<string>)
    ensures r == PublishToExternalFeed(a, feed, net, now)
  {
    if feed.name == "AppleNews" {
      var v := ValidateAppleNewsPayload(AppleNewsPayloadOf(a, now));
      r := if v.Some? then Err(v.value) else Ok(ExternalId("an_article_", a.id, now));
    } else {
      r := PublishToExternalFeed(a, feed, net, now);
    }
  }

  /** Only the four known destinations can succeed; any other feed name is
      an unknown feed type. */
  lemma ExternalDispatch(a: Article, feed: FeedConfig, net: UrlFacts, now: int)
    ensures feed.name !in ["MSN", "MSN1", "GoogleNews", "AppleNews"] ==>
      PublishToExternalFeed(a, feed, net, now) == Err(UnknownFeed(feed.name))
    ensures PublishToExternalFeed(a, feed, net, now).Ok? ==>
      feed.name in ["MSN", "MSN1", "GoogleNews", "AppleNews"]
  {
  }

  // ---------------------------------------------------------------------
  // The attempt state machine

  /** How `publishToFeed` ends: returning the attempt, throwing a compliance
      exception, or throwing any other exception. */
  datatype Outcome = Published(attempt: Attempt) | Rejected(exception: ComplianceException) | Errored(message: string)

  /** What the transaction closure writes before it returns or throws: the
      attempt row in its final form, and the audit entries it appended. */
  datatype Tx = Tx(attempt: Attempt, events: seq<AuditEntry>, outcome: Outcome)

  function FeedUnavailable(feedName: string): string
  {
    "Feed '" + feedName + "' is not available or inactive"
  }

  function ChecksFailed(feedName: string): string
  {
    "Article failed compliance checks for " + feedName
  }

  function PendingAttempt(a: Article, feedName: string, id: nat, now: int): Attempt
  {
    Attempt(id, a.id, feedName, Pending, [], NoError, now, None, None)
  }

  function RejectedAttempt(at: Attempt, e: ComplianceException, now: int): Attempt
  {
    at.(status := Failed, completedAt := Some(now),
        errorDetails := ComplianceError(e.message, e.failedChecks, e.code))
  }

  function ErroredAttempt(at: Attempt, message: string, now: int): Attempt
  {
    at.(status := Failed, completedAt := Some(now), errorDetails := UnexpectedError(message, 0))
  }

  function SucceededAttempt(at: Attempt, externalId: string, now: int): Attempt
  {
    at.(status := Success, completedAt := Some(now), externalId := Some(externalId))
  }

  function StartedEntry(a: Article, feedName: string, id: nat, now: int): AuditEntry
  {
    AuditEntry(AttemptStartedEvent, a.id, feedName, AttemptStarted(id, a.title), now)
  }

  function SuccessEntry(a: Article, feedName: string, id: nat, externalId: string, now: int): AuditEntry
  {
    AuditEntry(PublishSuccessEvent, a.id, feedName, PublishSucceeded(id, externalId), now)
  }

  function FailedEntry(a: Article, feedName: string, id: nat, e: ComplianceException, now: int): AuditEntry
  {
    AuditEntry(PublishFailedEvent, a.id, feedName, PublishFailed(id, e.message, e.failedChecks), now)
  }

  function PublishErrorEntry(a: Article, feedName: string, id: nat, message: string, now: int): AuditEntry
  {
    AuditEntry(PublishErrorEvent, a.id, feedName, PublishErrored(id, message), now)
  }

  /** The closure run on a feed that exists and is active, once the
      compliance results are in. */
  function AfterChecks(a: Article, feed: FeedConfig, feedName: string, results: seq<CheckEntry>,
                       net: UrlFacts, now: int, checked: Attempt): Tx
  {
    var failed := FailingEntries(results);
    if |failed| > 0 then
      var e := ComplianceException(ChecksFailed(feedName), failed, 0);
      Tx(RejectedAttempt(checked, e, now), [FailedEntry(a, feedName, checked.id, e, now)], Rejected(e))
    else
      match PublishToExternalFeed(a, feed, net, now)
      case Ok(ext) =>
        var done := SucceededAttempt(checked, ext, now);
        Tx(done, [SuccessEntry(a, feedName, checked.id, ext, now)], Published(done))
      case Err(m) =>
        Tx(ErroredAttempt(checked, m, now), [PublishErrorEntry(a, feedName, checked.id, m, now)], Errored(m))
  }

  /** What the closure writes after the pending row and its start entry:
      the feed check, then the compliance run and the decision. */
  function AfterStart(a: Article, feedName: string, feed: Option<FeedConfig>, rules: seq<Rule>,
                      net: UrlFacts, now: int, id: nat): Tx
  {
    var pending := PendingAttempt(a, feedName, id, now);
    if feed.None? || !feed.value.isActive then
      var e := WithMessage(FeedUnavailable(feedName));
      Tx(RejectedAttempt(pending, e, now), [FailedEntry(a, feedName, id, e, now)], Rejected(e))
    else
      var active := ActiveRules(feed.value, rules);
      var results := Results(a, active, net);
      var checks := [StartedEvent(a, feed.value, active, now), CompletedEvent(a, feed.value, results, now)];
      var rest := AfterChecks(a, feed.value, feedName, results, net, now, pending.(complianceResults := results));
      Tx(rest.attempt, checks + rest.events, rest.outcome)
  }

  /** The transaction closure of `publishToFeed` for attempt number `id`;
      `feed` is what the registry returns for `feedName`. */
  function Closure(a: Article, feedName: string, feed: Option<FeedConfig>, rules: seq<Rule>,
                   net: UrlFacts, now: int, id: nat): Tx
  {
    var rest := AfterStart(a, feedName, feed, rules, net, now, id);
    Tx(rest.attempt, [StartedEntry(a, feedName, id, now)] + rest.events, rest.outcome)
  }

  /** The closure is its start entry followed by what comes after it. */
  lemma ClosureOfRest(a: Article, feedName: string, feed: Option<FeedConfig>, rules: seq<Rule>,
                      net: UrlFacts, now: int, id: nat, rest: Tx, before: seq<AuditEntry>)
    requires rest == AfterStart(a, feedName, feed, rules, net, now, id)
    ensures var tx := Closure(a, feedName, feed, rules, net, now, id);
      && tx == Tx(rest.attempt, [StartedEntry(a, feedName, id, now)] + rest.events, rest.outcome)
      && before + [StartedEntry(a, feedName, id, now)] + rest.events == before + tx.events
  {
  }

  /** The rows the publisher writes: attempts, audit log, and the next
      auto-increment id, which a rollback does not give back. */
  datatype Db = Db(attempts: seq<Attempt>, audit: seq<AuditEntry>, nextId: nat)

  /** Commit on return, roll back on throw. */
  function Commit(db: Db, tx: Tx): (db': Db)
    ensures db'.nextId == db.nextId + 1
    ensures tx.outcome.Published? ==> db'.attempts == db.attempts + [tx.attempt] && db'.audit == db.audit + tx.events
    ensures !tx.outcome.Published? ==> db'.attempts == db.attempts && db'.audit == db.audit
  {
    if tx.outcome.Published? then Db(db.attempts + [tx.attempt], db.audit + tx.events, db.nextId + 1)
    else Db(db.attempts, db.audit, db.nextId + 1)
  }

  /** `publishToFeed` on database state `db` and feed rows `feeds`. */
  function Publish(db: Db, feeds: seq<FeedConfig>, rules: seq<Rule>, a: Article, feedName: string,
                   net: UrlFacts, now: int): (Db, Outcome)
  {
    var tx := Closure(a, feedName, Lookup(feeds, feedName), rules, net, now, db.nextId);
    (Commit(db, tx), tx.outcome)
  }

  /** Every attempt the closure leaves behind has left `pending`, carries a
      completion time, and has an external id exactly when it succeeded; the
      call returns normally exactly when the attempt succeeded. */
  lemma ClosureAttemptFinished(a: Article, feedName: string, feed: Option<FeedConfig>, rules: seq<Rule>,
                               net: UrlFacts, now: int, id: nat)
    ensures var tx := Closure(a, feedName, feed, rules, net, now, id);
      && WellFormedAttempt(tx.attempt)
      && tx.attempt.status != Pending
      && tx.attempt.id == id && tx.attempt.feedName == feedName && tx.attempt.attemptedAt == now
      && (tx.outcome.Published? <==> tx.attempt.status == Success)
      && (tx.outcome.Published? ==> tx.outcome.attempt == tx.attempt)
      && |tx.events| > 0 && tx.events[0] == StartedEntry(a, feedName, id, now)
  {
    if feed.Some? && feed.value.isActive {
      var results := Results(a, ActiveRules(feed.value, rules), net);
      var checked := PendingAttempt(a, feedName, id, now).(complianceResults := results);
      AfterChecksKeepsResults(a, feed.value, feedName, results, net, now, checked);
    }
  }

  /** A missing or inactive feed is a compliance failure with no failed
      checks, and no rule runs. */
  lemma UnavailableFeedRejected(a: Article, feedName: string, feed: Option<FeedConfig>, rules: seq<Rule>,
                                net: UrlFacts, now: int, id: nat)
    requires feed.None? || !feed.value.isActive
    ensures var tx := Closure(a, feedName, feed, rules, net, now, id);
      && tx.outcome == Rejected(ComplianceException(FeedUnavailable(feedName), [], 0))
      && tx.attempt.complianceResults == []
      && |tx.events| == 2 && tx.events[1].eventType == PublishFailedEvent
  {
  }

  /** With an active feed, the compliance results are stored on the attempt
      whatever happens next; if any rule failed, the exception and the
      error details carry exactly the failing entries. */
  lemma FailedChecksReported(a: Article, feedName: string, feed: FeedConfig, rules: seq<Rule>,
                             net: UrlFacts, now: int, id: nat)
    requires feed.isActive
    ensures var tx := Closure(a, feedName, Some(feed), rules, net, now, id);
      var results := Results(a, ActiveRules(feed, rules), net);
      && tx.attempt.complianceResults == results
      && (FailingEntries(results) != [] ==>
            && tx.outcome == Rejected(ComplianceException(ChecksFailed(feedName), FailingEntries(results), 0))
            && tx.attempt.errorDetails == ComplianceError(ChecksFailed(feedName), FailingEntries(results), 0)
            && tx.events[|tx.events| - 1].eventType == PublishFailedEvent)
  {
    var active := ActiveRules(feed, rules);
    var results := Results(a, active, net);
    var pending := PendingAttempt(a, feedName, id, now);
    var checked := pending.(complianceResults := results);
    var rest := AfterChecks(a, feed, feedName, results, net, now, checked);
    AfterChecksKeepsResults(a, feed, feedName, results, net, now, checked);
    var tx := Closure(a, feedName, Some(feed), rules, net, now, id);
    assert tx.attempt == rest.attempt && tx.outcome == rest.outcome;
    assert tx.events[|tx.events| - 1] == rest.events[|rest.events| - 1];
  }

  /** Whatever happens after the checks, the attempt keeps the stored
      results; failing checks end in a rejection. */
  lemma AfterChecksKeepsResults(a: Article, feed: FeedConfig, feedName: string, results: seq<CheckEntry>,
                                net: UrlFacts, now: int, checked: Attempt)
    ensures var rest := AfterChecks(a, feed, feedName, results, net, now, checked);
      && |rest.events| > 0
      && rest.attempt.complianceResults == checked.complianceResults
      && rest.attempt.id == checked.id && rest.attempt.feedName == checked.feedName
      && rest.attempt.attemptedAt == checked.attemptedAt
      && (checked.externalId.None? ==> WellFormedAttempt(rest.attempt) && rest.attempt.status != Pending)
      && (rest.outcome.Published? <==> rest.attempt.status == Success)
      && (rest.outcome.Published? ==> rest.outcome.attempt == rest.attempt)
      && (FailingEntries(results) != [] ==>
            && rest.outcome == Rejected(ComplianceException(ChecksFailed(feedName), FailingEntries(results), 0))
            && rest.attempt.errorDetails == ComplianceError(ChecksFailed(feedName), FailingEntries(results), 0)
            && rest.events[|rest.events| - 1].eventType == PublishFailedEvent)
  {
  }

  /** The publish succeeds exactly when the feed exists and is active, every
      rule passes, and the destination accepts the payload. */
  lemma PublishedIff(a: Article, feedName: string, feed: Option<FeedConfig>, rules: seq<Rule>,
                     net: UrlFacts, now: int, id: nat)
    ensures Closure(a, feedName, feed, rules, net, now, id).outcome.Published? <==>
      && feed.Some? && feed.value.isActive
      && (forall e :: e in Results(a, ActiveRules(feed.value, rules), net) ==> e.passed)
      && PublishToExternalFeed(a, feed.value, net, now).Ok?
  {
    if feed.Some? && feed.value.isActive {
      var results := Results(a, ActiveRules(feed.value, rules), net);
      if FailingEntries(results) != [] {
        assert FailingEntries(results)[0] in FailingEntries(results);
      }
    }
  }

  /** Only a successful attempt is durably recorded: on any exception the
      attempt row and all audit entries of the call are rolled back. */
  lemma OnlySuccessCommitted(db: Db, feeds: seq<FeedConfig>, rules: seq<Rule>, a: Article,
                             feedName: string, net: UrlFacts, now: int)
    ensures var (db', outcome) := Publish(db, feeds, rules, a, feedName, net, now);
      && db'.nextId == db.nextId + 1
      && (outcome.Published? ==> db'.attempts == db.attempts + [outcome.attempt]
                                 && outcome.attempt.status == Success)
      && (!outcome.Published? ==> db'.attempts == db.attempts && db'.audit == db.audit)
  {
    ClosureAttemptFinished(a, feedName, Lookup(feeds, feedName), rules, net, now, db.nextId);
  }

  /** Committed attempts are all well formed. */
  predicate AttemptsWellFormed(db: Db)
  {
    forall i :: 0 <= i < |db.attempts| ==> WellFormedAttempt(db.attempts[i])
  }

  lemma PublishKeepsAttemptsWellFormed(db: Db, feeds: seq<FeedConfig>, rules: seq<Rule>, a: Article,
                                       feedName: string, net: UrlFacts, now: int)
    requires AttemptsWellFormed(db)
    ensures AttemptsWellFormed(Publish(db, feeds, rules, a, feedName, net, now).0)
  {
    ClosureAttemptFinished(a, feedName, Lookup(feeds, feedName), rules, net, now, db.nextId);
  }

  // ---------------------------------------------------------------------
  // Fan-out

  /** A per-feed entry of `publishToFeeds`. */
  datatype PublishResult = Attempted(attempt: Attempt) | Error(message: string, failedChecks: seq<CheckEntry>)
  datatype FeedResult = FeedResult(feedName: string, result: PublishResult)

  function ResultFeed(r: FeedResult): string
  {
    r.feedName
  }

  /** The entry recorded for one feed: the attempt, or the error with the
      failed checks of a compliance failure and none otherwise. */
  function ResultOf(feedName: string, o: Outcome): (r: FeedResult)
    ensures r.feedName == feedName
    ensures o.Published? <==> r.result.Attempted?
    ensures o.Rejected? ==> r.result == Error(o.exception.message, o.exception.failedChecks)
    ensures o.Errored? ==> r.result == Error(o.message, [])
  {
    match o
    case Published(at) => FeedResult(feedName, Attempted(at))
    case Rejected(e) => FeedResult(feedName, Error(e.message, e.failedChecks))
    case Errored(m) => FeedResult(feedName, Error(m, []))
  }

  /** `publishToFeeds` over the first names of the list: the database after
      the calls and the result map. */
  function PublishAll(db: Db, feeds: seq<FeedConfig>, rules: seq<Rule>, a: Article, names: seq<string>,
                      net: UrlFacts, now: int): (Db, seq<FeedResult>)
  {
    if names == [] then (db, [])
    else
      var before := PublishAll(db, feeds, rules, a, names[..|names| - 1], net, now);
      var step := Publish(before.0, feeds, rules, a, names[|names| - 1], net, now);
      (step.0, Assign(before.1, ResultFeed, ResultOf(names[|names| - 1], step.1)))
  }

  lemma PublishAllStep(db: Db, feeds: seq<FeedConfig>, rules: seq<Rule>, a: Article, names: seq<string>,
                       i: nat, net: UrlFacts, now: int)
    requires i < |names|
    ensures var before := PublishAll(db, feeds, rules, a, names[..i], net, now);
      var step := Publish(before.0, feeds, rules, a, names[i], net, now);
      PublishAll(db, feeds, rules, a, names[..i + 1], net, now)
        == (step.0, Assign(before.1, ResultFeed, ResultOf(names[i], step.1)))
  {
    assert names[..i + 1][..i] == names[..i];
  }

  /** One entry per distinct feed name, whatever happens to each feed: a
      failing feed never stops the later ones. Each call consumes one
      attempt id. */
  lemma {:induction false} PublishAllCoversNames(db: Db, feeds: seq<FeedConfig>, rules: seq<Rule>, a: Article,
                                                 names: seq<string>, net: UrlFacts, now: int)
    ensures var (db', results) := PublishAll(db, feeds, rules, a, names, net, now);
      && (forall n :: n in Keys(results, ResultFeed) <==> n in names)
      && UniqueKeys(results, ResultFeed)
      && db'.nextId == db.nextId + |names|
  {
    if names != [] {
      var init := names[..|names| - 1];
      var last := names[|names| - 1];
      assert names == init + [last];
      PublishAllCoversNames(db, feeds, rules, a, init, net, now);
    }
  }

  // ---------------------------------------------------------------------
  // The publisher

  class FeedPublisher {
    const registry: FeedRegistry
    const rules: seq<Rule>
    var attempts: seq<Attempt>
    var audit: seq<AuditEntry>
    var nextAttemptId: nat

    function State(): Db
      reads this
    {
      Db(attempts, audit, nextAttemptId)
    }

    ghost predicate Valid()
      reads this, registry
    {
      registry.Valid()
    }

    constructor(registry: FeedRegistry, rules: seq<Rule>)
      requires registry.Valid()
      ensures Valid()
      ensures this.registry == registry && this.rules == rules
      ensures attempts == [] && audit == [] && nextAttemptId == 1
    {
      this.registry := registry;
      this.rules := rules;
      attempts := [];
      audit := [];
      nextAttemptId := 1;
    }

    /** The closure after the feed check: run the rules, store the results
        on the attempt row, then decide. `base` is the attempt table without
        the new row. */
    method CheckAndPublish(a: Article, feed: FeedConfig, feedName: string, net: UrlFacts, now: int,
                           base: seq<Attempt>, pending: Attempt) returns (rest: Tx)
      modifies this
      ensures var active := ActiveRules(feed, rules);
        var results := Results(a, active, net);
        && rest == AfterChecks(a, feed, feedName, results, net, now, pending.(complianceResults := results))
        && audit == old(audit) + [StartedEvent(a, feed, active, now), CompletedEvent(a, feed, results, now)] + rest.events
      ensures attempts == base + [rest.attempt]
      ensures nextAttemptId == old(nextAttemptId)
    {
      var results, log := ValidateArticle(a, feed, rules, net, now, audit);
      audit := log;
      var attempt := pending.(complianceResults := results);
      attempts := base + [attempt];
      var failed := FailingEntries(results);
      if |failed| > 0 {
        var e := ComplianceException(ChecksFailed(feedName), failed, 0);
        attempt := RejectedAttempt(attempt, e, now);
        attempts := base + [attempt];
        var entry := FailedEntry(a, feedName, attempt.id, e, now);
        audit := audit + [entry];
        rest := Tx(attempt, [entry], Rejected(e));
      } else {
        var ext := PublishExternally(a, feed, net, now);
        if ext.Ok? {
          attempt := SucceededAttempt(attempt, ext.value, now);
          attempts := base + [attempt];
          var entry := SuccessEntry(a, feedName, attempt.id, ext.value, now);
          audit := audit + [entry];
          rest := Tx(attempt, [entry], Published(attempt));
        } else {
          attempt := ErroredAttempt(attempt, ext.error, now);
          attempts := base + [attempt];
          var entry := PublishErrorEntry(a, feedName, attempt.id, ext.error, now);
          audit := audit + [entry];
          rest := Tx(attempt, [entry], Errored(ext.error));
        }
      }
    }

    /** The body of the transaction closure for attempt `id`: creates the
        pending row, logs the start, then does the rest. */
    method RunClosure(a: Article, feedName: string, net: UrlFacts, now: int, id: nat) returns (tx: Tx)
      requires Valid()
      modifies this, registry
      ensures Valid()
      ensures tx == Closure(a, feedName, Lookup(old(registry.feeds), feedName), rules, net, now, id)
      ensures attempts == old(attempts) + [tx.attempt] && audit == old(audit) + tx.events
      ensures nextAttemptId == old(nextAttemptId)
      ensures registry.feeds == old(registry.feeds) && registry.cache == old(registry.cache)
    {
      var base := attempts;
      var pending := PendingAttempt(a, feedName, id, now);
      attempts := base + [pending];
      var started := StartedEntry(a, feedName, id, now);
      audit := audit + [started];
      var feed := registry.GetFeedConfig(feedName);
      var rest := FinishClosure(a, feedName, feed, net, now, id, base);
      tx := Tx(rest.attempt, [started] + rest.events, rest.outcome);
      ClosureOfRest(a, feedName, feed, rules, net, now, id, rest, old(audit));
    }

    /** Reads the feed, then rejects or checks and decides. */
    method FinishClosure(a: Article, feedName: string, feed: Option<FeedConfig>, net: UrlFacts, now: int,
                         id: nat, base: seq<Attempt>) returns (rest: Tx)
      modifies this
      ensures rest == AfterStart(a, feedName, feed, rules, net, now, id)
      ensures attempts == base + [rest.attempt] && audit == old(audit) + rest.events
      ensures nextAttemptId == old(nextAttemptId)
    {
      var pending := PendingAttempt(a, feedName, id, now);
      if feed.None? || !feed.value.isActive {
        var e := WithMessage(FeedUnavailable(feedName));
        var attempt := RejectedAttempt(pending, e, now);
        attempts := base + [attempt];
        var entry := FailedEntry(a, feedName, id, e, now);
        audit := audit + [entry];
        rest := Tx(attempt, [entry], Rejected(e));
      } else {
        var after := CheckAndPublish(a, feed.value, feedName, net, now, base, pending);
        var active := ActiveRules(feed.value, rules);
        var results := Results(a, active, net);
        var checks := [StartedEvent(a, feed.value, active, now), CompletedEvent(a, feed.value, results, now)];
        rest := Tx(after.attempt, checks + after.events, after.outcome);
        assert audit == old(audit) + checks + after.events;
      }
    }

    /** `publishToFeed`: the transaction closure, then commit or rollback.
        The attempt id is drawn before the closure and never given back. */
    method PublishToFeed(a: Article, feedName: string, net: UrlFacts, now: int) returns (outcome: Outcome)
      requires Valid()
      modifies this, registry
      ensures Valid()
      ensures (State(), outcome) == Publish(old(State()), old(registry.feeds), rules, a, feedName, net, now)
      ensures registry.feeds == old(registry.feeds) && registry.cache == old(registry.cache)
    {
      // DB::transaction: remember what a rollback restores
      ghost var db := State();
      var savedAttempts := attempts;
      var savedAudit := audit;
      var id := nextAttemptId;
      nextAttemptId := nextAttemptId + 1;
      var tx := RunClosure(a, feedName, net, now, id);
      outcome := tx.outcome;
      if !outcome.Published? {
        // the closure threw: roll back its writes
        attempts := savedAttempts;
        audit := savedAudit;
      }
      assert State() == Commit(db, tx);
    }

    /** `publishToFeeds`: one publish per name, catching every exception. */
    method PublishToFeeds(a: Article, names: seq<string>, net: UrlFacts, now: int)
      returns (results: seq<FeedResult>)
      requires Valid()
      modifies this, registry
      ensures Valid()
      ensures (State(), results) == PublishAll(old(State()), old(registry.feeds), rules, a, names, net, now)
      ensures registry.feeds == old(registry.feeds) && registry.cache == old(registry.cache)
    {
      results := [];
      var i := 0;
      while i < |names|
        invariant 0 <= i <= |names|
        invariant Valid()
        invariant registry.feeds == old(registry.feeds) && registry.cache == old(registry.cache)
        invariant (State(), results) == PublishAll(old(State()), registry.feeds, rules, a, names[..i], net, now)
      {
        PublishAllStep(old(State()), registry.feeds, rules, a, names, i, net, now);
        var outcome := PublishToFeed(a, names[i], net, now);
        results := Assign(results, ResultFeed, ResultOf(names[i], outcome));
        i := i + 1;
      }
      assert names[..i] == names;
    }
  }
}
