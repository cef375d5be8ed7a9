/** The queued job that publishes one article to one feed. A compliance
    failure fails the job for good; any other exception is rethrown so the
    queue retries the job. */
module PublishJob {
  import opened Text
  import opened Domain
  import opened FeedConfigQueries
  import opened ComplianceEngine
  import opened FeedRegistryService
  import opened ComplianceExceptions
  import opened FeedPublishing

  /** What becomes of the job after one run of `handle`. */
  datatype Verdict = Completed(attemptId: nat) | FailedPermanently(exception: ComplianceException) | Retry(message: string)

  /** The catch clauses in order: the compliance catch comes first, so a
      compliance failure never reaches the rethrowing branch. */
  function Classify(o: Outcome): (v: Verdict)
    ensures v.Completed? <==> o.Published?
    ensures v.FailedPermanently? <==> o.Rejected?
    ensures v.Retry? <==> o.Errored?
    ensures o.Published? ==> v == Completed(o.attempt.id)
    ensures o.Rejected? ==> v == FailedPermanently(o.exception)
    ensures o.Errored? ==> v == Retry(o.message)
  {
    match o
    case Published(at) => Completed(at.id)
    case Rejected(e) => FailedPermanently(e)
    case Errored(m) => Retry(m)
  }

  /** A retry only ever follows a destination error: the feed existed and
      was active and every compliance rule passed. */
  lemma RetryOnlyAfterChecksPass(db: Db, feeds: seq<FeedConfig>, rules: seq<Rule>, a: Article,
                                 feedName: string, net: UrlFacts, now: int)
    ensures var o := Publish(db, feeds, rules, a, feedName, net, now).1;
      Classify(o).Retry? ==>
        && Lookup(feeds, feedName).Some? && Lookup(feeds, feedName).value.isActive
        && FailingEntries(Results(a, ActiveRules(Lookup(feeds, feedName).value, rules), net)) == []
        && PublishToExternalFeed(a, Lookup(feeds, feedName).value, net, now).Err?
  {
  }

  /** A destination error after passing checks is the publish-error path:
      the attempt is marked failed with the message and code 0, a
      `publish_error` entry is the last one logged, and the job rethrows
      the message for the queue to retry; it is never a permanent failure. */
  lemma DestinationErrorRetried(db: Db, feeds: seq<FeedConfig>, feed: FeedConfig, rules: seq<Rule>,
                                a: Article, feedName: string, net: UrlFacts, now: int, m: string)
    ensures Lookup(feeds, feedName) == Some(feed) && feed.isActive
            && FailingEntries(Results(a, ActiveRules(feed, rules), net)) == []
            && PublishToExternalFeed(a, feed, net, now) == Err(m) ==>
      var tx := Closure(a, feedName, Some(feed), rules, net, now, db.nextId);
      && tx.outcome == Errored(m)
      && tx.attempt.status == Failed
      && tx.attempt.errorDetails == UnexpectedError(m, 0)
      && |tx.events| > 0 && tx.events[|tx.events| - 1].eventType == PublishErrorEvent
      && Classify(tx.outcome) == Retry(m)
      && Classify(Publish(db, feeds, rules, a, feedName, net, now).1) == Retry(m)
  {
    if Lookup(feeds, feedName) == Some(feed) && feed.isActive
       && FailingEntries(Results(a, ActiveRules(feed, rules), net)) == []
       && PublishToExternalFeed(a, feed, net, now) == Err(m)
    {
      var id := db.nextId;
      var results := Results(a, ActiveRules(feed, rules), net);
      var checked := PendingAttempt(a, feedName, id, now).(complianceResults := results);
      var last := AfterChecks(a, feed, feedName, results, net, now, checked);
      assert last == Tx(ErroredAttempt(checked, m, now), [PublishErrorEntry(a, feedName, id, m, now)], Errored(m));
      var rest := AfterStart(a, feedName, Some(feed), rules, net, now, id);
      assert rest.outcome == Errored(m) && rest.attempt == last.attempt;
      assert rest.events[|rest.events| - 1] == PublishErrorEntry(a, feedName, id, m, now);
      var tx := Closure(a, feedName, Some(feed), rules, net, now, id);
      assert tx.events == [StartedEntry(a, feedName, id, now)] + rest.events;
    }
  }

  /** A compliance failure the job sees is one the publisher rolled back:
      the job fails for good and nothing of the attempt is stored. */
  lemma PermanentFailureLeavesNoAttempt(db: Db, feeds: seq<FeedConfig>, rules: seq<Rule>, a: Article,
                                        feedName: string, net: UrlFacts, now: int)
    ensures var (db', o) := Publish(db, feeds, rules, a, feedName, net, now);
      Classify(o).FailedPermanently? ==> db'.attempts == db.attempts && db'.audit == db.audit
  {
    OnlySuccessCommitted(db, feeds, rules, a, feedName, net, now);
  }

  class PublishArticleJob {
    const article: Article
    const feedName: string
    /** The exception the job was marked failed with, by `$this->fail`. */
    var failedWith: Option<ComplianceException>

    constructor(article: Article, feedName: string)
      ensures this.article == article && this.feedName == feedName && failedWith == None
    {
      this.article := article;
      this.feedName := feedName;
      failedWith := None;
    }

    /** `handle`: publish, then mark the job failed on a compliance failure
        or rethrow any other exception; `thrown` is the rethrown message. */
    method Handle(publisher: FeedPublisher, net: UrlFacts, now: int) returns (thrown: Option<string>)
      requires publisher.Valid()
      modifies this, publisher, publisher.registry
      ensures publisher.Valid()
      ensures var (db, o) := Publish(old(publisher.State()), old(publisher.registry.feeds), publisher.rules,
                                     article, feedName, net, now);
        && publisher.State() == db
        && (o.Rejected? ==> failedWith == Some(o.exception) && thrown == None)
        && (o.Errored? ==> failedWith == old(failedWith) && thrown == Some(o.message))
        && (o.Published? ==> failedWith == old(failedWith) && thrown == None)
    {
      var outcome := publisher.PublishToFeed(article, feedName, net, now);
      match outcome {
        case Published(_) =>
          thrown := None;
        case Rejected(e) =>
          failedWith := Some(e);
          thrown := None;
        case Errored(m) =>
          thrown := Some(m);
      }
    }
  }
}
