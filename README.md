# Feed compliance pipeline — a Dafny model

This project models the compliance and publishing core of a newsroom
backend. The backend checks articles against per-feed compliance rules and
then publishes them to syndication feeds: MSN, Google News and Apple News.

**The parts modelled:**

- **Validators.** Four rule validators check an article and return a pass
  or fail result with details:
  - content length: words and characters between bounds;
  - prohibited topics: a banned category, or banned keywords found
    without regard to case;
  - metadata: required fields, title length and the thumbnail URL;
  - asset attribution: the thumbnail host, image and video credits, and
    allowed image hosts.
- **Feed configuration.** A feed names the rules that apply to it. Its
  active rules are selected from the rule table and ordered by priority.
- **Compliance engine.** It runs every active rule of a feed. It records
  one result per rule, keyed by rule name. A rule whose validator class is
  unknown or throws gets a failing entry, and the run continues. The
  engine logs a start event and a completion event.
- **Compliance exception.** It carries the failed checks and derives their
  names and messages.
- **Feed registry.** It looks feeds up, lists active feeds, registers new
  feeds and updates them, and forgets cache keys as it goes. The cache is
  modelled precisely:
  - a lookup caches for zero seconds, so it never stores anything;
  - the key it reads is not the key that registration and update forget.
- **Publishing controller.** Inside one database transaction it:
  1. creates a pending attempt;
  2. checks that the feed exists and is active;
  3. runs the compliance engine;
  4. rejects the article on any failed check;
  5. otherwise validates the destination's payload and records the
     external id.

  The transaction commits on return and rolls back on any exception. So
  only successful attempts persist, while the attempt id is still
  consumed. Publishing to several feeds catches every exception per feed.
- **Queued publish job.** A compliance failure fails the job for good. Any
  other error is rethrown so the queue retries the job.
- **Compliance monitor.** Its health check looks for three things:
  - feeds with too many failures in the last hour;
  - active rules that no completed check of the last day executed;
  - feeds whose daily success rate is below 80%.

  It also formats the Slack alert and chooses which alerts to send.
- **Dashboard.** Its queries are:
  - an overview;
  - failing rules, counted and sorted;
  - the ten most frequent failure messages;
  - per-feed performance;
  - an article's attempt history with compliance scores;
  - a system-health verdict with recommendations.
- **Error formatter.** It turns failed checks into editor-facing errors:
  titles, friendlier wording, suggestions and severities. It also builds an
  editor report with a fix-time estimate.

**How the model is written:**

- Pure computations are functions. Each loop of the source is a method
  proved equal to a specification function. The stateful services are
  classes:
  - `FeedRegistry` holds the feed rows and the cache;
  - `FeedPublisher` holds the attempt table, the audit log and the id
    counter;
  - `PublishArticleJob` holds the exception the job was failed with.
- The database, the clock, URL parsing and URL validation are parameters.
  Article text facts that come from library calls (tag stripping, word
  counting, image and video extraction) are fields of the article record.
  A PHP null string is the empty string.
- Rounding is exact:
  - `round(x * 100, 2)` becomes an integer in hundredths, with halves
    rounded up;
  - ratio thresholds such as `failures / attempts > 0.3` become integer
    comparisons such as `10 f > 3 a`.

## Model

| member | source | states |
|---|---|---|
| BaseValidator.Pass | app/Validators/BaseValidator.php:19-26 | a passing result carrying the given message and details |
| BaseValidator.Fail | app/Validators/BaseValidator.php:31-38 | a failing result carrying the given message and details |
| BaseValidator.PassWithDefaults | app/Validators/BaseValidator.php:19 | `pass()` with no arguments passes with "Validation passed" and no details |
| BaseValidator.FailWithoutDetails | app/Validators/BaseValidator.php:31 | `fail($message)` fails with empty details |
| ContentLengthValidator.BoundsOf | app/Validators/ContentLengthValidator.php:13-16 | each bound missing from the parameters takes its default (300, 2000, 1500, 10000) |
| ContentLengthValidator.Check | app/Validators/ContentLengthValidator.php:11-59 | passes iff the word count and the character count both lie within their bounds, bounds included; a failure carries the fixed message |
| ContentLengthValidator.LengthIssuesPerBound | app/Validators/ContentLengthValidator.php:23-37 | each violated bound adds exactly one issue |
| ContentLengthValidator.WordMessagesDiffer | app/Validators/ContentLengthValidator.php:24-29 | the below-minimum and above-maximum word messages never coincide |
| ContentLengthValidator.CharMessagesDiffer | app/Validators/ContentLengthValidator.php:31-36 | the same for the character messages |
| ProhibitedTopicsValidator.SettingsOf | app/Validators/ProhibitedTopicsValidator.php:13-17 | the keyword and category lists default to empty; the three scan switches default to on |
| ProhibitedTopicsValidator.Matched | app/Validators/ProhibitedTopicsValidator.php:34-39 | a keyword is reported iff it is listed and its lower-cased form occurs in the lower-cased text |
| ProhibitedTopicsValidator.BuildScannedText | app/Validators/ProhibitedTopicsValidator.php:27-32 | the appends build exactly the scanned text: the enabled parts, tags only when present |
| ProhibitedTopicsValidator.FindKeywords | app/Validators/ProhibitedTopicsValidator.php:34-39 | the keyword loop computes the matched keywords in parameter order |
| ProhibitedTopicsValidator.Validate | app/Validators/ProhibitedTopicsValidator.php:11-58 | the validator returns exactly the modelled result: the category issue first, then the keyword issue |
| ProhibitedTopicsValidator.PassesIff | app/Validators/ProhibitedTopicsValidator.php:22-58 | passes iff the category is not prohibited and no keyword occurs, case-insensitively, in the scanned text |
| ProhibitedTopicsValidator.ProhibitedCategoryReported | app/Validators/ProhibitedTopicsValidator.php:22-24 | a prohibited category fails the rule, and its issue comes first |
| ProhibitedTopicsValidator.TitleKeywordFound | app/Validators/ProhibitedTopicsValidator.php:27-39 | a keyword in the title is found whatever the case, when titles are scanned |
| ProhibitedTopicsValidator.BodyKeywordFound | app/Validators/ProhibitedTopicsValidator.php:28-39 | a keyword in the body is found when bodies are scanned |
| ProhibitedTopicsValidator.NothingScanned | app/Validators/ProhibitedTopicsValidator.php:27-39 | with every switch off only the empty keyword can match |
| ProhibitedTopicsValidator.EmptyListsPass | app/Validators/ProhibitedTopicsValidator.php:13-58 | with no keywords and no categories the rule always passes |
| MetadataValidator.SettingsOf | app/Validators/MetadataValidator.php:13-16 | the required fields default to title, author and category, the title bounds to 10..100, and the thumbnail to required |
| MetadataValidator.CheckRequiredFields | app/Validators/MetadataValidator.php:21-26 | the field loop yields one issue per empty required field, in order |
| MetadataValidator.Validate | app/Validators/MetadataValidator.php:11-66 | the validator returns exactly the result of the field, title and thumbnail checks |
| MetadataValidator.MissingFieldIssueInjective | app/Validators/MetadataValidator.php:24 | different fields give different missing-field messages |
| MetadataValidator.MissingFieldReported | app/Validators/MetadataValidator.php:21-26 | a field's issue is raised iff the field is required and empty |
| MetadataValidator.TimestampsNeverMissing | app/Validators/MetadataValidator.php:21-26 | a required `created_at` or `updated_at` is never reported missing, since a date object is not empty |
| MetadataValidator.TitleWithinBounds | app/Validators/MetadataValidator.php:29-37 | no title issue iff the title is empty or its length lies within [min, max] |
| MetadataValidator.ThumbnailIssuesExact | app/Validators/MetadataValidator.php:40-47 | the missing-thumbnail issue is raised iff a thumbnail is required and absent; the invalid-URL issue iff a present URL is invalid |
| MetadataValidator.ThumbnailReported | app/Validators/MetadataValidator.php:40-47 | the same two equivalences hold on the full issue list |
| MetadataValidator.PassesIff | app/Validators/MetadataValidator.php:21-66 | passes iff every required field is filled, a non-empty title is within bounds, a required thumbnail is present and a present one is a valid URL |
| MetadataValidator.NonEmptyMissingHasField | app/Validators/MetadataValidator.php:21-26 | the first missing-field issue names a listed field |
| MetadataValidator.FailureReportsTitleLength | app/Validators/MetadataValidator.php:49-63 | a failure's details carry the title length and the rule's parameters |
| MetadataValidator.MissingFieldsStartWithR | app/Validators/MetadataValidator.php:24 | every missing-field issue begins with "R" |
| MetadataValidator.TitleIssuesShape | app/Validators/MetadataValidator.php:31-36 | every title issue begins with "Ti" (both title messages start "Title length") |
| AssetAttributionValidator.SettingsOf | app/Validators/AssetAttributionValidator.php:13-15 | both attribution switches default to on and the allowed sources to empty |
| AssetAttributionValidator.ImageIssuesAt | app/Validators/AssetAttributionValidator.php:37-55 | an image raises no issue iff it is attributed and its host is allowed |
| AssetAttributionValidator.VideoIssuesAt | app/Validators/AssetAttributionValidator.php:58-68 | a video raises no issue iff it is attributed |
| AssetAttributionValidator.Attributions | app/Validators/AssetAttributionValidator.php:77-79 | the attribution entries are exactly the metadata keys containing "_attribution", with their values |
| AssetAttributionValidator.CheckImages | app/Validators/AssetAttributionValidator.php:37-55 | the image loop computes the image issues in document order |
| AssetAttributionValidator.CheckVideos | app/Validators/AssetAttributionValidator.php:58-68 | the video loop computes the video issues in document order |
| AssetAttributionValidator.Validate | app/Validators/AssetAttributionValidator.php:11-84 | the validator returns the modelled result, or the undefined-variable error |
| AssetAttributionValidator.ImageIssuesEmpty | app/Validators/AssetAttributionValidator.php:37-55 | no image issue iff every image is attributed and from an allowed host |
| AssetAttributionValidator.ImageIssuesInclude | app/Validators/AssetAttributionValidator.php:37-55 | each image's issues appear in the loop's output |
| AssetAttributionValidator.VideoIssuesEmpty | app/Validators/AssetAttributionValidator.php:58-68 | no video issue iff every video is attributed |
| AssetAttributionValidator.VideoIssuesInclude | app/Validators/AssetAttributionValidator.php:58-68 | an unattributed video is listed |
| AssetAttributionValidator.NoIssuesIff | app/Validators/AssetAttributionValidator.php:20-68 | no issue iff the thumbnail host is allowed (when checked), every checked image is attributed and allowed, and every checked video is attributed |
| AssetAttributionValidator.PassesIff | app/Validators/AssetAttributionValidator.php:70-84 | passes iff there is no issue; a failing result is returned only when the metadata local is bound |
| AssetAttributionValidator.ImageAttributionRequired | app/Validators/AssetAttributionValidator.php:40-45 | an unattributed image is reported when images are checked |
| AssetAttributionValidator.ImageSourceChecked | app/Validators/AssetAttributionValidator.php:47-53 | an image from a host outside a non-empty allow-list is reported |
| AssetAttributionValidator.VideoAttributionRequired | app/Validators/AssetAttributionValidator.php:60-66 | an unattributed video is reported when videos are checked |
| AssetAttributionValidator.UnboundMetadataThrows | app/Validators/AssetAttributionValidator.php:20-82 | without the thumbnail branch, any checked image or video makes the rule throw, whatever the metadata holds |
| AssetAttributionValidator.ThrowsOnlyWhenUnbound | app/Validators/AssetAttributionValidator.php:21 | the rule throws only when the metadata local is unbound |
| AssetAttributionValidator.FailureDetails | app/Validators/AssetAttributionValidator.php:70-82 | failure details list the issues, the checked image and video sources and only attribution keys |
| AssetAttributionValidator.VideosIgnoredWhenNotRequired | app/Validators/AssetAttributionValidator.php:58 | with video attribution off, videos raise no issue |
| FeedConfigQueries.SelectedRules | app/Models/FeedConfig.php:41-43 | the selected rows are exactly the table's active rules named by the feed |
| FeedConfigQueries.Guidelines | app/Models/FeedConfig.php:47-50 | the guidelines are the stored configuration |
| FeedConfigQueries.ActiveRulesMembers | app/Models/FeedConfig.php:39-45 | a rule is returned iff it is in the table, named by the feed and active |
| FeedConfigQueries.ActiveRulesSorted | app/Models/FeedConfig.php:44 | rules come in ascending priority |
| FeedConfigQueries.SelectionIgnoresListOrder | app/Models/FeedConfig.php:41-43 | reordering or repeating the feed's rule names changes nothing |
| FeedConfigQueries.ActiveRulesIgnoreListOrder | app/Models/FeedConfig.php:39-45 | the same holds for the sorted result |
| FeedConfigQueries.SelectedRulesUnique | app/Models/FeedConfig.php:41-43 | a table with unique names yields unique names |
| FeedConfigQueries.ActiveRulesUnique | app/Models/FeedConfig.php:39-45 | each named active rule is returned once |
| ComplianceEngine.AvailableValidators | app/Services/ComplianceEngine.php:92-100 | four distinct validator classes |
| ComplianceEngine.CreateValidatorIff | app/Services/ComplianceEngine.php:80-87 | a validator is created iff its class is one of the available ones; otherwise the exception names the class |
| ComplianceEngine.RunRule | app/Services/ComplianceEngine.php:27-53 | the entry copies the validator's verdict, message and details, or is a failing "Validation error" entry |
| ComplianceEngine.PassedCount | app/Services/ComplianceEngine.php:64 | at most the number of entries, and equal to it iff every entry passed |
| ComplianceEngine.Execute | app/Services/ComplianceEngine.php:27-53 | one loop iteration computes the rule's entry |
| ComplianceEngine.ValidateArticle | app/Services/ComplianceEngine.php:16-75 | the result map covers the feed's active rules in priority order; the log gains the start and completion events |
| ComplianceEngine.ResultsPerRule | app/Services/ComplianceEngine.php:26-62 | with distinct names there is one entry per rule, and entry i depends on rule i alone |
| ComplianceEngine.RunRules | app/Services/ComplianceEngine.php:26-62 | the rule loop ends with the result map that assigns each rule's entry under its name, in rule order |
| ComplianceEngine.ResultKeys | app/Services/ComplianceEngine.php:31 | the map's keys are exactly the rule names |
| ComplianceEngine.ValidationCoversActiveRules | app/Services/ComplianceEngine.php:19-62 | every active rule of the feed gets exactly its own entry |
| ComplianceEngine.CompletedCounts | app/Services/ComplianceEngine.php:64-72 | the completion event reports total = passed + failed, and failed = 0 iff every entry passed |
| ComplianceExceptions.WithMessage | app/Exceptions/ComplianceException.php:12-16 | the defaults are no failed checks and code 0 |
| ComplianceExceptions.FailedCheckNames | app/Exceptions/ComplianceException.php:23-26 | the keys of the failed checks, in order |
| ComplianceExceptions.FailedCheckMessages | app/Exceptions/ComplianceException.php:28-33 | each check's message under its key, or "No message provided" |
| ComplianceExceptions.MessagesKeyedByNames | app/Exceptions/ComplianceException.php:23-33 | the message map's keys are the failed-check names |
| ComplianceExceptions.FailingEntries | app/Services/FeedPublishingController.php:62 | exactly the entries that did not pass |
| ComplianceExceptions.NoFailuresIff | app/Services/FeedPublishingController.php:62-69 | nothing failed iff every entry passed |
| ComplianceExceptions.FailingEntriesUnique | app/Services/FeedPublishingController.php:62 | filtering keeps keys unique |
| FeedRegistryService.Lookup | app/Services/FeedRegistry.php:17 | a row with that name, or none iff no row has it |
| FeedRegistryService.ActiveOf | app/Services/FeedRegistry.php:27 | exactly the active rows |
| FeedRegistryService.Patched | app/Services/FeedRegistry.php:50 | an update sets exactly the given columns |
| FeedRegistryService.UpdateRows | app/Services/FeedRegistry.php:50 | only rows with the name change |
| FeedRegistryService.InvalidationMissesReadKey | app/Services/FeedRegistry.php:16-54 | the key registration and update forget is never the key the lookup reads |
| FeedRegistryService.InvalidationKeyCollision | app/Services/FeedRegistry.php:16-39 | invalidating feed "1"+n forgets feed n's read key |
| FeedRegistryService.FeedRegistry.constructor | app/Services/FeedRegistry.php:9-10 | an empty cache over the feed rows |
| FeedRegistryService.FeedRegistry.GetFeedConfig | app/Services/FeedRegistry.php:14-19 | returns the row with that name and leaves the cache as it was (zero-second lifetime) |
| FeedRegistryService.FeedRegistry.GetActiveFeeds | app/Services/FeedRegistry.php:24-29 | returns the active rows and caches them under "active_feeds" |
| FeedRegistryService.FeedRegistry.Expire | app/Services/FeedRegistry.php:26 | an expiring cache entry is dropped and nothing else changes |
| FeedRegistryService.FeedRegistry.RegisterFeed | app/Services/FeedRegistry.php:34-43 | appends the row and forgets two keys; a duplicate name changes nothing |
| FeedRegistryService.FeedRegistry.UpdateFeed | app/Services/FeedRegistry.php:48-58 | an unknown name gives false and changes nothing; a rename onto another existing name is the unique-name error (exactly then) and changes nothing; any other update of an existing feed gives true, patches the rows and forgets the feed's key and the active-feeds key |
| FeedRegistryService.FeedRegistry.IsFeedActive | app/Services/FeedRegistry.php:63-67 | true iff an active row has that name |
| FeedRegistryService.LookupUnique | app/Services/FeedRegistry.php:17 | with unique names the found row is the only one with that name |
| FeedRegistryService.UpdateKeepsNamesUnique | app/Services/FeedRegistry.php:48-58 | an update keeps names unique |
| FeedRegistryService.RegisteredFeedIsFound | app/Services/FeedRegistry.php:34-43 | a lookup after registration finds the new row |
| FeedRegistryService.UpdatedFeedIsFound | app/Services/FeedRegistry.php:48-58 | a lookup after a matching update finds the patched row under its new name |
| FeedPublishing.FirstTerm | app/Services/FeedPublishingController.php:332-339 | the first prohibited term that occurs, or none iff no term occurs |
| FeedPublishing.MsnAcceptsIff | app/Services/FeedPublishingController.php:312-342 | MSN accepts iff the title is 1..100 characters, the content at least 300, author and category are set, and no prohibited term occurs |
| FeedPublishing.GoogleNewsVerdict | app/Services/FeedPublishingController.php:344-360 | Google News accepts iff the headline is 1..120, the body at least 200, and any image URL is valid |
| FeedPublishing.FirstBody | app/Services/FeedPublishingController.php:373-382 | none iff no component is a body |
| FeedPublishing.ValidateAppleNewsPayload | app/Services/FeedPublishingController.php:362-389 | the component loop stops at the first body component and throws the same message as the verdict function: bad title, no components, no body, or a body under 250 characters |
| FeedPublishing.AppleNewsPayloadHasBody | app/Services/FeedPublishingController.php:267-289 | the built payload always has a body: the no-components and no-body errors are unreachable |
| FeedPublishing.AppleAcceptsIff | app/Services/FeedPublishingController.php:259-294 | Apple News accepts an article iff its title is present and at most 80 characters and its plain body is present and at least 250; the title error is thrown iff the title is bad |
| FeedPublishing.PublishExternally | app/Services/FeedPublishingController.php:171-188 | the dispatch returns the destination's verdict |
| FeedPublishing.ExternalDispatch | app/Services/FeedPublishingController.php:176-187 | only MSN, MSN1, GoogleNews and AppleNews can succeed; any other name is an unknown feed type |
| FeedPublishing.Commit | app/Services/FeedPublishingController.php:30 | commit on return, roll back on throw; the id is consumed either way |
| FeedPublishing.ClosureAttemptFinished | app/Services/FeedPublishingController.php:32-143 | the attempt leaves pending, gets a completion time and an external id iff it succeeded; the start event is logged first |
| FeedPublishing.UnavailableFeedRejected | app/Services/FeedPublishingController.php:48-52 | a missing or inactive feed is a compliance failure with no checks and no rule run |
| FeedPublishing.FailedChecksReported | app/Services/FeedPublishingController.php:55-69 | results are stored on the attempt; any failing check rejects with exactly the failing entries |
| FeedPublishing.PublishedIff | app/Services/FeedPublishingController.php:28-145 | success iff the feed is active, every rule passes and the destination accepts |
| FeedPublishing.OnlySuccessCommitted | app/Services/FeedPublishingController.php:30-144 | only a successful attempt persists; any exception leaves attempts and audit log unchanged |
| FeedPublishing.PublishKeepsAttemptsWellFormed | app/Services/FeedPublishingController.php:30-144 | committed attempts stay well formed |
| FeedPublishing.ResultOf | app/Services/FeedPublishingController.php:155-161 | the attempt, or the error with its failed checks (none for other errors) |
| FeedPublishing.PublishAllCoversNames | app/Services/FeedPublishingController.php:150-166 | one entry per distinct name whatever fails; one id per call |
| FeedPublishing.FeedPublisher.constructor | app/Services/FeedPublishingController.php:19-23 | empty tables over the registry and rules |
| FeedPublishing.FeedPublisher.CheckAndPublish | app/Services/FeedPublishingController.php:55-78 | the post-check closure: results stored, engine events logged, outcome computed |
| FeedPublishing.FeedPublisher.RunClosure | app/Services/FeedPublishingController.php:30-144 | the transaction body writes the pending row and start entry, then exactly the closure's attempt and events; the feed rows and cache are unchanged |
| FeedPublishing.FeedPublisher.FinishClosure | app/Services/FeedPublishingController.php:46-143 | after the start entry: an unavailable feed rejects the attempt, an active one is checked and decided; the row and log hold exactly that |
| FeedPublishing.FeedPublisher.PublishToFeed | app/Services/FeedPublishingController.php:28-145 | the new state and outcome are the committed or rolled-back transaction |
| FeedPublishing.FeedPublisher.PublishToFeeds | app/Services/FeedPublishingController.php:150-166 | the loop equals publishing each name in turn |
| PublishJob.Classify | app/Jobs/PublishArticleJob.php:30-61 | completed iff published; failed for good iff a compliance failure; retried iff another error |
| PublishJob.RetryOnlyAfterChecksPass | app/Jobs/PublishArticleJob.php:51-60 | a retry follows only a destination error after every rule passed |
| PublishJob.DestinationErrorRetried | app/Services/FeedPublishingController.php:117-140 | an active feed whose rules all pass and whose destination errs: the attempt is marked failed with the message and code 0, `publish_error` is logged last, and the job rethrows for a retry, never failing permanently |
| PublishJob.PermanentFailureLeavesNoAttempt | app/Jobs/PublishArticleJob.php:41-49 | a permanently failed job left no attempt or audit entries |
| PublishJob.PublishArticleJob.constructor | app/Jobs/PublishArticleJob.php:24-28 | stores the article and feed name |
| PublishJob.PublishArticleJob.Handle | app/Jobs/PublishArticleJob.php:30-61 | publishes; a compliance failure marks the job failed, another error is rethrown |
| ComplianceMonitor.RecentFailures | app/Services/ComplianceMonitor.php:65-68 | at most the number of attempts |
| ComplianceMonitor.FirstFeedReported | app/Services/ComplianceMonitor.php:62-80 | only the first feed at or over the threshold is reported, with its count |
| ComplianceMonitor.ExecutedRules | app/Services/ComplianceMonitor.php:88-96 | exactly the result keys of completed checks of the last day |
| ComplianceMonitor.ActiveRuleNames | app/Services/ComplianceMonitor.php:98-100 | exactly the active rules' names |
| ComplianceMonitor.Without | app/Services/ComplianceMonitor.php:102-104 | exactly the names not executed |
| ComplianceMonitor.StaleRulesIff | app/Services/ComplianceMonitor.php:83-105 | a rule is stale iff it is active and no completed check of the last day ran it |
| ComplianceMonitor.TotalAttempts | app/Services/ComplianceMonitor.php:113-115 | at most the number of attempts |
| ComplianceMonitor.SuccessfulAttempts | app/Services/ComplianceMonitor.php:117-120 | at most the total |
| ComplianceMonitor.RoundedRate | app/Services/ComplianceMonitor.php:122 | the nearest hundredth of a percent, halves up; 0 without attempts |
| ComplianceMonitor.RoundedRateAtMostFull | app/Services/ComplianceMonitor.php:122 | never above 100.00 |
| ComplianceMonitor.LowRateIff | app/Services/ComplianceMonitor.php:46 | the rounded rate is below 80 iff 20000 s < 15999 t |
| ComplianceMonitor.MetricOf | app/Services/ComplianceMonitor.php:112-128 | successes never exceed the total; no attempts means rate 0 |
| ComplianceMonitor.GetFeedMetrics | app/Services/ComplianceMonitor.php:107-132 | the loop computes the active feeds' metrics over the last day |
| ComplianceMonitor.MetricsCoverFeeds | app/Services/ComplianceMonitor.php:112-129 | one entry per feed name, each the metric of a feed, keys unique |
| ComplianceMonitor.LowRateIssues | app/Services/ComplianceMonitor.php:45-55 | one issue per metric below 80%, and none iff all metrics are at least 80% |
| ComplianceMonitor.CheckSystemHealth | app/Services/ComplianceMonitor.php:15-58 | the issues of the three checks in order, the metrics, and the status they call for |
| ComplianceMonitor.AddLowRateIssues | app/Services/ComplianceMonitor.php:45-55 | the metric loop appends the low-rate issues and escalates the status |
| ComplianceMonitor.StatusForAppend | app/Services/ComplianceMonitor.php:25-53 | adding an issue never lowers the status |
| ComplianceMonitor.StatusIff | app/Services/ComplianceMonitor.php:15-58 | critical iff a feed is below 80%; healthy iff nothing was found |
| ComplianceMonitor.IdleFeedForcesCritical | app/Services/ComplianceMonitor.php:45-122 | an active feed with no attempts in the last day makes the system critical |
| ComplianceMonitor.FormatSlackMessage | app/Services/ComplianceMonitor.php:166-193 | the colour, title, text and timestamp of the Slack attachment |
| ComplianceMonitor.BulletsListEveryIssue | app/Services/ComplianceMonitor.php:176-181 | every issue's message is a bullet |
| ComplianceMonitor.SlackListsEveryIssue | app/Services/ComplianceMonitor.php:174-181 | the Slack text lists every issue |
| ComplianceMonitor.Alerts | app/Services/ComplianceMonitor.php:134-164 | nothing when healthy; otherwise an email iff an address is set and a Slack post iff a webhook is set |
| Dashboard.BumpAllCounts | app/Services/DashboardService.php:45 | counting keys adds each key's occurrences and keeps keys unique and counts positive |
| Dashboard.BumpEach | app/Services/DashboardService.php:98-101 | the inner loop counts every key |
| Dashboard.TallyMember | app/Services/DashboardService.php:45 | an entry (k, c) exists iff c is k's positive count |
| Dashboard.Arsort | app/Services/DashboardService.php:50 | a permutation with descending counts |
| Dashboard.IssuesTallyCounts | app/Services/DashboardService.php:40-48 | each rule's count is its number of failing entries among the failed attempts |
| Dashboard.IssuesByRuleCounts | app/Services/DashboardService.php:32-52 | (k, c) is listed iff c is k's positive failure count; counts descend |
| Dashboard.BumpFailing | app/Services/DashboardService.php:43-47 | the inner loop counts each failing entry's rule |
| Dashboard.GetComplianceIssuesByRule | app/Services/DashboardService.php:32-52 | the loops compute the sorted rule tally |
| Dashboard.Reasons | app/Services/DashboardService.php:95-99 | for a compliance error, the i-th reason is the i-th failed check's message, or "Unknown error" when it has none; no reasons otherwise |
| Dashboard.ReasonsTallyCounts | app/Services/DashboardService.php:94-102 | each message's count is its number of occurrences |
| Dashboard.TopTen | app/Services/DashboardService.php:105 | at most ten entries |
| Dashboard.TrendingKeepsTopTen | app/Services/DashboardService.php:86-106 | at most ten messages with their counts, descending; a dropped message occurs no more often than any kept one |
| Dashboard.GetTrendingFailureReasons | app/Services/DashboardService.php:86-106 | the loops compute the trending reasons |
| Dashboard.CountWhere | app/Services/DashboardService.php:60-65 | at most the number of attempts |
| Dashboard.FailedAlwaysZero | app/Services/DashboardService.php:60-65 | as written, the failure count is always 0 |
| Dashboard.FailedCountMissesFailures | app/Services/DashboardService.php:60-65 | one failed attempt: 0 as written, 1 as intended |
| Dashboard.StatusCountsDisjoint | app/Services/DashboardService.php:63-65 | successes and failures together never exceed the total |
| Dashboard.PerformanceConsistent | app/Services/DashboardService.php:73-80 | the corrected counts are consistent, and the rate is at most 100.00 and 0 without attempts |
| Dashboard.GetFeedPerformanceMetrics | app/Services/DashboardService.php:54-84 | the loop computes the active feeds' performance with corrected failure counts |
| Dashboard.PerformanceMapConsistent | app/Services/DashboardService.php:54-84 | every entry has consistent counts |
| Dashboard.PerformanceMapCovers | app/Services/DashboardService.php:56-80 | the performance map has an entry for exactly the feeds' names |
| Dashboard.CountSince | app/Services/DashboardService.php:21-25 | at most the number of attempts |
| Dashboard.OverviewCountsConsistent | app/Services/DashboardService.php:16-30 | successful plus failed never exceed the total |
| Dashboard.ComplianceOverview | app/Services/DashboardService.php:16-30 | successful plus failed publishes never exceed the total, and the feed performance (with the corrected failure counts of the Findings table) has one consistent entry per active feed |
| Dashboard.ComplianceScore | app/Services/DashboardService.php:129 | the nearest whole percent, halves up; 0 without checks |
| Dashboard.ComplianceScoreBounds | app/Services/DashboardService.php:129 | at most 100; 100 when all pass, 0 when none pass |
| Dashboard.HistoryEntryOf | app/Services/DashboardService.php:118-135 | passed is the count of passing results and total their number; the score is the rounded percentage of the two (100 when all of at least one check passed) and ≤ 100; the other attempt fields are copied; the display name falls back to the feed name |
| Dashboard.ArticleAttempts | app/Services/DashboardService.php:110 | exactly the article's attempts |
| Dashboard.NewestFirst | app/Services/DashboardService.php:110-113 | a permutation of the article's attempts, newest first |
| Dashboard.GetArticleComplianceHistory | app/Services/DashboardService.php:108-139 | one entry per attempt, newest first |
| Dashboard.BuildHistory | app/Services/DashboardService.php:115-136 | the loop yields one entry per attempt, in the given order |
| Dashboard.HistoryCoversArticle | app/Services/DashboardService.php:110-113 | the history lists exactly the article's attempts |
| Dashboard.CompletedChecks | app/Services/DashboardService.php:153-154 | at most the audit length |
| Dashboard.ActiveRuleCount | app/Services/DashboardService.php:152 | at most the number of rules |
| Dashboard.ProblematicOf | app/Services/DashboardService.php:160-171 | a feed name is listed iff an active feed of that name had more than half of the day's attempts fail; no more names than active feeds |
| Dashboard.ProblematicFeeds | app/Services/DashboardService.php:160-171 | the loop yields ProblematicOf: the active feeds where more than half of the day's attempts failed, in table order |
| Dashboard.OverallHealth | app/Services/DashboardService.php:173-179 | critical iff a feed is problematic or more than 70% failed; healthy iff no problematic feed and at most 30% failed |
| Dashboard.Recommendations | app/Services/DashboardService.php:200-226 | each line is present iff its condition holds; the advice is exactly the all-clear line iff no condition holds |
| Dashboard.RecommendationsRanked | app/Services/DashboardService.php:200-226 | the lines come in the fixed order with none repeated, and the all-clear line appears iff no condition holds |
| Dashboard.HealthRecommendations | app/Services/DashboardService.php:200-226 | the appends yield exactly the advice Recommendations gives |
| Dashboard.GetSystemHealthStatus | app/Services/DashboardService.php:141-198 | the day's attempt and failure counts, their rounded failure rate, the active rule and feed counts, the day's rule executions, the problematic active feeds as ProblematicOf lists them (table order, once per active row), the verdict for them, and the recommendations that verdict and those counts call for |
| ErrorFormatter.DisplayName | app/Services/ErrorFormatterService.php:26-36 | the four known rules get their fixed titles; any other name keeps its length, each underscore becomes a space, the first character of each word is upper-cased and every other character is kept |
| ErrorFormatter.SeverityOf | app/Services/ErrorFormatterService.php:141-151 | high iff the topics rule, low iff the attribution rule, medium otherwise |
| ErrorFormatter.ReplaceEachUnmentioned | app/Services/ErrorFormatterService.php:40-54 | a message that mentions no term is unchanged |
| ErrorFormatter.MakeUserFriendly | app/Services/ErrorFormatterService.php:38-55 | the loop applies each replacement in turn; an unmentioned message is unchanged |
| ErrorFormatter.Dedupe | app/Services/ErrorFormatterService.php:88 | the same values, each once (first-occurrence order: DedupeKeepsFirstOrder) |
| ErrorFormatter.DedupeKeepsFirstOrder | app/Services/ErrorFormatterService.php:88 | the kept values come in the order of their first occurrences; with Dedupe's two ensures this fixes the result completely |
| ErrorFormatter.LengthSuggestionLinesIff | app/Services/ErrorFormatterService.php:76-86 | each suggestion line is present iff its issue kind occurs |
| ErrorFormatter.ContentLengthSuggestionsIff | app/Services/ErrorFormatterService.php:73-89 | the "add" lines iff a shortfall, the "shorten" lines iff an excess without a shortfall, each once, nothing else |
| ErrorFormatter.GetContentLengthSuggestions | app/Services/ErrorFormatterService.php:73-89 | the loop and `array_unique` compute the suggestions |
| ErrorFormatter.ProhibitedTopicsSuggestions | app/Services/ErrorFormatterService.php:91-105 | four lines naming the keywords when some were found, otherwise two; the two general lines last |
| ErrorFormatter.MetadataSuggestionsIff | app/Services/ErrorFormatterService.php:107-129 | the suggestions are exactly those of the individual issues |
| ErrorFormatter.CaselessIgnoresCase | app/Services/ErrorFormatterService.php:113-123 | with caseless matching, case does not change an issue's suggestion |
| ErrorFormatter.ShortTitleIssueText | app/Validators/MetadataValidator.php:31-32 | the validator's short-title message for 5 under 10 |
| ErrorFormatter.CaseSensitiveMissesTitleIssue | app/Services/ErrorFormatterService.php:113-123 | as written, the short-title issue gets no suggestion; caseless, it gets the title line |
| ErrorFormatter.GetMetadataSuggestions | app/Services/ErrorFormatterService.php:107-129 | the loop with caseless matching and `array_unique` |
| ErrorFormatter.Suggestions | app/Services/ErrorFormatterService.php:57-71 | each known rule gets its own builder's lines (length issues, found keywords, metadata issues, the attribution lines), unknown rules the generic line; metadata issues are matched without regard to case, the corrected matching of the Findings table |
| ErrorFormatter.Formatted | app/Services/ErrorFormatterService.php:12-20 | the rule and its severity |
| ErrorFormatter.FormatComplianceErrors | app/Services/ErrorFormatterService.php:9-24 | one formatted error per failed check, in order, with the corrected metadata suggestions |
| ErrorFormatter.FormatCheck | app/Services/ErrorFormatterService.php:13-21 | one failed check becomes its rule, display title, friendly message, suggestions (metadata matched caselessly, as corrected) and severity |
| ErrorFormatter.SeveritiesPartition | app/Services/ErrorFormatterService.php:175-177 | the three severity counts add up to the number of errors |
| ErrorFormatter.HoursInTenths | app/Services/ErrorFormatterService.php:186 | the hours rounded to one decimal, halves up |
| ErrorFormatter.EstimateFixTime | app/Services/ErrorFormatterService.php:173-189 | "Less than 15 minutes" iff under 15; minutes below 60; hours otherwise |
| ErrorFormatter.FixMinutesBounds | app/Services/ErrorFormatterService.php:179 | between 5 and 15 minutes per error |
| ErrorFormatter.HighCountIsTopicFailures | app/Services/ErrorFormatterService.php:161 | the high-priority count is the number of topic failures |
| ErrorFormatter.GenerateEditorReport | app/Services/ErrorFormatterService.php:153-171 | the report's issues (with the corrected metadata suggestions), counts, next steps and estimate |

## Left out

- ComplianceEngine.CreateValidator: matches the four validator class names exactly. PHP class lookup ignores case and other loadable classes exist, but they are not part of this model.
- Logging through `Log::*` is left out, as is the `executed_at` time stored in each rule result (app/Services/ComplianceEngine.php:36, 52). The audit log is modelled only through the entries whose contents later code reads.
- `now()` and `time()` are one clock value passed as a parameter. Every timestamp of one call is the same value, and the ISO string formatting of dates is left out.
- `strlen` counts bytes; the model counts characters.
- `filter_var(FILTER_VALIDATE_URL)`, `parse_url`, `strip_tags` and `str_word_count` are left out. So are the regular expressions that find images and videos. Their results are inputs.
- FeedRegistryService.FeedRegistry.RegisterFeed: a duplicate name yields a fixed message standing in for the database driver's error text.
- A rule parameter of the wrong type (a non-list where a list is expected) is treated as its default. PHP would raise a type error there.
- Array keys that PHP would turn into integers (numeric strings) are not distinguished from other string keys.
- Sorting.SortBy: models `orderBy` and `arsort` as a stable sort. PHP 8 sorts, `arsort` included, are stable, so ties keep their first-seen order as in the model. The database does not promise how `orderBy` orders ties; there the model's order is one of the allowed ones.
- The order of the attribution entries in the asset failure details is left out; the map is a Dafny `map`.
- The average response time column of the dashboard (app/Services/DashboardService.php:67-71) is computed in SQL and is left out.
- Floating-point division and rounding are modelled exactly as integers. The model does not capture representation error at exact thresholds.
- Queue retry counts, back-off and the job's `$attempts` property are left out. `failed()` only writes a log line and has no model.
- Cache lifetimes are modelled only by FeedRegistryService.FeedRegistry.Expire. No clock drives them.
- ComplianceMonitor.Color: an unknown status cannot arise, so the "danger" fallback is only reached through Critical.
- The body of the alert e-mail view, and the failure of mail or HTTP calls, are left out. Those failures are only logged.
- The trace string stored with unexpected publishing errors is left out.
- ErrorFormatter.TenthsToString: PHP's float-to-string is modelled only for values with one decimal, which is all `round(..., 1)` yields.
- The external id uses the same clock value as every other timestamp of the call.
- Domain.FieldIsEmpty: the `created_at` and `updated_at` timestamps are taken to be set, as Eloquent sets them on every insert; a row whose timestamps are null is not modelled.
- Suggestions, FormatCheck, FormatComplianceErrors and GenerateEditorReport use the corrected caseless metadata matching, and ComplianceOverview the corrected per-feed failure counts, of the Findings table. The code as written is modelled by MetadataSuggestions with caseless off and by PerformanceAsWritten, and is not carried through those callers.
- ErrorFormatter.Dedupe and ErrorFormatter.GetMetadataSuggestions: `array_unique` keeps the surviving values under their original keys (app/Services/ErrorFormatterService.php:128). When a repeat is dropped from the middle, PHP's array has a key gap and JSON-encodes as an object, not a list; for example, required fields `author`, `author`, `category`, all empty, give keys 0 and 2. The model returns a re-indexed sequence with the same values in the same order, so it does not capture that change of JSON shape.
- ProhibitedTopicsValidator.Check, ProhibitedTopicsValidator.Validate and AssetAttributionValidator.HostAllowed: `in_array` compares loosely (app/Validators/ProhibitedTopicsValidator.php:22; app/Validators/AssetAttributionValidator.php:30, 50). In PHP 8, two numeric strings compare as numbers, so a category "01" is caught by a listed "1". The model's category and host membership tests compare strings exactly, so numeric-string equivalence is not captured.
- FeedPublishing.Commit: keeps the attempt id consumed after a rollback, as an auto-increment sequence does in MySQL and PostgreSQL; on SQLite a rolled-back insert gives its id back, so there the next attempt may reuse it, which the model does not capture.

## Findings

| source | as written | input that shows it | evidently intended | confidence | as-written member | corrected member |
|---|---|---|---|---|---|---|
| app/Services/DashboardService.php:60-65 | the query builder that counted successes is reused to count failures, so the failure query requires status `success` and `failed` at once | one attempt on the feed with status `failed`: the dashboard reports 0 failures | count attempts with status `failed` on their own | high, not executed | Dashboard.FailedCountMissesFailures | Dashboard.PerformanceConsistent |
| app/Services/ErrorFormatterService.php:113-123 | `strpos` is case-sensitive, but the validator's messages spell "Title" and "Thumbnail" with capitals | the issue "Title length (5) is below minimum (10)": no suggestion is produced | match the words without regard to case | high, not executed | ErrorFormatter.CaseSensitiveMissesTitleIssue | ErrorFormatter.GetMetadataSuggestions |
