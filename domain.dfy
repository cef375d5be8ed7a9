/** The records the compliance core reads and writes: articles, feed
    configurations, compliance rules, per-rule check results, publish
    attempts and audit-log entries. */
module Domain {
  import opened Text

  /** A value in a rule's free-form `parameters` array. */
  datatype Param = Int(i: int) | Bool(b: bool) | Str(s: string) | List(items: seq<string>)

  type Params = map<string, Param>

  /** `$parameters[key] ?? default` for an integer setting. */
  function IntParam(p: Params, key: string, default: int): int
  {
    if key in p && p[key].Int? then p[key].i else default
  }

  /** `$parameters[key] ?? default` used as a condition: PHP truthiness. */
  function FlagParam(p: Params, key: string, default: bool): bool
  {
    if key !in p then default
    else match p[key]
      case Bool(b) => b
      case Int(i) => i != 0
      case Str(s) => !Empty(s)
      case List(items) => |items| > 0
  }

  /** `$parameters[key] ?? default` for a list of strings. */
  function ListParam(p: Params, key: string, default: seq<string>): seq<string>
  {
    if key in p && p[key].List? then p[key].items else default
  }

  /** `filter_var($url, FILTER_VALIDATE_URL)` and `parse_url($url, PHP_URL_HOST)`,
      whose definitions live in the PHP runtime; a URL without a host has
      host "" (PHP's null, which compares loosely equal to ""). */
  datatype UrlFacts = UrlFacts(isValidUrl: string -> bool, host: string -> string)

  /** An article row. `plainBody` is `strip_tags(body)`, `wordCount` is
      `str_word_count(strip_tags(body))`, and `imageSrcs`/`videoSrcs` are the
      `src` attributes of the `<img>`/`<video>` tags of `body` in document
      order; they are computed by the PHP runtime and taken as given. A null
      column is the empty string. */
  datatype Article = Article(
    id: int,
    title: string,
    body: string,
    author: string,
    category: string,
    thumbnailUrl: string,
    metadata: map<string, string>,
    tags: seq<string>,
    status: string,
    plainBody: string,
    wordCount: nat,
    imageSrcs: seq<string>,
    videoSrcs: seq<string>)

  /** The `character_count` accessor: `strlen(strip_tags(body))`. */
  function CharacterCount(a: Article): nat
  {
    |a.plainBody|
  }

  /** `empty($article->{$field})` for a field named at run time; an attribute
      the model does not have reads as null. The two timestamps are date
      objects on every saved row, and `empty` is false for an object. */
  predicate FieldIsEmpty(a: Article, field: string)
  {
    match field
    case "id" => a.id == 0
    case "title" => Empty(a.title)
    case "body" => Empty(a.body)
    case "author" => Empty(a.author)
    case "category" => Empty(a.category)
    case "thumbnail_url" => Empty(a.thumbnailUrl)
    case "status" => Empty(a.status)
    case "metadata" => |a.metadata| == 0
    case "tags" => |a.tags| == 0
    case "word_count" => a.wordCount == 0
    case "character_count" => CharacterCount(a) == 0
    case "created_at" => false
    case "updated_at" => false
    case _ => true
  }

  /** A feed (destination) configuration row; `name` is unique. */
  datatype FeedConfig = FeedConfig(
    name: string,
    displayName: string,
    configuration: Params,
    complianceRules: seq<string>,
    isActive: bool,
    apiEndpoint: string)

  /** A compliance rule row; `name` is unique, lower `priority` runs first. */
  datatype Rule = Rule(
    name: string,
    validatorClass: string,
    parameters: Params,
    description: string,
    isActive: bool,
    priority: int)

  predicate UniqueRuleNames(rules: seq<Rule>)
  {
    forall i, j :: 0 <= i < j < |rules| ==> rules[i].name != rules[j].name
  }

  predicate UniqueFeedNames(feeds: seq<FeedConfig>)
  {
    forall i, j :: 0 <= i < j < |feeds| ==> feeds[i].name != feeds[j].name
  }

  /** The `details` array of a validator result, one shape per producer. */
  datatype Details =
    | NoDetails
    | Counts(wordCount: int, characterCount: int)
    | LengthFailure(wordCount: int, characterCount: int, minWords: int, maxWords: int,
                    minChars: int, maxChars: int, issues: seq<string>)
    | TopicsFailure(issues: seq<string>, foundKeywords: seq<string>, category: string,
                    prohibitedCategories: seq<string>, prohibitedKeywords: seq<string>)
    | MetadataFailure(issues: seq<string>, title: string, titleLength: nat, author: string,
                      category: string, thumbnailUrl: string, requirements: Params)
    | AssetFailure(issues: seq<string>, foundImages: seq<string>, foundVideos: seq<string>,
                   currentAttributions: map<string, string>)
    | Thrown(exception: string)

  /** `$details['issues'] ?? []`. */
  function IssuesOf(d: Details): seq<string>
  {
    match d
    case LengthFailure(_, _, _, _, _, _, issues) => issues
    case TopicsFailure(issues, _, _, _, _) => issues
    case MetadataFailure(issues, _, _, _, _, _, _) => issues
    case AssetFailure(issues, _, _, _) => issues
    case _ => []
  }

  /** `$details['found_keywords'] ?? []`. */
  function FoundKeywordsOf(d: Details): seq<string>
  {
    if d.TopicsFailure? then d.foundKeywords else []
  }

  /** What a validator returns: `['passed' => .., 'message' => .., 'details' => ..]`. */
  datatype CheckResult = CheckResult(passed: bool, message: string, details: Details)

  /** One entry of a compliance result map, keyed by `rule`. The message is
      optional because the stored JSON is read back by code that supplies a
      default when it is missing. */
  datatype CheckEntry = CheckEntry(rule: string, passed: bool, message: Option<string>, details: Details)

  /** The key of a result-map entry. */
  function EntryRule(e: CheckEntry): string
  {
    e.rule
  }

  datatype AttemptStatus = Pending | Success | Failed

  /** `error_details` of a publish attempt. */
  datatype ErrorDetails =
    | NoError
    | ComplianceError(message: string, failedChecks: seq<CheckEntry>, code: int)
    | UnexpectedError(message: string, code: int)

  /** A publish attempt row; times are seconds on one clock. */
  datatype Attempt = Attempt(
    id: nat,
    articleId: int,
    feedName: string,
    status: AttemptStatus,
    complianceResults: seq<CheckEntry>,
    errorDetails: ErrorDetails,
    attemptedAt: int,
    completedAt: Option<int>,
    externalId: Option<string>)

  /** The record invariant of a publish attempt: it is completed exactly when
      it has left `pending`, and has an external id exactly when it succeeded. */
  predicate WellFormedAttempt(a: Attempt)
  {
    && (a.completedAt.Some? <==> a.status != Pending)
    && (a.externalId.Some? <==> a.status == Success)
  }

  /** The `context` array of an audit-log entry, one shape per event. */
  datatype AuditContext =
    | CheckStarted(rulesCount: nat, ruleNames: seq<string>)
    | CheckCompleted(totalRules: nat, passedRules: nat, failedRules: int, results: seq<CheckEntry>)
    | AttemptStarted(attemptId: nat, articleTitle: string)
    | PublishSucceeded(attemptId: nat, externalId: string)
    | PublishFailed(attemptId: nat, error: string, failedChecks: seq<CheckEntry>)
    | PublishErrored(attemptId: nat, error: string)

  datatype AuditEntry = AuditEntry(
    eventType: string,
    articleId: int,
    feedName: string,
    context: AuditContext,
    createdAt: int)

  const CheckStartedEvent := "compliance_check_started"
  const CheckCompletedEvent := "compliance_check_completed"
  const AttemptStartedEvent := "publish_attempt_started"
  const PublishSuccessEvent := "publish_success"
  const PublishFailedEvent := "publish_failed"
  const PublishErrorEvent := "publish_error"
}
