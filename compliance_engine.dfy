/** The compliance engine: runs every active rule of a feed against an
    article, keeps one result entry per rule name, turns a rule that throws
    into a failing entry, and records a start and a completion event. */
module ComplianceEngine {
  import opened Text
  import opened Domain
  import opened OrderedMaps
  import opened FeedConfigQueries
  import ContentLengthValidator
  import ProhibitedTopicsValidator
  import MetadataValidator
  import AssetAttributionValidator

  datatype ValidatorKind = ContentLength | ProhibitedTopics | Metadata | AssetAttribution

  const ContentLengthClass := @"App\Validators\ContentLengthValidator"
  const ProhibitedTopicsClass := @"App\Validators\ProhibitedTopicsValidator"
  const MetadataClass := @"App\Validators\MetadataValidator"
  const AssetAttributionClass := @"App\Validators\AssetAttributionValidator"

  /** `getAvailableValidators`. */
  function AvailableValidators(): (names: seq<string>)
    ensures |names| == 4
    ensures forall i, j :: 0 <= i < j < |names| ==> names[i] != names[j]
  {
    [ContentLengthClass, ProhibitedTopicsClass, MetadataClass, AssetAttributionClass]
  }

  function ClassNotFound(validatorClass: string): string
  {
    "Validator class does not exist: " + validatorClass
  }

  /** `createValidator`: the class named by the rule, or the exception
      thrown for a class that does not exist. */
  function CreateValidator(validatorClass: string): Result<ValidatorKind>
  {
    if validatorClass == ContentLengthClass then Ok(ContentLength)
    else if validatorClass == ProhibitedTopicsClass then Ok(ProhibitedTopics)
    else if validatorClass == MetadataClass then Ok(Metadata)
    else if validatorClass == AssetAttributionClass then Ok(AssetAttribution)
    else Err(ClassNotFound(validatorClass))
  }

  /** Exactly the advertised validators can be created. */
  lemma CreateValidatorIff(validatorClass: string)
    ensures CreateValidator(validatorClass).Ok? <==> validatorClass in AvailableValidators()
    ensures CreateValidator(validatorClass).Err? ==>
      CreateValidator(validatorClass).error == ClassNotFound(validatorClass)
  {
  }

  /** `$validator->validate(...)`: the result, or the message of the
      exception the validator throws. */
  function RunValidator(kind: ValidatorKind, a: Article, p: Params, net: UrlFacts): Result<CheckResult>
  {
    match kind
    case ContentLength => Ok(ContentLengthValidator.Check(a, p))
    case ProhibitedTopics => Ok(ProhibitedTopicsValidator.Check(a, p))
    case Metadata => Ok(MetadataValidator.Check(a, p, net))
    case AssetAttribution => AssetAttributionValidator.Check(a, p, net)
  }

  /** The entry recorded for a rule whose validator could not be created or
      threw. */
  function ErrorEntry(rule: string, exception: string): CheckEntry
  {
    CheckEntry(rule, false, Some("Validation error: " + exception), Thrown(exception))
  }

  /** One iteration of the rule loop: the entry stored under the rule name.
      A validator result is copied; an exception becomes a failing entry. */
  function RunRule(rule: Rule, a: Article, net: UrlFacts): (e: CheckEntry)
    ensures e.rule == rule.name
    ensures CreateValidator(rule.validatorClass).Err? ==>
      e == ErrorEntry(rule.name, ClassNotFound(rule.validatorClass))
    ensures CreateValidator(rule.validatorClass).Ok? ==>
      match RunValidator(CreateValidator(rule.validatorClass).value, a, rule.parameters, net)
      case Ok(res) => e.passed == res.passed && e.message == Some(res.message) && e.details == res.details
      case Err(x) => e == ErrorEntry(rule.name, x)
  {
    match CreateValidator(rule.validatorClass)
    case Err(x) => ErrorEntry(rule.name, x)
    case Ok(kind) =>
      match RunValidator(kind, a, rule.parameters, net)
      case Err(x) => ErrorEntry(rule.name, x)
      case Ok(res) => CheckEntry(rule.name, res.passed, Some(res.message), res.details)
  }

  /** The result map after running `rules` in order. */
  function Results(a: Article, rules: seq<Rule>, net: UrlFacts): seq<CheckEntry>
  {
    if rules == [] then []
    else Assign(Results(a, rules[..|rules| - 1], net), EntryRule, RunRule(rules[|rules| - 1], a, net))
  }

  /** `collect($results)->filter(fn($r) => $r['passed'])->count()`. */
  function PassedCount(entries: seq<CheckEntry>): (n: nat)
    ensures n <= |entries|
    ensures n == |entries| <==> forall i :: 0 <= i < |entries| ==> entries[i].passed
  {
    if entries == [] then 0
    else PassedCount(entries[..|entries| - 1]) + (if entries[|entries| - 1].passed then 1 else 0)
  }

  function StartedEvent(a: Article, feed: FeedConfig, rules: seq<Rule>, now: int): AuditEntry
  {
    AuditEntry(CheckStartedEvent, a.id, feed.name,
               CheckStarted(|rules|, seq(|rules|, i requires 0 <= i < |rules| => rules[i].name)), now)
  }

  function CompletedEvent(a: Article, feed: FeedConfig, results: seq<CheckEntry>, now: int): AuditEntry
  {
    var passed := PassedCount(results);
    AuditEntry(CheckCompletedEvent, a.id, feed.name,
               CheckCompleted(|results|, passed, |results| - passed, results), now)
  }

  /** One rule: create the validator and run it, catching what it throws. */
  method Execute(rule: Rule, a: Article, net: UrlFacts) returns (e: CheckEntry)
    ensures e == RunRule(rule, a, net)
  {
    var created := CreateValidator(rule.validatorClass);
    if created.Err? {
      return ErrorEntry(rule.name, created.error);
    }
    var outcome: Result<CheckResult>;
    match created.value {
      case ContentLength =>
        outcome := Ok(ContentLengthValidator.Check(a, rule.parameters));
      case ProhibitedTopics =>
        var r := ProhibitedTopicsValidator.Validate(a, rule.parameters);
        outcome := Ok(r);
      case Metadata =>
        var r := MetadataValidator.Validate(a, rule.parameters, net);
        outcome := Ok(r);
      case AssetAttribution =>
        outcome := AssetAttributionValidator.Validate(a, rule.parameters, net);
    }
    if outcome.Err? {
      e := ErrorEntry(rule.name, outcome.error);
    } else {
      e := CheckEntry(rule.name, outcome.value.passed, Some(outcome.value.message), outcome.value.details);
    }
  }

  /** The rule loop: each rule's entry is stored under its name. */
  method RunRules(a: Article, rules: seq<Rule>, net: UrlFacts) returns (results: seq<CheckEntry>)
    ensures results == Results(a, rules, net)
  {
    results := [];
    var i := 0;
    while i < |rules|
      invariant 0 <= i <= |rules|
      invariant results == Results(a, rules[..i], net)
    {
      var e := Execute(rules[i], a, net);
      ResultsStep(a, rules, i, net);
      results := Assign(results, EntryRule, e);
      i := i + 1;
    }
    assert rules[..i] == rules;
  }

  /** `validateArticle`: logs the start event, runs the feed's active rules
      in priority order, logs the completion event, and returns the result
      map. The audit log before the call is `log`; after it, `log'`. */
  method ValidateArticle(a: Article, feed: FeedConfig, store: seq<Rule>, net: UrlFacts, now: int,
                         log: seq<AuditEntry>)
    returns (results: seq<CheckEntry>, log': seq<AuditEntry>)
    ensures results == Results(a, ActiveRules(feed, store), net)
    ensures log' == log + [StartedEvent(a, feed, ActiveRules(feed, store), now),
                           CompletedEvent(a, feed, results, now)]
  {
    var rules := ActiveRules(feed, store);
    var started := StartedEvent(a, feed, rules, now);
    results := RunRules(a, rules, net);
    var completed := CompletedEvent(a, feed, results, now);
    log' := log + [started, completed];
  }

  lemma ResultsStep(a: Article, rules: seq<Rule>, i: nat, net: UrlFacts)
    requires i < |rules|
    ensures Results(a, rules[..i + 1], net) == Assign(Results(a, rules[..i], net), EntryRule, RunRule(rules[i], a, net))
  {
    assert rules[..i + 1][..i] == rules[..i];
  }

  /** With distinct rule names, the result map has exactly one entry per
      rule, in rule order, and entry `i` is what rule `i` alone produces: a
      rule that throws affects no other rule's entry. */
  lemma {:induction false} ResultsPerRule(a: Article, rules: seq<Rule>, net: UrlFacts)
    requires UniqueRuleNames(rules)
    ensures |Results(a, rules, net)| == |rules|
    ensures forall i :: 0 <= i < |rules| ==> Results(a, rules, net)[i] == RunRule(rules[i], a, net)
  {
    if rules != [] {
      var init := rules[..|rules| - 1];
      var last := rules[|rules| - 1];
      assert UniqueRuleNames(init);
      ResultsPerRule(a, init, net);
      var before := Results(a, init, net);
      assert last.name !in Keys(before, EntryRule) by {
        forall k | 0 <= k < |before| ensures Keys(before, EntryRule)[k] != last.name {
          assert before[k].rule == init[k].name == rules[k].name;
        }
      }
    }
  }

  /** Some rule in `rules` is named `n`. */
  predicate HasRule(rules: seq<Rule>, n: string)
  {
    exists r :: r in rules && r.name == n
  }

  lemma HasRuleSnoc(init: seq<Rule>, last: Rule)
    ensures forall n :: HasRule(init + [last], n) <==> HasRule(init, n) || n == last.name
  {
    forall n ensures HasRule(init + [last], n) <==> HasRule(init, n) || n == last.name {
      if HasRule(init + [last], n) {
        var r :| r in init + [last] && r.name == n;
        if r != last {
          assert r in init;
        }
      }
      if n == last.name {
        assert last in init + [last];
      }
      if HasRule(init, n) {
        var r :| r in init && r.name == n;
        assert r in init + [last];
      }
    }
  }

  /** The keys of the result map are the rule names, whatever the rules
      return. */
  lemma {:induction false} ResultKeys(a: Article, rules: seq<Rule>, net: UrlFacts)
    ensures forall n :: n in Keys(Results(a, rules, net), EntryRule) <==> HasRule(rules, n)
  {
    if rules != [] {
      var init := rules[..|rules| - 1];
      var last := rules[|rules| - 1];
      ResultKeys(a, init, net);
      ResultKeysStep(a, rules, net);
      assert rules == init + [last];
      HasRuleSnoc(init, last);
    }
  }

  lemma ResultKeysStep(a: Article, rules: seq<Rule>, net: UrlFacts)
    requires rules != []
    ensures forall n :: n in Keys(Results(a, rules, net), EntryRule) <==>
      n in Keys(Results(a, rules[..|rules| - 1], net), EntryRule) || n == rules[|rules| - 1].name
  {
    AssignKeySet(Results(a, rules[..|rules| - 1], net), EntryRule, RunRule(rules[|rules| - 1], a, net));
  }

  /** Every active rule of the feed gets exactly one entry, in priority
      order. */
  lemma ValidationCoversActiveRules(a: Article, feed: FeedConfig, store: seq<Rule>, net: UrlFacts)
    requires UniqueRuleNames(store)
    ensures var rules := ActiveRules(feed, store);
      && |Results(a, rules, net)| == |rules|
      && forall i :: 0 <= i < |rules| ==> Results(a, rules, net)[i] == RunRule(rules[i], a, net)
  {
    ActiveRulesUnique(feed, store);
    ResultsPerRule(a, ActiveRules(feed, store), net);
  }

  /** The completion event reports consistent counts: failed = total - passed,
      and no rule failed exactly when every entry passed. */
  lemma CompletedCounts(a: Article, feed: FeedConfig, results: seq<CheckEntry>, now: int)
    ensures var c := CompletedEvent(a, feed, results, now).context;
      && c.totalRules == |results|
      && c.passedRules + c.failedRules == c.totalRules
      && 0 <= c.failedRules
      && (c.failedRules == 0 <==> forall i :: 0 <= i < |results| ==> results[i].passed)
  {
  }
}
