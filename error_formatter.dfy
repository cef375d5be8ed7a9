/** Turning failed compliance checks into editor-facing errors: a title, a
    friendlier message, suggestions and a severity per failed rule, and a
    report with a fix-time estimate. */
module ErrorFormatter {
  import opened Text
  import opened Domain
  import MetadataValidator

  const ContentLengthRule := "content_length_check"
  const ProhibitedTopicsRule := "prohibited_topics_check"
  const MetadataRule := "metadata_validation"
  const AssetAttributionRule := "asset_attribution_check"

  datatype Severity = High | Medium | Low

  datatype FormattedError = FormattedError(
    rule: string, title: string, message: string, suggestions: seq<string>, severity: Severity)

  // ---------------------------------------------------------------------
  // Titles and severities

  /** `getRuleDisplayName`: the four known rules have fixed titles; any
      other name is shown with underscores as spaces and words capitalised. */
  function DisplayName(rule: string): (r: string)
    ensures rule == ContentLengthRule ==> r == "Content Length Requirements"
    ensures rule == ProhibitedTopicsRule ==> r == "Content Policy Compliance"
    ensures rule == MetadataRule ==> r == "Article Information Requirements"
    ensures rule == AssetAttributionRule ==> r == "Media Attribution Requirements"
    ensures rule !in {ContentLengthRule, ProhibitedTopicsRule, MetadataRule, AssetAttributionRule} ==>
      && |r| == |rule|
      && (forall i :: 0 <= i < |r| ==> r[i] != '_')
      && (forall i :: 0 <= i < |r| ==> r[i] == TitleChar(rule, i))
  {
    if rule == ContentLengthRule then "Content Length Requirements"
    else if rule == ProhibitedTopicsRule then "Content Policy Compliance"
    else if rule == MetadataRule then "Article Information Requirements"
    else if rule == AssetAttributionRule then "Media Attribution Requirements"
    else
      UnderscoreTitle(rule);
      UcWords(UnderscoresToSpaces(rule))
  }

  /** Character `i` of an unknown rule's title: an underscore becomes a
      space, the first character of each word is upper-cased, and every
      other character is kept. */
  function TitleChar(rule: string, i: nat): char
    requires i < |rule|
  {
    if rule[i] == '_' then ' '
    else if i == 0 || rule[i - 1] == '_' || WordDelimiter(rule[i - 1]) then UpperChar(rule[i])
    else rule[i]
  }

  lemma UnderscoreTitle(rule: string)
    ensures var r := UcWords(UnderscoresToSpaces(rule));
      && |r| == |rule|
      && (forall i :: 0 <= i < |r| ==> r[i] != '_')
      && (forall i :: 0 <= i < |r| ==> r[i] == TitleChar(rule, i))
  {
    var u := UnderscoresToSpaces(rule);
    var r := UcWords(u);
    forall i | 0 <= i < |r|
      ensures r[i] == TitleChar(rule, i) && r[i] != '_'
    {
      if i > 0 {
        assert u[i - 1] == if rule[i - 1] == '_' then ' ' else rule[i - 1];
      }
    }
  }

  /** `getRuleSeverity`: only the topics rule is high and only the
      attribution rule is low; every other name, known or not, is medium. */
  function SeverityOf(rule: string): (s: Severity)
    ensures s == High <==> rule == ProhibitedTopicsRule
    ensures s == Low <==> rule == AssetAttributionRule
    ensures s == Medium <==> rule != ProhibitedTopicsRule && rule != AssetAttributionRule
  {
    if rule == ProhibitedTopicsRule then High
    else if rule == MetadataRule || rule == ContentLengthRule then Medium
    else if rule == AssetAttributionRule then Low
    else Medium
  }

  // ---------------------------------------------------------------------
  // Friendly messages

  datatype Replacement = Replacement(technical: string, friendly: string)

  /** The replacements, applied one after another in this order. */
  const FriendlyTerms := [
    Replacement("Word count", "Article length"),
    Replacement("Character count", "Article length"),
    Replacement("prohibited keywords", "content that violates our guidelines"),
    Replacement("metadata", "required article information"),
    Replacement("thumbnail", "featured image"),
    Replacement("attribution", "image credits")]

  predicate Searchable(rs: seq<Replacement>)
  {
    forall i :: 0 <= i < |rs| ==> rs[i].technical != ""
  }

  /** `str_ireplace` of each replacement in turn, each on the previous result. */
  function ReplaceEach(message: string, rs: seq<Replacement>): string
    requires Searchable(rs)
  {
    if rs == [] then message
    else
      var last := rs[|rs| - 1];
      IReplace(ReplaceEach(message, rs[..|rs| - 1]), last.technical, last.friendly)
  }

  /** A message that mentions none of the technical terms, in any case, is
      shown unchanged. */
  lemma {:induction false} ReplaceEachUnmentioned(message: string, rs: seq<Replacement>)
    requires Searchable(rs)
    requires forall i :: 0 <= i < |rs| ==> !IContains(message, rs[i].technical)
    ensures ReplaceEach(message, rs) == message
  {
    if rs != [] {
      ReplaceEachUnmentioned(message, rs[..|rs| - 1]);
      IReplaceNoMatch(message, rs[|rs| - 1].technical, rs[|rs| - 1].friendly);
    }
  }

  /** `makeUserFriendly`: the loop over the replacement table. */
  method MakeUserFriendly(message: string) returns (r: string)
    ensures r == ReplaceEach(message, FriendlyTerms)
    ensures (forall i :: 0 <= i < |FriendlyTerms| ==> !IContains(message, FriendlyTerms[i].technical)) ==> r == message
  {
    r := message;
    var i := 0;
    while i < |FriendlyTerms|
      invariant 0 <= i <= |FriendlyTerms|
      invariant r == ReplaceEach(message, FriendlyTerms[..i])
    {
      assert FriendlyTerms[..i + 1][..i] == FriendlyTerms[..i];
      r := IReplace(r, FriendlyTerms[i].technical, FriendlyTerms[i].friendly);
      i := i + 1;
    }
    assert FriendlyTerms[..i] == FriendlyTerms;
    if forall k :: 0 <= k < |FriendlyTerms| ==> !IContains(message, FriendlyTerms[k].technical) {
      ReplaceEachUnmentioned(message, FriendlyTerms);
    }
  }

  // ---------------------------------------------------------------------
  // `array_unique`

  /** The values with later repeats dropped, first occurrences in order. */
  function Dedupe(xs: seq<string>): (r: seq<string>)
    ensures forall x :: x in r <==> x in xs
    ensures forall i, j :: 0 <= i < j < |r| ==> r[i] != r[j]
  {
    if xs == [] then []
    else
      var init := Dedupe(xs[..|xs| - 1]);
      var last := xs[|xs| - 1];
      assert xs == xs[..|xs| - 1] + [last];
      if last in xs[..|xs| - 1] then init else init + [last]
  }

  /** The position of the first occurrence of `x` in `xs`. */
  function FirstIndex(xs: seq<string>, x: string): (i: nat)
    requires x in xs
    ensures i < |xs| && xs[i] == x && x !in xs[..i]
  {
    if xs[0] == x then 0
    else
      var i := 1 + FirstIndex(xs[1..], x);
      assert xs[..i] == [xs[0]] + xs[1..][..i - 1];
      i
  }

  lemma FirstIndexUnique(xs: seq<string>, x: string, i: nat)
    requires i < |xs| && xs[i] == x && x !in xs[..i]
    ensures FirstIndex(xs, x) == i
  {
  }

  /** A value's first occurrence is the same in a prefix that holds it. */
  lemma FirstIndexPrefix(xs: seq<string>, n: nat, x: string)
    requires n <= |xs| && x in xs[..n]
    ensures FirstIndex(xs, x) == FirstIndex(xs[..n], x)
  {
    var k := FirstIndex(xs[..n], x);
    assert xs[..k] == xs[..n][..k];
    FirstIndexUnique(xs, x, k);
  }

  /** `array_unique` keeps each value at its first occurrence, so the kept
      values stay in the order they first appear. */
  lemma {:induction false} DedupeKeepsFirstOrder(xs: seq<string>)
    ensures forall i, j :: 0 <= i < j < |Dedupe(xs)| ==>
      FirstIndex(xs, Dedupe(xs)[i]) < FirstIndex(xs, Dedupe(xs)[j])
  {
    if xs != [] {
      var n := |xs| - 1;
      var init := xs[..n];
      var last := xs[n];
      assert xs == init + [last];
      var d := Dedupe(init);
      DedupeKeepsFirstOrder(init);
      forall k | 0 <= k < |d|
        ensures FirstIndex(xs, d[k]) == FirstIndex(init, d[k]) < n
      {
        assert d[k] in init;
        FirstIndexPrefix(xs, n, d[k]);
      }
      if last !in init {
        FirstIndexUnique(xs, last, n);
        assert Dedupe(xs) == d + [last];
      } else {
        assert Dedupe(xs) == d;
      }
    }
  }

  // ---------------------------------------------------------------------
  // Suggestions

  const AddContent := "Add more detailed content to reach the minimum length requirement."
  const ExpandPoints := "Consider expanding on key points or adding relevant examples."
  const ShortenArticle := "Shorten the article by removing less essential information."
  const SplitArticle := "Consider splitting into multiple articles if appropriate."

  /** The lines one content-length issue contributes: a shortfall is
      tested first, so an issue mentioning both only asks for more. */
  function LengthSuggestion(issue: string): seq<string>
  {
    if Contains(issue, "below minimum") then [AddContent, ExpandPoints]
    else if Contains(issue, "exceeds maximum") then [ShortenArticle, SplitArticle]
    else []
  }

  function LengthSuggestionLines(issues: seq<string>): seq<string>
  {
    if issues == [] then []
    else LengthSuggestionLines(issues[..|issues| - 1]) + LengthSuggestion(issues[|issues| - 1])
  }

  /** `getContentLengthSuggestions`. */
  function ContentLengthSuggestions(issues: seq<string>): seq<string>
  {
    Dedupe(LengthSuggestionLines(issues))
  }

  lemma {:induction false} LengthSuggestionLinesMembers(issues: seq<string>)
    ensures forall x :: x in LengthSuggestionLines(issues) <==> exists i :: i in issues && x in LengthSuggestion(i)
  {
    if issues != [] {
      var init := issues[..|issues| - 1];
      LengthSuggestionLinesMembers(init);
      assert issues == init + [issues[|issues| - 1]];
    }
  }

  lemma LengthSuggestionLinesIff(issues: seq<string>)
    ensures var r := LengthSuggestionLines(issues);
      && (AddContent in r <==> exists i :: i in issues && Contains(i, "below minimum"))
      && (ExpandPoints in r <==> exists i :: i in issues && Contains(i, "below minimum"))
      && (ShortenArticle in r <==>
            exists i :: i in issues && !Contains(i, "below minimum") && Contains(i, "exceeds maximum"))
      && (SplitArticle in r <==>
            exists i :: i in issues && !Contains(i, "below minimum") && Contains(i, "exceeds maximum"))
      && (forall x :: x in r ==> x in [AddContent, ExpandPoints, ShortenArticle, SplitArticle])
  {
    LengthSuggestionLinesMembers(issues);
  }

  /** The two "add" lines appear exactly when some issue reports a
      shortfall, the two "shorten" lines exactly when some issue reports an
      excess and no shortfall, each at most once, and nothing else. */
  lemma ContentLengthSuggestionsIff(issues: seq<string>)
    ensures var r := ContentLengthSuggestions(issues);
      && (AddContent in r <==> exists i :: i in issues && Contains(i, "below minimum"))
      && (ExpandPoints in r <==> exists i :: i in issues && Contains(i, "below minimum"))
      && (ShortenArticle in r <==>
            exists i :: i in issues && !Contains(i, "below minimum") && Contains(i, "exceeds maximum"))
      && (SplitArticle in r <==>
            exists i :: i in issues && !Contains(i, "below minimum") && Contains(i, "exceeds maximum"))
      && (forall x :: x in r ==> x in [AddContent, ExpandPoints, ShortenArticle, SplitArticle])
      && (forall i, j :: 0 <= i < j < |r| ==> r[i] != r[j])
  {
    LengthSuggestionLinesIff(issues);
  }

  /** The content-length loop, then `array_unique`. */
  method GetContentLengthSuggestions(issues: seq<string>) returns (r: seq<string>)
    ensures r == ContentLengthSuggestions(issues)
  {
    var lines: seq<string> := [];
    var i := 0;
    while i < |issues|
      invariant 0 <= i <= |issues|
      invariant lines == LengthSuggestionLines(issues[..i])
    {
      assert issues[..i + 1][..i] == issues[..i];
      if Contains(issues[i], "below minimum") {
        lines := lines + [AddContent];
        lines := lines + [ExpandPoints];
      } else if Contains(issues[i], "exceeds maximum") {
        lines := lines + [ShortenArticle];
        lines := lines + [SplitArticle];
      }
      i := i + 1;
    }
    assert issues[..i] == issues;
    r := Dedupe(lines);
  }

  const EnsureGuidelines := "Ensure content complies with feed community guidelines."
  const FocusAudience := "Focus on informative, appropriate content for the target audience."
  const UseAlternatives := "Use alternative terminology that conveys the same meaning."

  function RemoveKeywords(keywords: seq<string>): string
  {
    "Remove or rephrase content containing: " + Join(keywords, ", ")
  }

  /** `getProhibitedTopicsSuggestions`: the two general lines always close
      the list; found keywords add two lines naming them first. */
  function ProhibitedTopicsSuggestions(keywords: seq<string>): (r: seq<string>)
    ensures |keywords| > 0 ==> |r| == 4 && r[0] == RemoveKeywords(keywords) && r[1] == UseAlternatives
    ensures |keywords| == 0 ==> |r| == 2
    ensures r[|r| - 2..] == [EnsureGuidelines, FocusAudience]
  {
    (if |keywords| > 0 then [RemoveKeywords(keywords), UseAlternatives] else [])
      + [EnsureGuidelines, FocusAudience]
  }

  const AddTitle := "Add a descriptive title to your article."
  const AdjustTitle := "Adjust the title length to meet requirements."
  const SpecifyAuthor := "Specify the article author in the author field."
  const SelectCategory := "Select an appropriate category for your article."
  const AddImage := "Add a high-quality featured image to your article."

  /** `strpos` when `caseless` is false, as the source does; `stripos` when
      it is true, as the suggestions evidently intend. */
  predicate Mentions(issue: string, word: string, caseless: bool)
  {
    if caseless then IContains(issue, word) else Contains(issue, word)
  }

  /** The suggestion one metadata issue contributes, tested in order. */
  function MetadataSuggestion(issue: string, caseless: bool): Option<string>
  {
    if Mentions(issue, "title", caseless) then
      Some(if Mentions(issue, "missing", caseless) then AddTitle else AdjustTitle)
    else if Mentions(issue, "author", caseless) then Some(SpecifyAuthor)
    else if Mentions(issue, "category", caseless) then Some(SelectCategory)
    else if Mentions(issue, "thumbnail", caseless) then Some(AddImage)
    else None
  }

  function MetadataSuggestionLines(issues: seq<string>, caseless: bool): seq<string>
  {
    if issues == [] then []
    else
      var s := MetadataSuggestion(issues[|issues| - 1], caseless);
      MetadataSuggestionLines(issues[..|issues| - 1], caseless) + (if s.Some? then [s.value] else [])
  }

  /** `getMetadataSuggestions`, with case-sensitive matching as written
      (`caseless` false) or case-insensitive matching as intended. */
  function MetadataSuggestions(issues: seq<string>, caseless: bool): seq<string>
  {
    Dedupe(MetadataSuggestionLines(issues, caseless))
  }

  /** The suggestions are exactly those of the individual issues, each once. */
  lemma {:induction false} MetadataSuggestionsIff(issues: seq<string>, caseless: bool)
    ensures forall x :: x in MetadataSuggestions(issues, caseless) <==>
      exists i :: i in issues && MetadataSuggestion(i, caseless) == Some(x)
  {
    if issues != [] {
      var init := issues[..|issues| - 1];
      MetadataSuggestionsIff(init, caseless);
      assert issues == init + [issues[|issues| - 1]];
    }
  }

  /** With case-insensitive matching an issue's case does not matter. */
  lemma CaselessIgnoresCase(issue: string)
    ensures MetadataSuggestion(Lower(issue), true) == MetadataSuggestion(issue, true)
  {
    LowerIdempotent(issue);
  }

  /** The validator's message for a five-character title under a minimum
      of ten. */
  const ShortTitleIssue := "Title length (5) is below minimum (10)"

  lemma ShortTitleIssueText()
    ensures MetadataValidator.TitleTooShort(5, 10) == ShortTitleIssue
  {
    assert NatToString(5) == "5";
    assert IntToString(10) == "10" by {
      assert NatToString(10) == NatToString(1) + [DigitChar(0)];
    }
    ShortTitleIssuePieces();
  }

  lemma ShortTitleIssuePieces()
    ensures "Title length (" + "5" + ") is below minimum (" + "10" + ")" == ShortTitleIssue
  {
  }

  /** None of the four lower-case words the case-sensitive matcher looks
      for occurs in the short-title issue. */
  lemma ShortTitleIssueLacks(word: string)
    requires word == "title" || word == "author" || word == "category" || word == "thumbnail"
    ensures !Contains(ShortTitleIssue, word)
  {
    NotContainsPair(ShortTitleIssue, word, if word == "thumbnail" then 3 else 0);
  }

  lemma ShortTitleIssueCaseless()
    ensures IContains(ShortTitleIssue, "title") && !IContains(ShortTitleIssue, "missing")
  {
    var lower := Lower(ShortTitleIssue);
    assert Lower("title") == "title" && Lower("missing") == "missing";
    ShortTitleIssueLowerPrefix();
    ShortTitleIssueLowerNoDoubleS();
    NotContainsPair(lower, "missing", 2);
  }

  lemma ShortTitleIssueLowerPrefix()
    ensures Lower(ShortTitleIssue)[..5] == "title"
  {
    assert forall i :: 0 <= i < 5 ==> Lower(ShortTitleIssue)[i] == "title"[i];
  }

  lemma ShortTitleIssueLowerNoDoubleS()
    ensures forall i :: 0 <= i < |ShortTitleIssue| - 1 ==>
      !(Lower(ShortTitleIssue)[i] == 's' && Lower(ShortTitleIssue)[i + 1] == 's')
  {
    forall i | 0 <= i < |ShortTitleIssue| - 1
      ensures !(LowerChar(ShortTitleIssue[i]) == 's' && LowerChar(ShortTitleIssue[i + 1]) == 's')
    {
    }
  }

  /** The validator's own short-title issue gets no suggestion as written,
      because it spells "Title" with a capital letter; matched without
      regard to case it gets the title-length suggestion. */
  lemma CaseSensitiveMissesTitleIssue()
    ensures MetadataSuggestions([MetadataValidator.TitleTooShort(5, 10)], false) == []
    ensures MetadataSuggestions([MetadataValidator.TitleTooShort(5, 10)], true) == [AdjustTitle]
  {
    ShortTitleIssueText();
    SingleIssueSuggestions(ShortTitleIssue, false);
    SingleIssueSuggestions(ShortTitleIssue, true);
    assert MetadataSuggestion(ShortTitleIssue, false) == None by {
      ShortTitleIssueLacks("title");
      ShortTitleIssueLacks("author");
      ShortTitleIssueLacks("category");
      ShortTitleIssueLacks("thumbnail");
    }
    assert MetadataSuggestion(ShortTitleIssue, true) == Some(AdjustTitle) by {
      ShortTitleIssueCaseless();
    }
  }

  lemma SingleIssueSuggestions(issue: string, caseless: bool)
    ensures var s := MetadataSuggestion(issue, caseless);
      MetadataSuggestions([issue], caseless) == if s.Some? then [s.value] else []
  {
    assert [issue][..0] == [];
    var s := MetadataSuggestion(issue, caseless);
    var lines := MetadataSuggestionLines([issue], caseless);
    assert MetadataSuggestionLines([issue][..0], caseless) == [];
    assert lines == MetadataSuggestionLines([issue][..0], caseless) + (if s.Some? then [s.value] else []);
    if s.Some? {
      assert lines[..0] == [] && lines[0] !in lines[..0];
      assert Dedupe(lines) == Dedupe(lines[..0]) + [lines[0]];
    }
  }

  /** The metadata loop with case-insensitive matching, then `array_unique`. */
  method GetMetadataSuggestions(issues: seq<string>) returns (r: seq<string>)
    ensures r == MetadataSuggestions(issues, true)
  {
    var lines: seq<string> := [];
    var i := 0;
    while i < |issues|
      invariant 0 <= i <= |issues|
      invariant lines == MetadataSuggestionLines(issues[..i], true)
    {
      assert issues[..i + 1][..i] == issues[..i];
      var issue := issues[i];
      if IContains(issue, "title") {
        if IContains(issue, "missing") {
          lines := lines + [AddTitle];
        } else {
          lines := lines + [AdjustTitle];
        }
      } else if IContains(issue, "author") {
        lines := lines + [SpecifyAuthor];
      } else if IContains(issue, "category") {
        lines := lines + [SelectCategory];
      } else if IContains(issue, "thumbnail") {
        lines := lines + [AddImage];
      }
      i := i + 1;
    }
    assert issues[..i] == issues;
    r := Dedupe(lines);
  }

  const AssetSuggestions := [
    "Add proper attribution for all images and media used in the article.",
    "Ensure you have permission to use all visual content.",
    "Include photo credits in the article metadata.",
    "Use only images from approved sources when possible."]

  const ReviewArticle := "Please review the article and make necessary corrections."

  /** `getSuggestions`: the builder for the rule, or one generic line. */
  function Suggestions(rule: string, details: Details): (r: seq<string>)
    ensures rule == AssetAttributionRule ==> r == AssetSuggestions
    ensures rule !in {ContentLengthRule, ProhibitedTopicsRule, MetadataRule, AssetAttributionRule} ==>
      r == [ReviewArticle]
    ensures rule == ProhibitedTopicsRule ==> |r| >= 2
    ensures rule == ContentLengthRule ==> r == ContentLengthSuggestions(IssuesOf(details))
    ensures rule == ProhibitedTopicsRule ==> r == ProhibitedTopicsSuggestions(FoundKeywordsOf(details))
    ensures rule == MetadataRule ==> r == MetadataSuggestions(IssuesOf(details), true)
  {
    if rule == ContentLengthRule then ContentLengthSuggestions(IssuesOf(details))
    else if rule == ProhibitedTopicsRule then ProhibitedTopicsSuggestions(FoundKeywordsOf(details))
    else if rule == MetadataRule then MetadataSuggestions(IssuesOf(details), true)
    else if rule == AssetAttributionRule then AssetSuggestions
    else [ReviewArticle]
  }

  // ---------------------------------------------------------------------
  // Formatting and the report

  function MessageOf(e: CheckEntry): string
  {
    match e.message
    case Some(m) => m
    case None => ""
  }

  /** One formatted error per failed check. */
  function Formatted(e: CheckEntry): (f: FormattedError)
    ensures f.rule == e.rule && f.severity == SeverityOf(e.rule)
  {
    FormattedError(e.rule, DisplayName(e.rule), ReplaceEach(MessageOf(e), FriendlyTerms),
                   Suggestions(e.rule, e.details), SeverityOf(e.rule))
  }

  /** The loop body of `formatComplianceErrors`: one failed check. */
  method FormatCheck(e: CheckEntry) returns (f: FormattedError)
    ensures f == Formatted(e)
  {
    var message := MakeUserFriendly(MessageOf(e));
    var suggestions: seq<string>;
    if e.rule == ContentLengthRule {
      suggestions := GetContentLengthSuggestions(IssuesOf(e.details));
    } else if e.rule == MetadataRule {
      suggestions := GetMetadataSuggestions(IssuesOf(e.details));
    } else {
      suggestions := Suggestions(e.rule, e.details);
    }
    f := FormattedError(e.rule, DisplayName(e.rule), message, suggestions, SeverityOf(e.rule));
  }

  /** The formatted errors of `checks`, built front to back. */
  function FormatAll(checks: seq<CheckEntry>): (r: seq<FormattedError>)
    ensures |r| == |checks|
    ensures forall i :: 0 <= i < |r| ==> r[i] == Formatted(checks[i])
  {
    if checks == [] then []
    else FormatAll(checks[..|checks| - 1]) + [Formatted(checks[|checks| - 1])]
  }

  /** `formatComplianceErrors`: one entry per failed check, in order. */
  method FormatComplianceErrors(failedChecks: seq<CheckEntry>) returns (errors: seq<FormattedError>)
    ensures |errors| == |failedChecks|
    ensures forall i :: 0 <= i < |errors| ==> errors[i] == Formatted(failedChecks[i])
  {
    errors := [];
    var i := 0;
    while i < |failedChecks|
      invariant 0 <= i <= |failedChecks|
      invariant errors == FormatAll(failedChecks[..i])
    {
      var f := FormatCheck(failedChecks[i]);
      assert failedChecks[..i + 1][..i] == failedChecks[..i];
      errors := errors + [f];
      i := i + 1;
    }
    assert failedChecks[..i] == failedChecks;
  }

  function CountSeverity(errors: seq<FormattedError>, s: Severity): (n: nat)
    ensures n <= |errors|
  {
    if errors == [] then 0
    else CountSeverity(errors[..|errors| - 1], s) + (if errors[|errors| - 1].severity == s then 1 else 0)
  }

  /** Every error has exactly one of the three severities. */
  lemma {:induction false} SeveritiesPartition(errors: seq<FormattedError>)
    ensures CountSeverity(errors, High) + CountSeverity(errors, Medium) + CountSeverity(errors, Low) == |errors|
  {
    if errors != [] {
      SeveritiesPartition(errors[..|errors| - 1]);
    }
  }

  /** 15 minutes per high, 10 per medium and 5 per low severity error. */
  function FixMinutes(errors: seq<FormattedError>): nat
  {
    15 * CountSeverity(errors, High) + 10 * CountSeverity(errors, Medium) + 5 * CountSeverity(errors, Low)
  }

  /** `round($minutes / 60, 1)` in tenths of an hour, halves up. */
  function HoursInTenths(minutes: nat): (t: nat)
    ensures 6 * t <= minutes + 3 < 6 * t + 6
  {
    (minutes + 3) / 6
  }

  /** A float with one decimal as PHP prints it: no ".0" on whole numbers. */
  function TenthsToString(t: nat): string
  {
    if t % 10 == 0 then NatToString(t / 10) else NatToString(t / 10) + "." + [DigitChar(t % 10)]
  }

  /** `estimateFixTime`. */
  function EstimateFixTime(errors: seq<FormattedError>): (r: string)
    ensures FixMinutes(errors) < 15 <==> r == "Less than 15 minutes"
    ensures 15 <= FixMinutes(errors) < 60 ==> r == NatToString(FixMinutes(errors)) + " minutes"
    ensures 60 <= FixMinutes(errors) ==> r == TenthsToString(HoursInTenths(FixMinutes(errors))) + " hours"
  {
    var m := FixMinutes(errors);
    if m < 15 then "Less than 15 minutes"
    else if m < 60 then
      assert (NatToString(m) + " minutes")[|NatToString(m)|] == ' ';
      assert "Less than 15 minutes"[4] == ' ';
      NatToString(m) + " minutes"
    else
      assert (TenthsToString(HoursInTenths(m)) + " hours")[|TenthsToString(HoursInTenths(m))|] == ' ';
      TenthsToString(HoursInTenths(m)) + " hours"
  }

  /** The estimate lies between 5 and 15 minutes per error, and an article
      with no errors needs less than 15 minutes. */
  lemma FixMinutesBounds(errors: seq<FormattedError>)
    ensures 5 * |errors| <= FixMinutes(errors) <= 15 * |errors|
    ensures errors == [] ==> EstimateFixTime(errors) == "Less than 15 minutes"
  {
    SeveritiesPartition(errors);
  }

  const NextSteps := [
    "Review and address each issue listed above",
    "Make the suggested corrections to your article",
    "Test compliance again before attempting to publish",
    "Contact the editorial team if you need assistance"]

  datatype EditorReport = EditorReport(
    articleId: int, articleTitle: string, totalIssues: nat, highPriorityIssues: nat,
    issues: seq<FormattedError>, nextSteps: seq<string>, estimatedFixTime: string)

  /** The number of failed checks under the high-severity rule. */
  function TopicFailures(failedChecks: seq<CheckEntry>): nat
  {
    if failedChecks == [] then 0
    else
      TopicFailures(failedChecks[..|failedChecks| - 1])
        + (if failedChecks[|failedChecks| - 1].rule == ProhibitedTopicsRule then 1 else 0)
  }

  lemma {:induction false} HighCountIsTopicFailures(failedChecks: seq<CheckEntry>, errors: seq<FormattedError>)
    requires |errors| == |failedChecks|
    requires forall i :: 0 <= i < |errors| ==> errors[i] == Formatted(failedChecks[i])
    ensures CountSeverity(errors, High) == TopicFailures(failedChecks)
  {
    if errors != [] {
      HighCountIsTopicFailures(failedChecks[..|failedChecks| - 1], errors[..|errors| - 1]);
    }
  }

  /** `generateEditorReport`: one issue per failed check, the high-priority
      ones being the failures of the topics rule. */
  method GenerateEditorReport(a: Article, failedChecks: seq<CheckEntry>) returns (report: EditorReport)
    ensures report.articleId == a.id && report.articleTitle == a.title
    ensures report.totalIssues == |failedChecks| == |report.issues|
    ensures forall i :: 0 <= i < |report.issues| ==> report.issues[i] == Formatted(failedChecks[i])
    ensures report.highPriorityIssues == TopicFailures(failedChecks) <= report.totalIssues
    ensures report.nextSteps == NextSteps
    ensures report.estimatedFixTime == EstimateFixTime(report.issues)
  {
    var errors := FormatComplianceErrors(failedChecks);
    HighCountIsTopicFailures(failedChecks, errors);
    report := EditorReport(a.id, a.title, |errors|, CountSeverity(errors, High), errors, NextSteps,
                           EstimateFixTime(errors));
  }
}
