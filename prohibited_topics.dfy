/** The prohibited-topics rule: a category blacklist and a case-insensitive
    keyword scan over the title, body and tags. */
module ProhibitedTopicsValidator {
  import opened Text
  import opened Domain
  import opened BaseValidator

  datatype Settings = Settings(
    keywords: seq<string>,
    categories: seq<string>,
    checkTitle: bool,
    checkBody: bool,
    checkTags: bool)

  /** The rule's parameters; lists default to empty, the three switches to on. */
  function SettingsOf(p: Params): (s: Settings)
    ensures "prohibited_keywords" !in p ==> s.keywords == []
    ensures "prohibited_categories" !in p ==> s.categories == []
    ensures "check_title" !in p ==> s.checkTitle
    ensures "check_body" !in p ==> s.checkBody
    ensures "check_tags" !in p ==> s.checkTags
  {
    Settings(ListParam(p, "prohibited_keywords", []), ListParam(p, "prohibited_categories", []),
             FlagParam(p, "check_title", true), FlagParam(p, "check_body", true),
             FlagParam(p, "check_tags", true))
  }

  /** The text that is scanned, before lower-casing: each enabled part is
      appended after a space; tags only when there are some. */
  function ScannedText(a: Article, s: Settings): string
  {
    (if s.checkTitle then " " + a.title else "")
    + (if s.checkBody then " " + a.body else "")
    + (if s.checkTags && |a.tags| > 0 then " " + Join(a.tags, " ") else "")
  }

  /** The keywords, in parameter order and original spelling, whose lower-cased
      form occurs in the (already lower-cased) text. */
  function Matched(text: string, keywords: seq<string>): (found: seq<string>)
    ensures |found| <= |keywords|
    ensures forall k :: k in found <==> k in keywords && Contains(text, Lower(k))
  {
    if keywords == [] then []
    else
      var last := keywords[|keywords| - 1];
      assert keywords == keywords[..|keywords| - 1] + [last];
      Matched(text, keywords[..|keywords| - 1])
      + (if Contains(text, Lower(last)) then [last] else [])
  }

  function CategoryIssue(category: string): string
  {
    "Article category '" + category + "' is prohibited"
  }

  function KeywordIssue(found: seq<string>): string
  {
    "Contains prohibited keywords: " + Join(found, ", ")
  }

  const FailMessage := "Content contains prohibited topics or keywords"
  const PassMessage := "No prohibited topics or keywords found"

  function FoundKeywords(a: Article, p: Params): seq<string>
  {
    Matched(Lower(ScannedText(a, SettingsOf(p))), SettingsOf(p).keywords)
  }

  /** What `validate` returns. */
  function Check(a: Article, p: Params): CheckResult
  {
    var s := SettingsOf(p);
    var found := FoundKeywords(a, p);
    var issues := (if a.category in s.categories then [CategoryIssue(a.category)] else [])
                  + (if |found| > 0 then [KeywordIssue(found)] else []);
    if |issues| > 0 then
      Fail(FailMessage, TopicsFailure(issues, found, a.category, s.categories, s.keywords))
    else
      Pass(PassMessage, NoDetails)
  }

  /** The scanned text, built by successive appends. */
  method BuildScannedText(a: Article, s: Settings) returns (text: string)
    ensures text == ScannedText(a, s)
  {
    text := "";
    if s.checkTitle { text := text + " " + a.title; }
    if s.checkBody { text := text + " " + a.body; }
    if s.checkTags && |a.tags| > 0 { text := text + " " + Join(a.tags, " "); }
  }

  /** The keyword scan: keeps each keyword whose lower-cased form occurs in
      the lower-cased text. */
  method FindKeywords(text: string, keywords: seq<string>) returns (found: seq<string>)
    ensures found == Matched(text, keywords)
  {
    found := [];
    var i := 0;
    while i < |keywords|
      invariant 0 <= i <= |keywords|
      invariant found == Matched(text, keywords[..i])
    {
      assert keywords[..i + 1][..i] == keywords[..i];
      if Contains(text, Lower(keywords[i])) {
        found := found + [keywords[i]];
      }
      i := i + 1;
    }
    assert keywords[..i] == keywords;
  }

  /** `validate`: the category test, then the keyword scan. */
  method Validate(a: Article, p: Params) returns (r: CheckResult)
    ensures r == Check(a, p)
  {
    var s := SettingsOf(p);
    var issues: seq<string> := [];
    if a.category in s.categories {
      issues := issues + [CategoryIssue(a.category)];
    }
    var text := BuildScannedText(a, s);
    var found := FindKeywords(Lower(text), s.keywords);
    if |found| > 0 {
      issues := issues + [KeywordIssue(found)];
    }
    if |issues| > 0 {
      r := Fail(FailMessage, TopicsFailure(issues, found, a.category, s.categories, s.keywords));
    } else {
      r := Pass(PassMessage, NoDetails);
    }
  }

  /** The rule passes exactly when the category is allowed and no keyword,
      compared case-insensitively, occurs in the scanned text. */
  lemma PassesIff(a: Article, p: Params)
    ensures Check(a, p).passed <==>
      && a.category !in SettingsOf(p).categories
      && forall k :: k in SettingsOf(p).keywords ==> !IContains(ScannedText(a, SettingsOf(p)), k)
  {
    var found := FoundKeywords(a, p);
    assert |found| == 0 || found[0] in found;
  }

  /** A prohibited category yields the category issue, first. */
  lemma ProhibitedCategoryReported(a: Article, p: Params)
    requires a.category in SettingsOf(p).categories
    ensures !Check(a, p).passed
    ensures IssuesOf(Check(a, p).details)[0] == CategoryIssue(a.category)
  {
  }

  /** A keyword occurring in the title is found when titles are scanned,
      whatever the case of either. */
  lemma {:induction false} TitleKeywordFound(a: Article, p: Params, k: string)
    requires SettingsOf(p).checkTitle && k in SettingsOf(p).keywords
    requires IContains(a.title, k)
    ensures k in FoundKeywords(a, p)
  {
    var s := SettingsOf(p);
    var rest := (if s.checkBody then " " + a.body else "")
                + (if s.checkTags && |a.tags| > 0 then " " + Join(a.tags, " ") else "");
    assert ScannedText(a, s) == " " + a.title + rest;
    LowerConcat(" ", a.title);
    LowerConcat(" " + a.title, rest);
    ContainsInSuffix(Lower(" "), Lower(a.title), Lower(k));
    ContainsInPrefix(Lower(" " + a.title), Lower(rest), Lower(k));
  }

  /** A keyword occurring in the body is found when bodies are scanned. */
  lemma {:induction false} BodyKeywordFound(a: Article, p: Params, k: string)
    requires SettingsOf(p).checkBody && k in SettingsOf(p).keywords
    requires IContains(a.body, k)
    ensures k in FoundKeywords(a, p)
  {
    var s := SettingsOf(p);
    var front := if s.checkTitle then " " + a.title else "";
    var tags := if s.checkTags && |a.tags| > 0 then " " + Join(a.tags, " ") else "";
    assert ScannedText(a, s) == front + (" " + a.body) + tags;
    LowerConcat(" ", a.body);
    LowerConcat(front, " " + a.body);
    LowerConcat(front + (" " + a.body), tags);
    ContainsInSuffix(Lower(" "), Lower(a.body), Lower(k));
    ContainsInSuffix(Lower(front), Lower(" " + a.body), Lower(k));
    ContainsInPrefix(Lower(front + (" " + a.body)), Lower(tags), Lower(k));
  }

  /** With nothing to scan, no keyword other than the empty one can match. */
  lemma NothingScanned(a: Article, p: Params)
    requires !SettingsOf(p).checkTitle && !SettingsOf(p).checkBody && !SettingsOf(p).checkTags
    ensures forall k :: k in FoundKeywords(a, p) ==> k == ""
  {
    assert ScannedText(a, SettingsOf(p)) == "";
  }

  /** Without prohibited keywords and categories the rule always passes. */
  lemma EmptyListsPass(a: Article, p: Params)
    requires SettingsOf(p).keywords == [] && SettingsOf(p).categories == []
    ensures Check(a, p).passed
  {
  }
}
