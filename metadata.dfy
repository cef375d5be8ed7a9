/** The metadata rule: required fields, title length and the thumbnail. */
module MetadataValidator {
  import opened Text
  import opened Domain
  import opened BaseValidator

  const DefaultRequiredFields := ["title", "author", "category"]
  const DefaultTitleMaxLength := 100
  const DefaultTitleMinLength := 10

  datatype Settings = Settings(
    requiredFields: seq<string>,
    titleMaxLength: int,
    titleMinLength: int,
    requireThumbnail: bool)

  function SettingsOf(p: Params): (s: Settings)
    ensures "required_fields" !in p ==> s.requiredFields == DefaultRequiredFields
    ensures "title_max_length" !in p ==> s.titleMaxLength == DefaultTitleMaxLength
    ensures "title_min_length" !in p ==> s.titleMinLength == DefaultTitleMinLength
    ensures "require_thumbnail" !in p ==> s.requireThumbnail
  {
    Settings(ListParam(p, "required_fields", DefaultRequiredFields),
             IntParam(p, "title_max_length", DefaultTitleMaxLength),
             IntParam(p, "title_min_length", DefaultTitleMinLength),
             FlagParam(p, "require_thumbnail", true))
  }

  function MissingFieldIssue(field: string): string
  {
    "Required field '" + field + "' is missing or empty"
  }

  function TitleTooShort(length: nat, min: int): string
  {
    "Title length (" + NatToString(length) + ") is below minimum (" + IntToString(min) + ")"
  }

  function TitleTooLong(length: nat, max: int): string
  {
    "Title length (" + NatToString(length) + ") exceeds maximum (" + IntToString(max) + ")"
  }

  const ThumbnailMissing := "Thumbnail URL is required but not provided"
  const ThumbnailInvalid := "Invalid thumbnail URL format"
  const FailMessage := "Metadata validation failed"
  const PassMessage := "All metadata requirements satisfied"

  /** One issue per empty required field, in list order. */
  function MissingFieldIssues(a: Article, fields: seq<string>): (issues: seq<string>)
    ensures |issues| <= |fields|
  {
    if fields == [] then []
    else
      var last := fields[|fields| - 1];
      MissingFieldIssues(a, fields[..|fields| - 1])
      + (if FieldIsEmpty(a, last) then [MissingFieldIssue(last)] else [])
  }

  /** Title-length issues, raised only for a non-empty title. */
  function TitleIssues(a: Article, s: Settings): seq<string>
  {
    if Empty(a.title) then []
    else
      (if |a.title| < s.titleMinLength then [TitleTooShort(|a.title|, s.titleMinLength)] else [])
      + (if |a.title| > s.titleMaxLength then [TitleTooLong(|a.title|, s.titleMaxLength)] else [])
  }

  function ThumbnailIssues(a: Article, s: Settings, net: UrlFacts): seq<string>
  {
    (if s.requireThumbnail && Empty(a.thumbnailUrl) then [ThumbnailMissing] else [])
    + (if !Empty(a.thumbnailUrl) && !net.isValidUrl(a.thumbnailUrl) then [ThumbnailInvalid] else [])
  }

  /** The issues list, in the order `validate` appends to it. */
  function IssuesFor(a: Article, s: Settings, net: UrlFacts): seq<string>
  {
    MissingFieldIssues(a, s.requiredFields) + TitleIssues(a, s) + ThumbnailIssues(a, s, net)
  }

  function Issues(a: Article, p: Params, net: UrlFacts): seq<string>
  {
    IssuesFor(a, SettingsOf(p), net)
  }

  /** What `validate` returns. */
  function Check(a: Article, p: Params, net: UrlFacts): CheckResult
  {
    var issues := Issues(a, p, net);
    if |issues| > 0 then
      Fail(FailMessage, MetadataFailure(issues, a.title, |a.title|, a.author, a.category, a.thumbnailUrl, p))
    else
      Pass(PassMessage, NoDetails)
  }

  /** The required-field loop. */
  method CheckRequiredFields(a: Article, fields: seq<string>) returns (issues: seq<string>)
    ensures issues == MissingFieldIssues(a, fields)
  {
    issues := [];
    var i := 0;
    while i < |fields|
      invariant 0 <= i <= |fields|
      invariant issues == MissingFieldIssues(a, fields[..i])
    {
      assert fields[..i + 1][..i] == fields[..i];
      if FieldIsEmpty(a, fields[i]) {
        issues := issues + [MissingFieldIssue(fields[i])];
      }
      i := i + 1;
    }
    assert fields[..i] == fields;
  }

  /** `validate`: the field loop, then the title and thumbnail checks, each
      appending to the issues list. */
  method Validate(a: Article, p: Params, net: UrlFacts) returns (r: CheckResult)
    ensures r == Check(a, p, net)
  {
    var s := SettingsOf(p);
    var issues := CheckRequiredFields(a, s.requiredFields);
    ghost var fieldIssues := issues;
    if !Empty(a.title) {
      var titleLength := |a.title|;
      if titleLength < s.titleMinLength {
        issues := issues + [TitleTooShort(titleLength, s.titleMinLength)];
      }
      if titleLength > s.titleMaxLength {
        issues := issues + [TitleTooLong(titleLength, s.titleMaxLength)];
      }
    }
    assert issues == fieldIssues + TitleIssues(a, s);
    ghost var beforeThumbnail := issues;
    if s.requireThumbnail && Empty(a.thumbnailUrl) {
      issues := issues + [ThumbnailMissing];
    }
    if !Empty(a.thumbnailUrl) && !net.isValidUrl(a.thumbnailUrl) {
      issues := issues + [ThumbnailInvalid];
    }
    assert issues == beforeThumbnail + ThumbnailIssues(a, s, net);
    if |issues| > 0 {
      r := Fail(FailMessage, MetadataFailure(issues, a.title, |a.title|, a.author, a.category, a.thumbnailUrl, p));
    } else {
      r := Pass(PassMessage, NoDetails);
    }
  }

  lemma MissingFieldIssueInjective(f: string, g: string)
    requires MissingFieldIssue(f) == MissingFieldIssue(g)
    ensures f == g
  {
    var prefix := |"Required field '"|;
    assert |f| == |g|;
    assert f == MissingFieldIssue(f)[prefix..prefix + |f|];
    assert g == MissingFieldIssue(g)[prefix..prefix + |g|];
  }

  /** A required field yields its issue exactly when it is listed and empty. */
  lemma {:induction false} MissingFieldReported(a: Article, fields: seq<string>, f: string)
    ensures MissingFieldIssue(f) in MissingFieldIssues(a, fields) <==> f in fields && FieldIsEmpty(a, f)
  {
    if fields != [] {
      var init := fields[..|fields| - 1];
      var last := fields[|fields| - 1];
      assert fields == init + [last];
      MissingFieldReported(a, init, f);
      if MissingFieldIssue(f) == MissingFieldIssue(last) {
        MissingFieldIssueInjective(f, last);
      }
    }
  }

  /** The row's timestamps are never reported missing, even when required. */
  lemma TimestampsNeverMissing(a: Article, fields: seq<string>)
    ensures MissingFieldIssue("created_at") !in MissingFieldIssues(a, fields)
    ensures MissingFieldIssue("updated_at") !in MissingFieldIssues(a, fields)
  {
    MissingFieldReported(a, fields, "created_at");
    MissingFieldReported(a, fields, "updated_at");
  }

  /** Title-length issues arise exactly for a non-empty title outside
      [min, max]; a title of exactly min or max characters passes. */
  lemma TitleWithinBounds(a: Article, s: Settings)
    ensures TitleIssues(a, s) == [] <==> Empty(a.title) || s.titleMinLength <= |a.title| <= s.titleMaxLength
  {
  }

  lemma {:induction false} MissingFieldsStartWithR(a: Article, fields: seq<string>)
    ensures forall t :: t in MissingFieldIssues(a, fields) ==> |t| > 0 && t[0] == 'R'
  {
    if fields != [] {
      MissingFieldsStartWithR(a, fields[..|fields| - 1]);
    }
  }

  lemma ThumbnailIssuesExact(a: Article, s: Settings, net: UrlFacts)
    ensures ThumbnailInvalid in ThumbnailIssues(a, s, net) <==> !Empty(a.thumbnailUrl) && !net.isValidUrl(a.thumbnailUrl)
    ensures ThumbnailMissing in ThumbnailIssues(a, s, net) <==> s.requireThumbnail && Empty(a.thumbnailUrl)
  {
    assert ThumbnailInvalid != ThumbnailMissing;
  }

  /** An invalid thumbnail URL is reported whether or not a thumbnail is
      required, and a missing one exactly when it is required. */
  lemma ThumbnailReported(a: Article, s: Settings, net: UrlFacts)
    ensures ThumbnailInvalid in IssuesFor(a, s, net) <==> !Empty(a.thumbnailUrl) && !net.isValidUrl(a.thumbnailUrl)
    ensures ThumbnailMissing in IssuesFor(a, s, net) <==> s.requireThumbnail && Empty(a.thumbnailUrl)
  {
    var fields := MissingFieldIssues(a, s.requiredFields);
    var titles := TitleIssues(a, s);
    var thumbs := ThumbnailIssues(a, s, net);
    ThumbnailMessagesShape();
    MissingFieldsStartWithR(a, s.requiredFields);
    TitleIssuesShape(a, s);
    ThumbnailIssuesExact(a, s, net);
    InLastPart(ThumbnailInvalid, fields, titles, thumbs);
    InLastPart(ThumbnailMissing, fields, titles, thumbs);
  }

  /** The first two letters of the thumbnail messages. */
  lemma ThumbnailMessagesShape()
    ensures ThumbnailInvalid[0] == 'I' && ThumbnailInvalid[1] == 'n'
    ensures ThumbnailMissing[0] == 'T' && ThumbnailMissing[1] == 'h'
  {
  }

  lemma InLastPart(x: string, xs: seq<string>, ys: seq<string>, zs: seq<string>)
    requires x !in xs && x !in ys
    ensures x in xs + ys + zs <==> x in zs
  {
  }

  lemma TitleIssuesShape(a: Article, s: Settings)
    ensures forall t :: t in TitleIssues(a, s) ==> |t| > 1 && t[0] == 'T' && t[1] == 'i'
  {
    if !Empty(a.title) {
      assert TitleTooShort(|a.title|, s.titleMinLength)[..2] == "Ti";
      assert TitleTooLong(|a.title|, s.titleMaxLength)[..2] == "Ti";
    }
  }

  /** The rule passes exactly when every required field is filled, a
      non-empty title is within bounds, a required thumbnail is present and
      a present thumbnail is a valid URL. */
  lemma PassesIff(a: Article, p: Params, net: UrlFacts)
    ensures Check(a, p, net).passed <==>
      && (forall f :: f in SettingsOf(p).requiredFields ==> !FieldIsEmpty(a, f))
      && (Empty(a.title) || SettingsOf(p).titleMinLength <= |a.title| <= SettingsOf(p).titleMaxLength)
      && !(SettingsOf(p).requireThumbnail && Empty(a.thumbnailUrl))
      && (Empty(a.thumbnailUrl) || net.isValidUrl(a.thumbnailUrl))
  {
    var s := SettingsOf(p);
    var fields := MissingFieldIssues(a, s.requiredFields);
    if fields != [] {
      assert fields[0] in fields;
      var f :| f in s.requiredFields && fields[0] == MissingFieldIssue(f) by {
        NonEmptyMissingHasField(a, s.requiredFields);
      }
      MissingFieldReported(a, s.requiredFields, f);
    } else {
      forall f | f in s.requiredFields ensures !FieldIsEmpty(a, f) {
        MissingFieldReported(a, s.requiredFields, f);
      }
    }
  }

  lemma {:induction false} NonEmptyMissingHasField(a: Article, fields: seq<string>)
    requires MissingFieldIssues(a, fields) != []
    ensures exists f :: f in fields && MissingFieldIssues(a, fields)[0] == MissingFieldIssue(f)
  {
    var init := fields[..|fields| - 1];
    var last := fields[|fields| - 1];
    if MissingFieldIssues(a, init) != [] {
      NonEmptyMissingHasField(a, init);
      var f :| f in init && MissingFieldIssues(a, init)[0] == MissingFieldIssue(f);
      assert f in fields;
    } else {
      assert last in fields;
    }
  }

  /** Failure details report the title's length. */
  lemma FailureReportsTitleLength(a: Article, p: Params, net: UrlFacts)
    requires !Check(a, p, net).passed
    ensures Check(a, p, net).details.MetadataFailure?
    ensures Check(a, p, net).details.titleLength == |a.title|
    ensures Check(a, p, net).details.requirements == p
  {
  }
}
