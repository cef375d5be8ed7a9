/** The content-length rule: word and character counts against bounds. */
module ContentLengthValidator {
  import opened Text
  import opened Domain
  import opened BaseValidator

  const DefaultMinWords := 300
  const DefaultMaxWords := 2000
  const DefaultMinChars := 1500
  const DefaultMaxChars := 10000

  datatype Bounds = Bounds(minWords: int, maxWords: int, minChars: int, maxChars: int)

  /** The four bounds, each defaulted when the rule does not set it. */
  function BoundsOf(p: Params): (b: Bounds)
    ensures "min_words" !in p ==> b.minWords == DefaultMinWords
    ensures "max_words" !in p ==> b.maxWords == DefaultMaxWords
    ensures "min_chars" !in p ==> b.minChars == DefaultMinChars
    ensures "max_chars" !in p ==> b.maxChars == DefaultMaxChars
  {
    Bounds(IntParam(p, "min_words", DefaultMinWords), IntParam(p, "max_words", DefaultMaxWords),
           IntParam(p, "min_chars", DefaultMinChars), IntParam(p, "max_chars", DefaultMaxChars))
  }

  function BelowMinWords(words: int, min: int): string
  {
    "Word count (" + IntToString(words) + ") is below minimum (" + IntToString(min) + ")"
  }

  function AboveMaxWords(words: int, max: int): string
  {
    "Word count (" + IntToString(words) + ") exceeds maximum (" + IntToString(max) + ")"
  }

  function BelowMinChars(chars: int, min: int): string
  {
    "Character count (" + IntToString(chars) + ") is below minimum (" + IntToString(min) + ")"
  }

  function AboveMaxChars(chars: int, max: int): string
  {
    "Character count (" + IntToString(chars) + ") exceeds maximum (" + IntToString(max) + ")"
  }

  /** The issues list, built by four conditional appends. */
  function LengthIssues(words: int, chars: int, b: Bounds): seq<string>
  {
    (if words < b.minWords then [BelowMinWords(words, b.minWords)] else [])
    + (if words > b.maxWords then [AboveMaxWords(words, b.maxWords)] else [])
    + (if chars < b.minChars then [BelowMinChars(chars, b.minChars)] else [])
    + (if chars > b.maxChars then [AboveMaxChars(chars, b.maxChars)] else [])
  }

  function Indicator(c: bool): nat
  {
    if c then 1 else 0
  }

  /** Each violated bound contributes exactly one issue, words before
      characters and minimum before maximum. */
  lemma LengthIssuesPerBound(words: int, chars: int, b: Bounds)
    ensures var issues := LengthIssues(words, chars, b);
      && |issues| == Indicator(words < b.minWords) + Indicator(words > b.maxWords)
                     + Indicator(chars < b.minChars) + Indicator(chars > b.maxChars)
      && (words < b.minWords ==> issues[0] == BelowMinWords(words, b.minWords))
      && (chars > b.maxChars ==> issues[|issues| - 1] == AboveMaxChars(chars, b.maxChars))
      && (BelowMinWords(words, b.minWords) in issues <==> words < b.minWords)
      && (AboveMaxChars(chars, b.maxChars) in issues <==> chars > b.maxChars)
  {
    WordMessagesDiffer(words, b.minWords, b.maxWords);
    CharMessagesDiffer(chars, b.minChars, b.maxChars);
    assert BelowMinWords(words, b.minWords)[0] == 'W' && AboveMaxWords(words, b.maxWords)[0] == 'W';
    assert BelowMinChars(chars, b.minChars)[0] == 'C' && AboveMaxChars(chars, b.maxChars)[0] == 'C';
  }

  lemma WordMessagesDiffer(words: int, min: int, max: int)
    ensures BelowMinWords(words, min) != AboveMaxWords(words, max)
  {
    var n := |"Word count (" + IntToString(words) + ") "|;
    assert BelowMinWords(words, min)[n] == 'i';
    assert AboveMaxWords(words, max)[n] == 'e';
  }

  lemma CharMessagesDiffer(chars: int, min: int, max: int)
    ensures BelowMinChars(chars, min) != AboveMaxChars(chars, max)
  {
    var n := |"Character count (" + IntToString(chars) + ") "|;
    assert BelowMinChars(chars, min)[n] == 'i';
    assert AboveMaxChars(chars, max)[n] == 'e';
  }

  /** `validate`: passes exactly when both counts lie within their bounds,
      the bounds themselves included. */
  function Check(a: Article, p: Params): (r: CheckResult)
    ensures r.passed <==> (BoundsOf(p).minWords <= a.wordCount <= BoundsOf(p).maxWords
                           && BoundsOf(p).minChars <= CharacterCount(a) <= BoundsOf(p).maxChars)
    ensures !r.passed ==>
      && r.message == "Content length validation failed: "
                      + Join(LengthIssues(a.wordCount, CharacterCount(a), BoundsOf(p)), ", ")
      && r.details == LengthFailure(a.wordCount, CharacterCount(a), BoundsOf(p).minWords,
                                    BoundsOf(p).maxWords, BoundsOf(p).minChars, BoundsOf(p).maxChars,
                                    LengthIssues(a.wordCount, CharacterCount(a), BoundsOf(p)))
    ensures r.passed ==> r.details == Counts(a.wordCount, CharacterCount(a))
  {
    var b := BoundsOf(p);
    var issues := LengthIssues(a.wordCount, CharacterCount(a), b);
    if |issues| > 0 then
      Fail("Content length validation failed: " + Join(issues, ", "),
           LengthFailure(a.wordCount, CharacterCount(a), b.minWords, b.maxWords, b.minChars, b.maxChars, issues))
    else
      Pass("Content length is within acceptable range", Counts(a.wordCount, CharacterCount(a)))
  }
}
