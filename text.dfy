/** Strings and the few PHP string built-ins the core relies on, plus the
    Option/Result wrappers used for nullable values and thrown exceptions. */
module Text {

  datatype Option<T> = None | Some(value: T)

  /** A computation that either returns a value or throws an exception
      carrying a message. */
  datatype Result<T> = Ok(value: T) | Err(error: string)

  /** PHP `empty()` / falsy test on a string (null is modelled as ""):
      both "" and "0" are empty. */
  predicate Empty(s: string)
  {
    s == "" || s == "0"
  }

  function LowerChar(c: char): char
  {
    if 'A' <= c <= 'Z' then (c as int + 32) as char else c
  }

  function UpperChar(c: char): char
  {
    if 'a' <= c <= 'z' then (c as int - 32) as char else c
  }

  /** `strtolower`: ASCII letters only. */
  function Lower(s: string): (r: string)
    ensures |r| == |s|
    ensures forall i :: 0 <= i < |s| ==> r[i] == LowerChar(s[i])
  {
    seq(|s|, i requires 0 <= i < |s| => LowerChar(s[i]))
  }

  lemma LowerConcat(s: string, t: string)
    ensures Lower(s + t) == Lower(s) + Lower(t)
  {
    assert forall i :: 0 <= i < |s + t| ==> Lower(s + t)[i] == (Lower(s) + Lower(t))[i];
  }

  predicate StartsWith(s: string, prefix: string)
  {
    |prefix| <= |s| && s[..|prefix|] == prefix
  }

  /** `strpos($s, $needle) !== false`; an empty needle is found at 0. */
  predicate Contains(s: string, needle: string)
    decreases |s|
  {
    StartsWith(s, needle) || (|s| > 0 && Contains(s[1..], needle))
  }

  lemma {:induction false} ContainsInPrefix(s: string, t: string, needle: string)
    requires Contains(s, needle)
    ensures Contains(s + t, needle)
    decreases |s|
  {
    if StartsWith(s, needle) {
      assert (s + t)[..|needle|] == s[..|needle|];
    } else {
      assert (s + t)[1..] == s[1..] + t;
      ContainsInPrefix(s[1..], t, needle);
    }
  }

  lemma {:induction false} ContainsInSuffix(s: string, t: string, needle: string)
    requires Contains(t, needle)
    ensures Contains(s + t, needle)
    decreases |s|
  {
    if s != [] {
      assert (s + t)[1..] == s[1..] + t;
      ContainsInSuffix(s[1..], t, needle);
    } else {
      assert s + t == t;
    }
  }

  /** A needle none of whose adjacent character pairs occurs in `s` is not
      contained in `s`; the pair at `k` is the witness. */
  lemma {:induction false} NotContainsPair(s: string, needle: string, k: nat)
    requires k + 1 < |needle|
    requires forall i :: 0 <= i < |s| - 1 ==> !(s[i] == needle[k] && s[i + 1] == needle[k + 1])
    ensures !Contains(s, needle)
    decreases |s|
  {
    if |s| > 0 {
      NotContainsPair(s[1..], needle, k);
    }
    if |needle| <= |s| {
      assert !(s[k] == needle[k] && s[k + 1] == needle[k + 1]);
      assert s[..|needle|][k] == s[k] && s[..|needle|][k + 1] == s[k + 1];
    }
  }

  /** `implode($sep, $parts)`. */
  function Join(parts: seq<string>, sep: string): string
  {
    if |parts| == 0 then ""
    else if |parts| == 1 then parts[0]
    else parts[0] + sep + Join(parts[1..], sep)
  }

  function DigitChar(d: nat): char
    requires d < 10
  {
    "0123456789"[d]
  }

  /** Decimal rendering of a non-negative integer, as PHP interpolates it. */
  function NatToString(n: nat): (r: string)
    ensures |r| > 0
  {
    if n < 10 then [DigitChar(n)] else NatToString(n / 10) + [DigitChar(n % 10)]
  }

  function IntToString(i: int): string
  {
    if i < 0 then "-" + NatToString(-i) else NatToString(i)
  }

  /** `str_ireplace($search, $replace, $subject)` for one non-empty search
      string: every case-insensitive occurrence, scanned left to right
      without overlap, is replaced. */
  function IReplace(subject: string, search: string, replacement: string): string
    requires search != ""
    decreases |subject|
  {
    if |subject| < |search| then subject
    else if Lower(subject[..|search|]) == Lower(search) then
      replacement + IReplace(subject[|search|..], search, replacement)
    else
      [subject[0]] + IReplace(subject[1..], search, replacement)
  }

  /** A subject that does not mention the search string, in any case, is
      left as it is. */
  lemma {:induction false} IReplaceNoMatch(subject: string, search: string, replacement: string)
    requires search != "" && !Contains(Lower(subject), Lower(search))
    ensures IReplace(subject, search, replacement) == subject
    decreases |subject|
  {
    if |subject| >= |search| {
      assert Lower(subject)[..|search|] == Lower(subject[..|search|]);
      assert Lower(subject)[1..] == Lower(subject[1..]);
      IReplaceNoMatch(subject[1..], search, replacement);
      assert [subject[0]] + subject[1..] == subject;
    }
  }

  lemma LowerIdempotent(s: string)
    ensures Lower(Lower(s)) == Lower(s)
  {
  }

  /** Case-insensitive `stripos`-style containment. */
  predicate IContains(s: string, needle: string)
  {
    Contains(Lower(s), Lower(needle))
  }

  /** `str_replace('_', ' ', $s)`. */
  function UnderscoresToSpaces(s: string): (r: string)
    ensures |r| == |s|
    ensures forall i :: 0 <= i < |s| ==> r[i] == if s[i] == '_' then ' ' else s[i]
  {
    seq(|s|, i requires 0 <= i < |s| => if s[i] == '_' then ' ' else s[i])
  }

  /** The word delimiters `ucwords` uses by default. */
  predicate WordDelimiter(c: char)
  {
    c == ' ' || c == '\t' || c == '\r' || c == '\n' || c as int == 11 || c as int == 12
  }

  /** `ucwords($s)`: upper-cases the first character and every character
      that follows a delimiter. */
  function UcWords(s: string): (r: string)
    ensures |r| == |s|
    ensures forall i :: 0 <= i < |s| ==> r[i] == UcWordsChar(s, i)
  {
    seq(|s|, i requires 0 <= i < |s| => UcWordsChar(s, i))
  }

  /** Character `i` of `ucwords($s)`. */
  function UcWordsChar(s: string, i: nat): char
    requires i < |s|
  {
    if i == 0 || WordDelimiter(s[i - 1]) then UpperChar(s[i]) else s[i]
  }
}
