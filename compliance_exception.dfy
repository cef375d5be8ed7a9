/** The exception that carries the failed compliance checks of a publish
    attempt, and the filter that selects them from a result map. */
module ComplianceExceptions {
  import opened Text
  import opened Domain
  import opened OrderedMaps

  /** `ComplianceException($message, $failedChecks, $code)`; the failed
      checks are a result map keyed by rule name. */
  datatype ComplianceException = ComplianceException(message: string, failedChecks: seq<CheckEntry>, code: int)

  /** The constructor with `failedChecks` and `code` left at their defaults. */
  function WithMessage(message: string): (e: ComplianceException)
    ensures e.message == message && e.failedChecks == [] && e.code == 0
  {
    ComplianceException(message, [], 0)
  }

  /** `getFailedCheckNames`: the keys of the failed-check map, in order. */
  function FailedCheckNames(e: ComplianceException): (names: seq<string>)
    ensures |names| == |e.failedChecks|
    ensures forall i :: 0 <= i < |names| ==> names[i] == e.failedChecks[i].rule
  {
    Keys(e.failedChecks, EntryRule)
  }

  const NoMessage := "No message provided"

  /** One entry of `getFailedCheckMessages`: a key and its message. */
  datatype CheckMessage = CheckMessage(rule: string, message: string)

  function MessageOf(c: CheckEntry): string
  {
    match c.message
    case Some(m) => m
    case None => NoMessage
  }

  /** `getFailedCheckMessages`: each failed check's message, or the default
      when it has none, under the same key and in the same order. */
  function FailedCheckMessages(e: ComplianceException): (ms: seq<CheckMessage>)
    ensures |ms| == |e.failedChecks|
    ensures forall i :: 0 <= i < |ms| ==> ms[i].rule == e.failedChecks[i].rule
    ensures forall i :: 0 <= i < |ms| ==>
      (e.failedChecks[i].message.Some? ==> ms[i].message == e.failedChecks[i].message.value)
      && (e.failedChecks[i].message.None? ==> ms[i].message == NoMessage)
  {
    seq(|e.failedChecks|, i requires 0 <= i < |e.failedChecks| =>
      CheckMessage(e.failedChecks[i].rule, MessageOf(e.failedChecks[i])))
  }

  function MessageRule(m: CheckMessage): string
  {
    m.rule
  }

  /** The message map has exactly the keys that the name list lists. */
  lemma MessagesKeyedByNames(e: ComplianceException)
    ensures Keys(FailedCheckMessages(e), MessageRule) == FailedCheckNames(e)
  {
  }

  /** `collect($results)->filter(fn($r) => !$r['passed'])`: the failing
      entries, keys and order preserved. */
  function FailingEntries(results: seq<CheckEntry>): (failed: seq<CheckEntry>)
    ensures |failed| <= |results|
    ensures forall c :: c in failed <==> c in results && !c.passed
  {
    if results == [] then []
    else
      var last := results[|results| - 1];
      assert results == results[..|results| - 1] + [last];
      FailingEntries(results[..|results| - 1]) + (if last.passed then [] else [last])
  }

  /** Nothing failed exactly when every entry passed. */
  lemma NoFailuresIff(results: seq<CheckEntry>)
    ensures FailingEntries(results) == [] <==> forall i :: 0 <= i < |results| ==> results[i].passed
  {
    if FailingEntries(results) != [] {
      assert FailingEntries(results)[0] in FailingEntries(results);
    }
  }

  /** Filtering keeps the keys unique. */
  lemma {:induction false} FailingEntriesUnique(results: seq<CheckEntry>)
    requires UniqueKeys(results, EntryRule)
    ensures UniqueKeys(FailingEntries(results), EntryRule)
  {
    if results != [] {
      var init := results[..|results| - 1];
      var last := results[|results| - 1];
      assert UniqueKeys(init, EntryRule);
      FailingEntriesUnique(init);
      var front := FailingEntries(init);
      if !last.passed {
        var fs := front + [last];
        forall i, j | 0 <= i < j < |fs| ensures fs[i].rule != fs[j].rule {
          if j == |fs| - 1 {
            assert fs[i] in front;
            var m :| 0 <= m < |init| && init[m] == fs[i];
            assert results[m] == fs[i];
          }
        }
      }
    }
  }
}
