/** The feed configuration's queries: the rules a feed runs, and its
    publishing guidelines. */
module FeedConfigQueries {
  import opened Domain
  import opened Sorting

  /** The `whereIn('name', compliance_rules)->where('is_active', true)` part. */
  predicate Selected(feed: FeedConfig, r: Rule)
  {
    r.name in feed.complianceRules && r.isActive
  }

  /** The selected rows of the rule table, in table order. */
  function SelectedRules(feed: FeedConfig, store: seq<Rule>): (rs: seq<Rule>)
    ensures |rs| <= |store|
    ensures forall r :: r in rs <==> r in store && Selected(feed, r)
  {
    if store == [] then []
    else
      var last := store[|store| - 1];
      assert store == store[..|store| - 1] + [last];
      SelectedRules(feed, store[..|store| - 1]) + (if Selected(feed, last) then [last] else [])
  }

  function Priority(r: Rule): int
  {
    r.priority
  }

  /** `getActiveRules`: the selected rules ordered by ascending priority;
      rules of equal priority keep their table order. */
  function ActiveRules(feed: FeedConfig, store: seq<Rule>): seq<Rule>
  {
    SortBy(SelectedRules(feed, store), Priority)
  }

  /** The `guidelines` attribute: the configuration array as stored. */
  function Guidelines(feed: FeedConfig): (g: Params)
    ensures g == feed.configuration
  {
    feed.configuration
  }

  /** A rule is returned exactly when it is in the table, the feed names it
      and it is active; an active rule the feed does not name never is. */
  lemma ActiveRulesMembers(feed: FeedConfig, store: seq<Rule>, r: Rule)
    ensures r in ActiveRules(feed, store) <==> r in store && r.name in feed.complianceRules && r.isActive
  {
    SortByMembers(SelectedRules(feed, store), Priority, r);
  }

  /** The rules come in ascending priority order. */
  lemma ActiveRulesSorted(feed: FeedConfig, store: seq<Rule>)
    ensures forall i, j :: 0 <= i < j < |ActiveRules(feed, store)| ==>
      ActiveRules(feed, store)[i].priority <= ActiveRules(feed, store)[j].priority
  {
    var rs := ActiveRules(feed, store);
    assert SortedBy(rs, Priority);
    forall i, j | 0 <= i < j < |rs| ensures rs[i].priority <= rs[j].priority {
      assert Priority(rs[i]) <= Priority(rs[j]);
    }
  }

  /** Selection depends on the feed's rule list only through which names it
      contains: reordering or repeating names changes nothing. */
  lemma {:induction false} SelectionIgnoresListOrder(f: FeedConfig, g: FeedConfig, store: seq<Rule>)
    requires forall n :: n in f.complianceRules <==> n in g.complianceRules
    ensures SelectedRules(f, store) == SelectedRules(g, store)
  {
    if store != [] {
      SelectionIgnoresListOrder(f, g, store[..|store| - 1]);
    }
  }

  /** The same holds for the sorted result. */
  lemma ActiveRulesIgnoreListOrder(f: FeedConfig, g: FeedConfig, store: seq<Rule>)
    requires forall n :: n in f.complianceRules <==> n in g.complianceRules
    ensures ActiveRules(f, store) == ActiveRules(g, store)
  {
    SelectionIgnoresListOrder(f, g, store);
  }

  /** Each selected row occurs once: the selection of a table with unique
      names has unique names. */
  lemma {:induction false} SelectedRulesUnique(feed: FeedConfig, store: seq<Rule>)
    requires UniqueRuleNames(store)
    ensures UniqueRuleNames(SelectedRules(feed, store))
  {
    if store != [] {
      var init := store[..|store| - 1];
      var last := store[|store| - 1];
      assert UniqueRuleNames(init);
      SelectedRulesUnique(feed, init);
      var front := SelectedRules(feed, init);
      if Selected(feed, last) {
        var rs := front + [last];
        forall i, j | 0 <= i < j < |rs| ensures rs[i].name != rs[j].name {
          if j == |rs| - 1 {
            assert rs[i] in front;
            assert rs[i] in init;
            var m :| 0 <= m < |init| && init[m] == rs[i];
            assert store[m] == rs[i] && store[|store| - 1] == last;
          }
        }
      }
    }
  }

  /** A table with unique names yields each named, active rule once: the
      result has unique names, even when the feed repeats a name. */
  lemma ActiveRulesUnique(feed: FeedConfig, store: seq<Rule>)
    requires UniqueRuleNames(store)
    ensures UniqueRuleNames(ActiveRules(feed, store))
  {
    var sel := SelectedRules(feed, store);
    var rs := ActiveRules(feed, store);
    SelectedRulesUnique(feed, store);
    forall i, j | 0 <= i < j < |rs| ensures rs[i].name != rs[j].name {
      assert rs[i] in multiset(rs) && rs[j] in multiset(rs);
      assert rs[i] in sel && rs[j] in sel;
      var m :| 0 <= m < |sel| && sel[m] == rs[i];
      var k :| 0 <= k < |sel| && sel[k] == rs[j];
      if rs[i] == rs[j] {
        UniqueOccursOnce(sel, m);
        assert multiset(rs)[rs[i]] >= 2 by {
          TwoIndicesCount(rs, i, j);
        }
      } else if m != k {
        assert sel[m].name != sel[k].name;
      }
    }
  }

  lemma {:induction false} UniqueOccursOnce(rs: seq<Rule>, m: nat)
    requires UniqueRuleNames(rs) && m < |rs|
    ensures multiset(rs)[rs[m]] == 1
  {
    var x := rs[m];
    if |rs| == 1 {
      assert rs == [x];
    } else if m == |rs| - 1 {
      var init := rs[..|rs| - 1];
      assert rs == init + [x];
      assert x !in init;
    } else {
      var init := rs[..|rs| - 1];
      var last := rs[|rs| - 1];
      assert rs == init + [last];
      assert UniqueRuleNames(init);
      UniqueOccursOnce(init, m);
      assert init[m] == x;
      assert last != x by {
        assert rs[m].name != rs[|rs| - 1].name;
      }
    }
  }

  lemma {:induction false} TwoIndicesCount<T>(s: seq<T>, i: nat, j: nat)
    requires i < j < |s| && s[i] == s[j]
    ensures multiset(s)[s[i]] >= 2
  {
    var x := s[i];
    assert s == s[..i] + [x] + s[i + 1..];
    assert s[i + 1..][j - i - 1] == x;
    assert x in multiset(s[i + 1..]);
  }
}
