/** PHP arrays with string keys, used as ordered maps: a sequence of
    entries, each carrying its own key. Assigning to a present key replaces
    the entry in place; assigning to a new key appends it. */
module OrderedMaps {

  function Keys<T>(entries: seq<T>, key: T -> string): (ks: seq<string>)
    ensures |ks| == |entries|
    ensures forall i :: 0 <= i < |entries| ==> ks[i] == key(entries[i])
  {
    seq(|entries|, i requires 0 <= i < |entries| => key(entries[i]))
  }

  predicate UniqueKeys<T>(entries: seq<T>, key: T -> string)
  {
    forall i, j :: 0 <= i < j < |entries| ==> key(entries[i]) != key(entries[j])
  }

  /** The position of key `k`, or -1 when it is absent. */
  function Find<T>(entries: seq<T>, key: T -> string, k: string): (i: int)
    ensures -1 <= i < |entries|
    ensures 0 <= i ==> key(entries[i]) == k && forall j :: 0 <= j < i ==> key(entries[j]) != k
    ensures i == -1 <==> forall j :: 0 <= j < |entries| ==> key(entries[j]) != k
  {
    if entries == [] then -1
    else if key(entries[0]) == k then 0
    else
      var r := Find(entries[1..], key, k);
      if r == -1 then -1 else r + 1
  }

  /** `$array[key(e)] = e`. */
  function Assign<T>(entries: seq<T>, key: T -> string, e: T): (r: seq<T>)
    ensures key(e) in Keys(entries, key) ==> Keys(r, key) == Keys(entries, key)
    ensures key(e) !in Keys(entries, key) ==> Keys(r, key) == Keys(entries, key) + [key(e)]
    ensures e in r
    ensures forall i :: 0 <= i < |entries| && key(entries[i]) != key(e) ==> r[i] == entries[i]
    ensures UniqueKeys(entries, key) ==> UniqueKeys(r, key)
  {
    var i := Find(entries, key, key(e));
    if i < 0 then
      assert Keys(entries + [e], key) == Keys(entries, key) + [key(e)];
      entries + [e]
    else
      assert Keys(entries[i := e], key) == Keys(entries, key);
      entries[i := e]
  }

  /** The keys after an assignment: the old ones and the assigned one. */
  lemma AssignKeySet<T>(entries: seq<T>, key: T -> string, e: T)
    ensures forall n :: n in Keys(Assign(entries, key, e), key) <==> n in Keys(entries, key) || n == key(e)
  {
    var ks := Keys(entries, key);
    if key(e) !in ks {
      assert Keys(Assign(entries, key, e), key) == ks + [key(e)];
    }
  }

  /** An assignment adds `e` and otherwise keeps only old entries. */
  lemma AssignMembers<T>(entries: seq<T>, key: T -> string, e: T)
    ensures forall m :: m in Assign(entries, key, e) ==> m in entries || m == e
  {
    var i := Find(entries, key, key(e));
    if i >= 0 {
      forall m | m in entries[i := e] ensures m in entries || m == e {
        var k :| 0 <= k < |entries| && entries[i := e][k] == m;
        if k != i {
          assert entries[k] == m;
        }
      }
    }
  }

  /** The entry stored under key `k`, when there is one. */
  lemma AssignedValue<T>(entries: seq<T>, key: T -> string, e: T)
    ensures var r := Assign(entries, key, e);
      Find(r, key, key(e)) >= 0 && r[Find(r, key, key(e))] == e
  {
    var r := Assign(entries, key, e);
    var i := Find(entries, key, key(e));
    if i >= 0 {
      assert r[i] == e;
      assert Find(r, key, key(e)) == i;
    } else {
      assert r[|entries|] == e;
      assert Find(r, key, key(e)) == |entries|;
    }
  }

  /** Assigning under one key leaves where every other key is found, and
      the entry found there, unchanged. */
  lemma FindOther<T>(entries: seq<T>, key: T -> string, e: T, k: string)
    requires k != key(e)
    ensures Find(Assign(entries, key, e), key, k) == Find(entries, key, k)
    ensures Find(entries, key, k) >= 0 ==>
      Assign(entries, key, e)[Find(entries, key, k)] == entries[Find(entries, key, k)]
  {
    var r := Assign(entries, key, e);
    var i := Find(entries, key, k);
    var ks := Keys(entries, key);
    assert forall m :: 0 <= m < |entries| ==> key(r[m]) == ks[m] == key(entries[m]) by {
      if key(e) in ks {
        assert Keys(r, key) == ks;
      } else {
        assert Keys(r, key) == ks + [key(e)];
      }
    }
    if key(e) !in ks {
      assert |r| == |entries| + 1 && r[|entries|] == e by {
        assert Keys(r, key) == ks + [key(e)];
        assert e in r;
      }
    } else {
      assert |r| == |entries| by {
        assert Keys(r, key) == ks;
      }
    }
    var j := Find(r, key, k);
    if i >= 0 {
      assert key(r[i]) == k;
      assert j <= i;
      assert j == i;
    } else {
      assert j == -1;
    }
  }
}
