/** The feed registry: feed configuration rows plus a key-value cache in
    front of them.

    Per-name reads go through the key `ReadKey(name)` with a lifetime of zero
    seconds, and a zero-lifetime store forgets the key instead of writing it,
    so per-name reads are never served from the cache. Invalidation forgets a
    different key, `InvalidationKey(name)`, which nothing ever writes. The
    list of active feeds is cached under `ActiveFeedsKey` and is forgotten by
    every registration and every update that matches a row. */
module FeedRegistryService {
  import opened Text
  import opened Domain

  const ActiveFeedsKey := "active_feeds"

  function ReadKey(name: string): string
  {
    "feed_config_1" + name
  }

  function InvalidationKey(name: string): string
  {
    "feed_config_" + name
  }

  /** A cached value: the active-feed list, or one feed looked up by name. */
  datatype Cached = ActiveFeedList(feeds: seq<FeedConfig>) | OneFeed(feed: Option<FeedConfig>)

  /** `FeedConfig::where('name', $name)->first()`. */
  function Lookup(feeds: seq<FeedConfig>, name: string): (r: Option<FeedConfig>)
    ensures r.Some? ==> r.value in feeds && r.value.name == name
    ensures r.None? <==> forall f :: f in feeds ==> f.name != name
  {
    if feeds == [] then None
    else if feeds[0].name == name then Some(feeds[0])
    else Lookup(feeds[1..], name)
  }

  /** `FeedConfig::where('is_active', true)->get()`, in table order. */
  function ActiveOf(feeds: seq<FeedConfig>): (r: seq<FeedConfig>)
    ensures |r| <= |feeds|
    ensures forall f :: f in r <==> f in feeds && f.isActive
  {
    if feeds == [] then []
    else
      var last := feeds[|feeds| - 1];
      assert feeds == feeds[..|feeds| - 1] + [last];
      ActiveOf(feeds[..|feeds| - 1]) + (if last.isActive then [last] else [])
  }

  /** The columns an update may set; `None` leaves a column as it is. */
  datatype FeedPatch = FeedPatch(
    name: Option<string>,
    displayName: Option<string>,
    configuration: Option<Params>,
    complianceRules: Option<seq<string>>,
    isActive: Option<bool>,
    apiEndpoint: Option<string>)

  function Patched(f: FeedConfig, p: FeedPatch): (g: FeedConfig)
    ensures g.name == (if p.name.Some? then p.name.value else f.name)
    ensures g.isActive == (if p.isActive.Some? then p.isActive.value else f.isActive)
  {
    FeedConfig(
      if p.name.Some? then p.name.value else f.name,
      if p.displayName.Some? then p.displayName.value else f.displayName,
      if p.configuration.Some? then p.configuration.value else f.configuration,
      if p.complianceRules.Some? then p.complianceRules.value else f.complianceRules,
      if p.isActive.Some? then p.isActive.value else f.isActive,
      if p.apiEndpoint.Some? then p.apiEndpoint.value else f.apiEndpoint)
  }

  /** The rows after `where('name', $name)->update($patch)`. */
  function UpdateRows(feeds: seq<FeedConfig>, name: string, p: FeedPatch): (r: seq<FeedConfig>)
    ensures |r| == |feeds|
    ensures forall i :: 0 <= i < |feeds| ==>
      r[i] == (if feeds[i].name == name then Patched(feeds[i], p) else feeds[i])
  {
    seq(|feeds|, i requires 0 <= i < |feeds| =>
      if feeds[i].name == name then Patched(feeds[i], p) else feeds[i])
  }

  /** The message of the database error raised by a duplicate feed name. */
  const DuplicateName := "Integrity constraint violation: duplicate entry for feed_configs.name"

  /** For one and the same feed, the invalidated key is never the read key. */
  lemma InvalidationMissesReadKey(name: string)
    ensures InvalidationKey(name) != ReadKey(name)
  {
    assert |InvalidationKey(name)| != |ReadKey(name)|;
  }

  /** The keys only coincide across feeds: invalidating the feed "1" + n
      forgets the read key of feed n. */
  lemma InvalidationKeyCollision(name: string)
    ensures InvalidationKey("1" + name) == ReadKey(name)
  {
    assert "feed_config_" + ("1" + name) == "feed_config_1" + name;
  }

  class FeedRegistry {
    var feeds: seq<FeedConfig>
    var cache: map<string, Cached>

    /** Feed names are unique, a cached active-feed list is the current one,
        and no per-name read key is ever stored. */
    ghost predicate Valid()
      reads this
    {
      && UniqueFeedNames(feeds)
      && (ActiveFeedsKey in cache ==> cache[ActiveFeedsKey] == ActiveFeedList(ActiveOf(feeds)))
      && (forall n :: ReadKey(n) !in cache)
    }

    constructor(feeds: seq<FeedConfig>)
      requires UniqueFeedNames(feeds)
      ensures Valid()
      ensures this.feeds == feeds && cache == map[]
    {
      this.feeds := feeds;
      cache := map[];
    }

    /** `getFeedConfig`: `Cache::remember(ReadKey(name), 0, ...)`. The key is
        never present, so the rows are always read, and storing the result
        for zero seconds forgets the key: the cache ends as it was. */
    method GetFeedConfig(name: string) returns (r: Option<FeedConfig>)
      requires Valid()
      modifies this
      ensures Valid()
      ensures r == Lookup(feeds, name)
      ensures feeds == old(feeds) && cache == old(cache)
    {
      r := Lookup(feeds, name);
      cache := cache - {ReadKey(name)};
    }

    /** `getActiveFeeds`: `Cache::remember('active_feeds', 3600, ...)`. */
    method GetActiveFeeds() returns (r: seq<FeedConfig>)
      requires Valid()
      modifies this
      ensures Valid()
      ensures r == ActiveOf(feeds)
      ensures feeds == old(feeds)
      ensures cache == old(cache)[ActiveFeedsKey := ActiveFeedList(r)]
    {
      if ActiveFeedsKey in cache {
        r := cache[ActiveFeedsKey].feeds;
      } else {
        r := ActiveOf(feeds);
        cache := cache[ActiveFeedsKey := ActiveFeedList(r)];
      }
    }

    /** The cache dropping an entry whose lifetime is over. */
    method Expire(key: string)
      requires Valid()
      modifies this
      ensures Valid()
      ensures feeds == old(feeds) && cache == old(cache) - {key}
    {
      cache := cache - {key};
    }

    /** `registerFeed`: creates the row, then forgets `InvalidationKey(name)`
        and the active-feed list. A duplicate name is refused by the table's
        unique index and changes nothing. */
    method RegisterFeed(data: FeedConfig) returns (r: Result<FeedConfig>)
      requires Valid()
      modifies this
      ensures Valid()
      ensures Lookup(old(feeds), data.name).Some? ==>
        r == Err(DuplicateName) && feeds == old(feeds) && cache == old(cache)
      ensures Lookup(old(feeds), data.name).None? ==>
        && r == Ok(data)
        && feeds == old(feeds) + [data]
        && cache == old(cache) - {InvalidationKey(data.name), ActiveFeedsKey}
    {
      if Lookup(feeds, data.name).Some? {
        return Err(DuplicateName);
      }
      feeds := feeds + [data];
      cache := cache - {InvalidationKey(data.name)};
      cache := cache - {ActiveFeedsKey};
      r := Ok(data);
    }

    /** `updateFeed`: updates the rows named `name`; only when one matched
        are `InvalidationKey(name)` and the active-feed list forgotten. A
        rename onto another feed's name is refused by the unique index. */
    method UpdateFeed(name: string, patch: FeedPatch) returns (r: Result<bool>)
      requires Valid()
      modifies this
      ensures Valid()
      ensures Lookup(old(feeds), name).None? ==> r == Ok(false) && feeds == old(feeds) && cache == old(cache)
      ensures Lookup(old(feeds), name).Some? && patch.name.Some? && patch.name.value != name
              && Lookup(old(feeds), patch.name.value).Some? ==>
        r == Err(DuplicateName) && feeds == old(feeds) && cache == old(cache)
      ensures r.Err? <==> Lookup(old(feeds), name).Some? && patch.name.Some? && patch.name.value != name
                          && Lookup(old(feeds), patch.name.value).Some?
      ensures r.Err? ==> r == Err(DuplicateName) && feeds == old(feeds) && cache == old(cache)
      ensures Lookup(old(feeds), name).Some?
              && !(patch.name.Some? && patch.name.value != name && Lookup(old(feeds), patch.name.value).Some?) ==>
        r == Ok(true)
      ensures r == Ok(true) ==>
        && feeds == UpdateRows(old(feeds), name, patch)
        && cache == old(cache) - {InvalidationKey(name), ActiveFeedsKey}
      ensures r.Ok? ==> (r.value <==> Lookup(old(feeds), name).Some?)
    {
      if Lookup(feeds, name).None? {
        return Ok(false);
      }
      if patch.name.Some? && patch.name.value != name && Lookup(feeds, patch.name.value).Some? {
        return Err(DuplicateName);
      }
      UpdateKeepsNamesUnique(feeds, name, patch);
      feeds := UpdateRows(feeds, name, patch);
      cache := cache - {InvalidationKey(name)};
      cache := cache - {ActiveFeedsKey};
      r := Ok(true);
    }

    /** `isFeedActive`: a row with that name exists and is active. */
    method IsFeedActive(name: string) returns (b: bool)
      requires Valid()
      modifies this
      ensures Valid()
      ensures b <==> exists f :: f in feeds && f.name == name && f.isActive
      ensures feeds == old(feeds) && cache == old(cache)
    {
      var feed := GetFeedConfig(name);
      b := feed.Some? && feed.value.isActive;
      if !b && feed.Some? {
        LookupUnique(feeds, name);
      }
    }
  }

  /** With unique names, the row found is the only one with that name. */
  lemma LookupUnique(feeds: seq<FeedConfig>, name: string)
    requires UniqueFeedNames(feeds) && Lookup(feeds, name).Some?
    ensures forall f :: f in feeds && f.name == name ==> f == Lookup(feeds, name).value
  {
    forall f | f in feeds && f.name == name ensures f == Lookup(feeds, name).value {
      var i :| 0 <= i < |feeds| && feeds[i] == f;
      var g := Lookup(feeds, name).value;
      var j :| 0 <= j < |feeds| && feeds[j] == g;
      assert feeds[i].name == feeds[j].name;
    }
  }

  /** An update that renames a row onto a free name, or keeps the name,
      keeps names unique. */
  lemma UpdateKeepsNamesUnique(feeds: seq<FeedConfig>, name: string, p: FeedPatch)
    requires UniqueFeedNames(feeds)
    requires p.name.Some? && p.name.value != name ==> Lookup(feeds, p.name.value).None?
    ensures UniqueFeedNames(UpdateRows(feeds, name, p))
  {
    var r := UpdateRows(feeds, name, p);
    forall i, j | 0 <= i < j < |r| ensures r[i].name != r[j].name {
      if feeds[i].name == name && p.name.Some? {
        assert feeds[j] in feeds;
      } else if feeds[j].name == name && p.name.Some? {
        assert feeds[i] in feeds;
      }
    }
  }

  /** A read right after a registration sees the new row. */
  lemma RegisteredFeedIsFound(feeds: seq<FeedConfig>, data: FeedConfig)
    requires Lookup(feeds, data.name).None?
    ensures Lookup(feeds + [data], data.name) == Some(data)
  {
    if feeds != [] {
      assert (feeds + [data])[1..] == feeds[1..] + [data];
      RegisteredFeedIsFound(feeds[1..], data);
    }
  }

  /** A read right after an update that matched sees the patched row,
      under its new name when the update renamed it. */
  lemma {:induction false} UpdatedFeedIsFound(feeds: seq<FeedConfig>, name: string, p: FeedPatch)
    requires UniqueFeedNames(feeds) && Lookup(feeds, name).Some?
    requires p.name.Some? && p.name.value != name ==> Lookup(feeds, p.name.value).None?
    ensures var n := if p.name.Some? then p.name.value else name;
      Lookup(UpdateRows(feeds, name, p), n) == Some(Patched(Lookup(feeds, name).value, p))
  {
    var r := UpdateRows(feeds, name, p);
    var n := if p.name.Some? then p.name.value else name;
    if feeds[0].name != name {
      assert r[1..] == UpdateRows(feeds[1..], name, p);
      assert UniqueFeedNames(feeds[1..]);
      UpdatedFeedIsFound(feeds[1..], name, p);
      assert r[0] == feeds[0] && feeds[0] in feeds;
      assert r[0].name != n;
    }
  }
}
