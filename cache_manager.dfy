/**
 * The in-memory TTL query cache (`CacheEntry`, `CacheManager`). The store is
 * the cache dict in insertion order; the clock is the `now` parameter of the
 * operations that read it; the key digest is replaced by the pair it is
 * computed from (see GenerateKey and RawKey).
 */
module Cache {
  import opened Base
  import Text
  import Sorting
  import Dict

  /** Query parameters: the items of a dict (names unique), values given by their `repr`. */
  type Params = p: seq<(string, string)> | Dict.UniqueKeys(p) witness []

  /** Items are ordered by name, in Python's string order. */
  function ParamLe(a: (string, string), b: (string, string)): bool {
    !Text.StrLt(b.0, a.0)
  }

  lemma ParamLeTotalPreorder(s: seq<(string, string)>)
    ensures Sorting.TotalPreorderOn(s, ParamLe)
  {
    forall a, b | a in s && b in s ensures ParamLe(a, b) || ParamLe(b, a) {
      Text.StrLeTotal(a.0, b.0);
    }
    forall a, b, c | a in s && b in s && c in s && ParamLe(a, b) && ParamLe(b, c)
      ensures ParamLe(a, c)
    {
      Text.StrLeTransitive(a.0, b.0, c.0);
    }
  }

  /** A cache key: the query and its parameter items sorted by name. */
  datatype Key = Key(query: string, params: seq<(string, string)>)

  /**
   * `_generate_key`, with the SHA-256 digest of the raw text replaced by the
   * (query, sorted items) pair it should identify.
   */
  function GenerateKey(query: string, params: Params): (k: Key)
    ensures k.query == query
    ensures multiset(k.params) == multiset(params)
    ensures params == [] ==> k == Key(query, [])
  {
    Key(query, Sorting.Sort(params, ParamLe))
  }

  /**
   * Two calls address the same entry exactly when they pass the same query
   * and the same parameter items, in whatever order the dicts hold them.
   */
  lemma GenerateKeySame(q1: string, p1: Params, q2: string, p2: Params)
    ensures GenerateKey(q1, p1) == GenerateKey(q2, p2) <==> q1 == q2 && multiset(p1) == multiset(p2)
  {
    if q1 == q2 && multiset(p1) == multiset(p2) {
      var s1, s2 := Sorting.Sort(p1, ParamLe), Sorting.Sort(p2, ParamLe);
      ParamLeTotalPreorder(p1);
      ParamLeTotalPreorder(p2);
      Sorting.SortSorted(p1, ParamLe);
      Sorting.SortSorted(p2, ParamLe);
      forall x, y | x in s1 && y in s1 && ParamLe(x, y) && ParamLe(y, x) ensures x == y {
        assert x in multiset(p1) && y in multiset(p1);
        var i :| 0 <= i < |p1| && p1[i] == x;
        var j :| 0 <= j < |p1| && p1[j] == y;
        Text.StrLtTotal(x.0, y.0);
        assert i == j;
      }
      Sorting.SortedUnique(s1, s2, ParamLe);
    }
  }

  /** Python's `repr` of one (name, value) item, without escaping. */
  function ItemRepr(item: (string, string)): string {
    "('" + item.0 + "', '" + item.1 + "')"
  }

  /** `str(sorted(params.items()))` */
  function ItemsRepr(items: seq<(string, string)>): string {
    "[" + Text.Join(", ", seq(|items|, i requires 0 <= i < |items| => ItemRepr(items[i]))) + "]"
  }

  /** The text `_generate_key` hashes, as written: the query with the items' repr appended. */
  function RawKey(query: string, params: Params): string {
    if params == [] then query else query + ItemsRepr(Sorting.Sort(params, ParamLe))
  }

  /**
   * As written, the raw text of a query without parameters can equal that of
   * another query with parameters, so the two calls share one cache entry.
   */
  lemma RawKeyCollides()
    ensures RawKey("q[('a', 'b')]", []) == RawKey("q", [("a", "b")])
    ensures GenerateKey("q[('a', 'b')]", []) != GenerateKey("q", [("a", "b")])
  {
    var p: Params := [("a", "b")];
    assert Sorting.Sort(p, ParamLe) == p;
    assert ItemsRepr(p) == "[('a', 'b')]";
  }

  datatype CacheEntry<V> = CacheEntry(value: V, createdAt: int, ttl: int) {
    /** Expiry is strict: an entry exactly `ttl` old is still live. */
    predicate IsExpired(now: int) {
      now - createdAt > ttl
    }
  }

  /** `ttl or default_ttl`: a missing or zero TTL means the default. */
  function EffectiveTtl(ttl: Option<int>, defaultTtl: int): (r: int)
    ensures ttl == None || ttl == Some(0) ==> r == defaultTtl
    ensures ttl.Some? && ttl.value != 0 ==> r == ttl.value
    ensures r == 0 ==> defaultTtl == 0
    ensures r != defaultTtl ==> ttl == Some(r)
  {
    if ttl.Some? && ttl.value != 0 then ttl.value else defaultTtl
  }

  /**
   * The position of the entry `_evict_oldest` removes: the smallest
   * `created_at`, the first of equal ones in dict order (as `min` picks).
   */
  function OldestIndex<V>(d: seq<(Key, CacheEntry<V>)>): (i: nat)
    requires d != []
    ensures i < |d|
    ensures forall j | 0 <= j < |d| :: d[i].1.createdAt <= d[j].1.createdAt
    ensures forall j | 0 <= j < i :: d[j].1.createdAt > d[i].1.createdAt
  {
    if |d| == 1 then 0
    else
      var t := 1 + OldestIndex(d[1..]);
      if d[0].1.createdAt <= d[t].1.createdAt then 0 else t
  }

  lemma OldestIndexUnique<V>(d: seq<(Key, CacheEntry<V>)>, i: nat)
    requires i < |d|
    requires forall j | 0 <= j < |d| :: d[i].1.createdAt <= d[j].1.createdAt
    requires forall j | 0 <= j < i :: d[j].1.createdAt > d[i].1.createdAt
    ensures i == OldestIndex(d)
  {
  }

  /** The store after `_evict_oldest`. */
  function Evicted<V>(d: seq<(Key, CacheEntry<V>)>): seq<(Key, CacheEntry<V>)> {
    if d == [] then [] else Dict.Delete(d, d[OldestIndex(d)].0)
  }

  /** Eviction removes exactly one entry, one with the smallest `created_at`, and keeps all others. */
  lemma EvictedSpec<V>(d: seq<(Key, CacheEntry<V>)>)
    requires d != [] && Dict.UniqueKeys(d)
    ensures |Evicted(d)| == |d| - 1
    ensures Dict.UniqueKeys(Evicted(d))
    ensures forall j | 0 <= j < |d| :: d[OldestIndex(d)].1.createdAt <= d[j].1.createdAt
    ensures d[OldestIndex(d)].0 !in Dict.Keys(Evicted(d))
    ensures forall j | 0 <= j < |d| && j != OldestIndex(d) :: d[j] in Evicted(d)
  {
    var o := OldestIndex(d);
    var k := d[o].0;
    var r := Evicted(d);
    assert k in Dict.Keys(d);
    Dict.DeleteUnique(d, k);
    forall j | 0 <= j < |d| && j != o ensures d[j] in r {
      Dict.GetAt(d, j);
      assert Dict.Get(r, d[j].0) == Some(d[j].1);
    }
  }

  /** The store after `set`: evict when full (even if the key is present), then write. */
  function Stored<V>(d: seq<(Key, CacheEntry<V>)>, maxEntries: int, k: Key, e: CacheEntry<V>)
    : (r: seq<(Key, CacheEntry<V>)>)
    ensures Dict.Get(r, k) == Some(e)
  {
    Dict.PutSpec(if |d| >= maxEntries then Evicted(d) else d, k, e);
    Dict.Put(if |d| >= maxEntries then Evicted(d) else d, k, e)
  }

  /** The value `get` returns. */
  function Lookup<V>(d: seq<(Key, CacheEntry<V>)>, k: Key, now: int): (r: Option<V>)
    ensures r.Some? ==> exists i | 0 <= i < |d| :: d[i].0 == k && !d[i].1.IsExpired(now) && r.value == d[i].1.value
    ensures k !in Dict.Keys(d) ==> r == None
    ensures Dict.Get(d, k).Some? && !Dict.Get(d, k).value.IsExpired(now) ==> r == Some(Dict.Get(d, k).value.value)
  {
    match Dict.Get(d, k)
    case None => None
    case Some(e) => if e.IsExpired(now) then None else Some(e.value)
  }

  /** In a store with one entry per key, a live entry stored under the key is what `get` returns. */
  lemma LookupFindsLiveEntry<V>(d: seq<(Key, CacheEntry<V>)>, i: nat, now: int)
    requires Dict.UniqueKeys(d) && i < |d|
    requires !d[i].1.IsExpired(now)
    ensures Lookup(d, d[i].0, now) == Some(d[i].1.value)
  {
    Dict.GetAt(d, i);
  }

  /** The store after `get`: an expired entry is deleted, nothing else changes. */
  function AfterLookup<V>(d: seq<(Key, CacheEntry<V>)>, k: Key, now: int): seq<(Key, CacheEntry<V>)> {
    match Dict.Get(d, k)
    case None => d
    case Some(e) => if e.IsExpired(now) then Dict.Delete(d, k) else d
  }

  /** `set` then `get` with the same key, no later than `ttl` after the write, returns the value and changes nothing. */
  lemma SetThenGet<V>(d: seq<(Key, CacheEntry<V>)>, maxEntries: int, k: Key, e: CacheEntry<V>, now: int)
    requires now - e.createdAt <= e.ttl
    ensures Lookup(Stored(d, maxEntries, k, e), k, now) == Some(e.value)
    ensures AfterLookup(Stored(d, maxEntries, k, e), k, now) == Stored(d, maxEntries, k, e)
  {
    Dict.PutSpec(if |d| >= maxEntries then Evicted(d) else d, k, e);
  }

  /** An expired entry is never returned; `get` deletes it and the store shrinks by one. */
  lemma ExpiredIsDropped<V>(d: seq<(Key, CacheEntry<V>)>, k: Key, now: int)
    requires Dict.UniqueKeys(d)
    requires Dict.Get(d, k).Some? && Dict.Get(d, k).value.IsExpired(now)
    ensures Lookup(d, k, now) == None
    ensures k !in Dict.Keys(AfterLookup(d, k, now))
    ensures |AfterLookup(d, k, now)| == |d| - 1
  {
    var r := AfterLookup(d, k, now);
    assert Dict.Get(r, k) == None;
  }

  /** With a capacity of at least one, a `set` on a store within capacity stays within capacity. */
  lemma StoredWithinCapacity<V>(d: seq<(Key, CacheEntry<V>)>, maxEntries: int, k: Key, e: CacheEntry<V>)
    requires Dict.UniqueKeys(d) && 1 <= maxEntries && |d| <= maxEntries
    ensures |Stored(d, maxEntries, k, e)| <= maxEntries
    ensures Dict.UniqueKeys(Stored(d, maxEntries, k, e))
  {
    var base := if |d| >= maxEntries then Evicted(d) else d;
    if |d| >= maxEntries { EvictedSpec(d); }
    Dict.PutSpec(base, k, e);
    Dict.PutUnique(base, k, e);
  }

  /**
   * Overwriting a key of a full cache still evicts: when the oldest entry is
   * another key, the cache ends up one entry smaller.
   */
  lemma OverwriteOfFullCacheShrinks<V>(d: seq<(Key, CacheEntry<V>)>, maxEntries: int, k: Key, e: CacheEntry<V>)
    requires Dict.UniqueKeys(d) && 1 <= maxEntries && |d| == maxEntries
    requires k in Dict.Keys(d) && d[OldestIndex(d)].0 != k
    ensures |Stored(d, maxEntries, k, e)| == maxEntries - 1
  {
    EvictedSpec(d);
    var r := Evicted(d);
    assert Dict.Get(r, k) == Dict.Get(d, k);
    Dict.PutSpec(r, k, e);
  }

  /** Capacity 2, three writes with increasing clocks: the first key is the one evicted. */
  lemma ThirdWriteEvictsFirst<V>(k1: Key, k2: Key, k3: Key, e1: CacheEntry<V>, e2: CacheEntry<V>, e3: CacheEntry<V>)
    requires k1 != k2 && k2 != k3 && k1 != k3
    requires e1.createdAt < e2.createdAt
    ensures Stored(Stored(Stored([], 2, k1, e1), 2, k2, e2), 2, k3, e3) == [(k2, e2), (k3, e3)]
  {
    var d1: seq<(Key, CacheEntry<V>)> := [(k1, e1)];
    assert Stored([], 2, k1, e1) == d1;
    var d := [(k1, e1), (k2, e2)];
    assert Dict.Put(d1, k2, e2) == [d1[0]] + Dict.Put(d1[1..], k2, e2);
    assert Stored(d1, 2, k2, e2) == d;
    assert OldestIndex(d) == 0;
    assert Evicted(d) == [(k2, e2)] by {
      assert Dict.Delete(d, k1) == d[1..];
    }
    var d2 := [(k2, e2)];
    assert Dict.Put(d2, k3, e3) == [d2[0]] + Dict.Put(d2[1..], k3, e3);
  }

  /** Number of entries past their TTL at `now`. */
  function ExpiredCount<V>(d: seq<(Key, CacheEntry<V>)>, now: int): (n: nat)
    ensures n <= |d|
  {
    if d == [] then 0
    else ExpiredCount(d[..|d| - 1], now) + (if d[|d| - 1].1.IsExpired(now) then 1 else 0)
  }

  datatype CacheStats = CacheStats(totalEntries: nat, expiredEntries: nat, activeEntries: nat, maxEntries: int)

  class CacheManager<V> {
    const defaultTtl: int
    const maxEntries: int
    /** The `_cache` dict, in insertion order. */
    var cache: seq<(Key, CacheEntry<V>)>

    ghost predicate Valid()
      reads this
    {
      Dict.UniqueKeys(cache) && (maxEntries >= 1 ==> |cache| <= maxEntries)
    }

    constructor(defaultTtl: int, maxEntries: int)
      ensures Valid()
      ensures this.defaultTtl == defaultTtl && this.maxEntries == maxEntries && cache == []
    {
      this.defaultTtl := defaultTtl;
      this.maxEntries := maxEntries;
      cache := [];
    }

    function Size(): nat
      reads this
    {
      |cache|
    }

    method Get(query: string, params: Params, now: int) returns (r: Option<V>)
      requires Valid()
      modifies this
      ensures Valid()
      ensures r == Lookup(old(cache), GenerateKey(query, params), now)
      ensures cache == AfterLookup(old(cache), GenerateKey(query, params), now)
      ensures Dict.Get(old(cache), GenerateKey(query, params)).None? ==> r == None && cache == old(cache)
    {
      var key := GenerateKey(query, params);
      var entry := Dict.Get(cache, key);
      if entry.None? {
        return None;
      }
      if entry.value.IsExpired(now) {
        Dict.DeleteUnique(cache, key);
        cache := Dict.Delete(cache, key);
        return None;
      }
      return Some(entry.value.value);
    }

    method Set(query: string, value: V, params: Params, ttl: Option<int>, now: int)
      requires Valid()
      modifies this
      ensures Valid()
      ensures cache == Stored(old(cache), maxEntries, GenerateKey(query, params),
                              CacheEntry(value, now, EffectiveTtl(ttl, defaultTtl)))
    {
      var key := GenerateKey(query, params);
      var entry := CacheEntry(value, now, EffectiveTtl(ttl, defaultTtl));
      ghost var before := cache;
      if |cache| >= maxEntries {
        EvictOldest();
      }
      if |before| != 0 && |before| >= maxEntries { EvictedSpec(before); }
      Dict.PutUnique(cache, key, entry);
      if maxEntries >= 1 { StoredWithinCapacity(before, maxEntries, key, entry); }
      cache := Dict.Put(cache, key, entry);
    }

    /** `_evict_oldest`: one scan for the first smallest `created_at`, then delete it. */
    method EvictOldest()
      requires Dict.UniqueKeys(cache)
      modifies this
      ensures cache == Evicted(old(cache))
    {
      if cache == [] {
        return;
      }
      var oldest := 0;
      var i := 1;
      while i < |cache|
        invariant 1 <= i <= |cache| && oldest < i
        invariant forall j | 0 <= j < i :: cache[oldest].1.createdAt <= cache[j].1.createdAt
        invariant forall j | 0 <= j < oldest :: cache[j].1.createdAt > cache[oldest].1.createdAt
      {
        if cache[i].1.createdAt < cache[oldest].1.createdAt {
          oldest := i;
        }
        i := i + 1;
      }
      OldestIndexUnique(cache, oldest);
      cache := Dict.Delete(cache, cache[oldest].0);
    }

    method Invalidate(query: string, params: Params)
      requires Valid()
      modifies this
      ensures Valid()
      ensures cache == Dict.Delete(old(cache), GenerateKey(query, params))
    {
      var key := GenerateKey(query, params);
      if key in Dict.Keys(cache) {
        Dict.DeleteUnique(cache, key);
        cache := Dict.Delete(cache, key);
      }
    }

    method Clear()
      modifies this
      ensures Valid() && cache == []
    {
      cache := [];
    }

    /** A read-only snapshot: expired entries are counted, not removed. */
    method Stats(now: int) returns (s: CacheStats)
      ensures s.totalEntries == |cache|
      ensures s.expiredEntries == ExpiredCount(cache, now)
      ensures s.activeEntries == s.totalEntries - s.expiredEntries
      ensures s.maxEntries == maxEntries
    {
      var expired := 0;
      var i := 0;
      while i < |cache|
        invariant 0 <= i <= |cache|
        invariant expired == ExpiredCount(cache[..i], now)
      {
        assert cache[..i + 1][..i] == cache[..i];
        if cache[i].1.IsExpired(now) {
          expired := expired + 1;
        }
        i := i + 1;
      }
      assert cache[..|cache|] == cache;
      s := CacheStats(|cache|, expired, |cache| - expired, maxEntries);
    }
  }
}
