/**
 * The web front end's client-side store (web/src/AppContext.jsx): a keyed
 * cache of API responses, each stamped with the time it was written, and the
 * list of recent searches.
 *
 * The store's two state cells (`cache` and `searchHistory` in the React
 * provider) are the fields of class AppStore; the transformations the
 * provider applies to them are the pure functions and loop methods below.
 * `Date.now()` is the parameter `now` (milliseconds), and what `localStorage`
 * held when the provider started is the parameter `saved`.
 */
module AppCache {
  import opened Wrappers

  const CacheVersion: string := "1.0"
  /** Thirty minutes, in milliseconds. */
  const CacheMaxAge: int := 1000 * 60 * 30
  const CacheMaxItems: nat := 50
  /** How many searches the history keeps (the `slice(-10)`). */
  const HistoryMax: nat := 10

  datatype Entry<D> = Entry(data: D, timestamp: int)

  type Cache<D> = map<string, Entry<D>>

  /** What `localStorage` held under the cache's key when the provider started. */
  datatype Saved<D> =
    | Absent                                   // nothing stored, or the empty string
    | Unreadable                               // the text did not parse, or held no entry table
    | Stored(version: string, data: Cache<D>)  // a parsed `{version, data}` object

  /** The load filter keeps an entry only while its age is strictly below the maximum age. */
  predicate Fresh<D>(e: Entry<D>, now: int) {
    now - e.timestamp < CacheMaxAge
  }

  /** A read treats an entry as expired only once its age is strictly above the maximum age. */
  predicate Expired<D>(e: Entry<D>, now: int) {
    now - e.timestamp > CacheMaxAge
  }

  // ---------------------------------------------------------------------------
  // Loading the persisted cache
  // ---------------------------------------------------------------------------

  /**
   * The provider's cache initialiser: nothing stored, unreadable text or a
   * foreign version give the empty cache; otherwise the entries still fresh
   * at `now` are kept, each with its key and value as stored.
   */
  method LoadCache<D>(saved: Saved<D>, now: int) returns (cache: Cache<D>)
    ensures !saved.Stored? || saved.version != CacheVersion ==> cache == map[]
    ensures saved.Stored? && saved.version == CacheVersion ==>
              forall k :: k in cache <==> k in saved.data && Fresh(saved.data[k], now)
    ensures forall k :: k in cache ==> saved.Stored? && k in saved.data && cache[k] == saved.data[k]
  {
    cache := map[];
    if !saved.Stored? || saved.version != CacheVersion {
      return;
    }
    var data := saved.data;
    var pending := data.Keys;
    while pending != {}
      invariant pending <= data.Keys
      invariant forall k :: k in cache <==> k in data && k !in pending && Fresh(data[k], now)
      invariant forall k :: k in cache ==> k in data && cache[k] == data[k]
      decreases pending
    {
      var k :| k in pending;
      if Fresh(data[k], now) {
        cache := cache[k := data[k]];
      }
      pending := pending - {k};
    }
  }

  // ---------------------------------------------------------------------------
  // The size cap
  // ---------------------------------------------------------------------------

  /** A key whose entry has the smallest timestamp in `c`. */
  method OldestKey<D>(c: Cache<D>) returns (k: string)
    requires c.Keys != {}
    ensures k in c
    ensures forall j :: j in c ==> c[k].timestamp <= c[j].timestamp
  {
    var pending := c.Keys;
    k :| k in pending;
    pending := pending - {k};
    while pending != {}
      invariant pending <= c.Keys && k in c
      invariant forall j :: j in c && j !in pending ==> c[k].timestamp <= c[j].timestamp
      decreases pending
    {
      var j :| j in pending;
      if c[j].timestamp < c[k].timestamp {
        k := j;
      }
      pending := pending - {j};
    }
  }

  lemma RemoveOneKey<D>(c: Cache<D>, k: string)
    requires k in c
    ensures |c - {k}| == |c| - 1
  {
    assert (c - {k}).Keys == c.Keys - {k};
  }

  /**
   * The effect that limits the cache: a cache of at most 50 entries is left
   * alone; a larger one keeps exactly 50 of its entries, unchanged, and no
   * dropped entry is newer than a kept one. Entries are dropped oldest first,
   * which keeps the same entries as sorting newest first and taking 50.
   */
  method CapSize<D>(c: Cache<D>) returns (r: Cache<D>)
    ensures |c| <= CacheMaxItems ==> r == c
    ensures |c| > CacheMaxItems ==> |r| == CacheMaxItems
    ensures forall k :: k in r ==> k in c && r[k] == c[k]
    ensures forall k, j :: k in r && j in c && j !in r ==> c[j].timestamp <= r[k].timestamp
  {
    r := c;
    while |r| > CacheMaxItems
      invariant forall k :: k in r ==> k in c && r[k] == c[k]
      invariant |c| <= CacheMaxItems ==> r == c
      invariant |c| > CacheMaxItems ==> |r| >= CacheMaxItems
      invariant forall k, j :: k in r && j in c && j !in r ==> c[j].timestamp <= r[k].timestamp
      decreases |r|
    {
      assert r.Keys != {} by { assert |r.Keys| == |r| > 0; }
      var oldest := OldestKey(r);
      RemoveOneKey(r, oldest);
      r := r - {oldest};
    }
  }

  // ---------------------------------------------------------------------------
  // Writes, reads and their interplay
  // ---------------------------------------------------------------------------

  /** `updateCache`: the entry for `key` becomes `data` stamped `now`; every other key is kept. */
  function Put<D>(c: Cache<D>, key: string, data: D, now: int): (r: Cache<D>)
    ensures key in r && r[key] == Entry(data, now)
    ensures r.Keys == c.Keys + {key}
    ensures forall k :: k in c && k != key ==> r[k] == c[k]
  {
    c[key := Entry(data, now)]
  }

  /** What `getCachedData` returns: the data of a present, unexpired entry, and nothing otherwise. */
  function Lookup<D>(c: Cache<D>, key: string, now: int): (r: Option<D>)
    ensures r.Some? <==> key in c && !Expired(c[key], now)
    ensures r.Some? ==> r.value == c[key].data
  {
    if key !in c then None
    else if Expired(c[key], now) then None
    else Some(c[key].data)
  }

  /** The cache after `getCachedData`: an expired entry for `key` is removed and nothing else. */
  function AfterLookup<D>(c: Cache<D>, key: string, now: int): (r: Cache<D>)
    ensures key in c && Expired(c[key], now) ==> r.Keys == c.Keys - {key}
    ensures !(key in c && Expired(c[key], now)) ==> r == c
    ensures forall k :: k in r ==> k in c && r[k] == c[k]
  {
    if key in c && Expired(c[key], now) then c - {key} else c
  }

  /** A read no later than the maximum age after a write returns what was written and removes nothing. */
  lemma ReadAfterWrite<D>(c: Cache<D>, key: string, data: D, written: int, now: int)
    requires now - written <= CacheMaxAge
    ensures Lookup(Put(c, key, data, written), key, now) == Some(data)
    ensures AfterLookup(Put(c, key, data, written), key, now) == Put(c, key, data, written)
  {
  }

  /** A read more than the maximum age after a write returns nothing and forgets exactly that key. */
  lemma ReadAfterExpiry<D>(c: Cache<D>, key: string, data: D, written: int, now: int)
    requires now - written > CacheMaxAge
    ensures Lookup(Put(c, key, data, written), key, now) == None
    ensures AfterLookup(Put(c, key, data, written), key, now) == c - {key}
  {
    var after := AfterLookup(Put(c, key, data, written), key, now);
    assert after.Keys == (c - {key}).Keys;
  }

  /** A write to one key changes no read of another key. */
  lemma WriteIsolated<D>(c: Cache<D>, key: string, data: D, written: int, other: string, now: int)
    requires other != key
    ensures Lookup(Put(c, key, data, written), other, now) == Lookup(c, other, now)
  {
  }

  /**
   * An entry exactly the maximum age old is dropped when the cache is loaded
   * (strict `<`) but still returned by a read (strict `>`); an entry that
   * survives loading is always returned by a read at the same time.
   */
  lemma AgeBoundary<D>(c: Cache<D>, key: string, now: int)
    requires key in c
    ensures now - c[key].timestamp == CacheMaxAge ==>
              !Fresh(c[key], now) && Lookup(c, key, now) == Some(c[key].data)
    ensures Fresh(c[key], now) ==> Lookup(c, key, now) == Some(c[key].data) && AfterLookup(c, key, now) == c
  {
  }

  // ---------------------------------------------------------------------------
  // Search history
  // ---------------------------------------------------------------------------

  /** JavaScript's `s.slice(-n)` for a positive `n` (the source uses 10): the last `n` elements, or all of `s` when it is shorter. */
  function LastN<T>(s: seq<T>, n: nat): (r: seq<T>)
    requires n > 0
    ensures |r| == if |s| <= n then |s| else n
    ensures s == s[..|s| - |r|] + r
  {
    if |s| <= n then s else s[|s| - n..]
  }

  /** `s.filter(item => item !== x)`: every occurrence of `x` removed, the rest kept in order. */
  function Without<T(==,!new)>(s: seq<T>, x: T): (r: seq<T>)
    ensures x !in r
    ensures forall y :: y != x ==> multiset(r)[y] == multiset(s)[y]
    ensures |r| <= |s|
    ensures x in s ==> |r| < |s|
  {
    if s == [] then []
    else
      assert s == [s[0]] + s[1..];
      if s[0] == x then Without(s[1..], x) else [s[0]] + Without(s[1..], x)
  }

  /** Filtering distributes over concatenation, so the survivors keep their relative order. */
  lemma {:induction false} WithoutConcat<T(!new)>(a: seq<T>, b: seq<T>, x: T)
    ensures Without(a + b, x) == Without(a, x) + Without(b, x)
  {
    if a == [] {
      assert a + b == b;
    } else {
      assert (a + b)[1..] == a[1..] + b;
      WithoutConcat(a[1..], b, x);
    }
  }

  /** Filtering out an element that does not occur changes nothing. */
  lemma {:induction false} WithoutAbsent<T(!new)>(s: seq<T>, x: T)
    requires x !in s
    ensures Without(s, x) == s
  {
    if s != [] {
      WithoutAbsent(s[1..], x);
      assert s == [s[0]] + s[1..];
    }
  }

  /**
   * `addToSearchHistory`: the searched term is moved to (or added at) the
   * end, occurs exactly once, and the list is cut to its last ten entries.
   */
  function AddRecent<T(==,!new)>(h: seq<T>, c: T): (r: seq<T>)
    ensures 0 < |r| <= HistoryMax
    ensures r[|r| - 1] == c
    ensures multiset(r)[c] == 1
    ensures c !in r[..|r| - 1]
  {
    LastOfAppended(Without(h, c), c);
    LastN(Without(h, c) + [c], HistoryMax)
  }

  /** The last ten of `w + [c]`, where `w` has no `c`, end with the only copy of `c`. */
  lemma LastOfAppended<T(!new)>(w: seq<T>, c: T)
    requires c !in w
    ensures var r := LastN(w + [c], HistoryMax);
      0 < |r| && r[|r| - 1] == c && c !in r[..|r| - 1] && multiset(r)[c] == 1
  {
    var s := w + [c];
    var r := LastN(s, HistoryMax);
    var k := |s| - |r|;
    assert r == s[k..];
    var front := r[..|r| - 1];
    assert front == w[k..];
    assert forall i :: 0 <= i < |front| ==> front[i] == w[k + i];
    assert r == front + [c];
    assert multiset(r) == multiset(front) + multiset([c]);
  }

  /** A term not yet in a history with room left is appended; nothing is dropped. */
  lemma AddRecentNew<T(!new)>(h: seq<T>, c: T)
    requires c !in h && |h| < HistoryMax
    ensures AddRecent(h, c) == h + [c]
  {
    WithoutAbsent(h, c);
  }

  /** A new term on a full history drops the oldest entry. */
  lemma AddRecentFull<T(!new)>(h: seq<T>, c: T)
    requires c !in h && |h| == HistoryMax
    ensures AddRecent(h, c) == h[1..] + [c]
  {
    WithoutAbsent(h, c);
    assert (h + [c])[1..] == h[1..] + [c];
  }

  /** A term already in a history of at most ten entries is moved to the end and nothing is dropped. */
  lemma AddRecentExisting<T(!new)>(h: seq<T>, c: T)
    requires c in h && |h| <= HistoryMax
    ensures AddRecent(h, c) == Without(h, c) + [c]
    ensures |AddRecent(h, c)| <= |h|
  {
  }

  /** A history of at most ten entries that already ends with its only copy of `c` is left as it is. */
  lemma AddRecentFixed<T(!new)>(r: seq<T>, c: T)
    requires 0 < |r| <= HistoryMax && r[|r| - 1] == c && c !in r[..|r| - 1]
    ensures AddRecent(r, c) == r
  {
    var front := r[..|r| - 1];
    assert r == front + [c];
    WithoutConcat(front, [c], c);
    WithoutAbsent(front, c);
    assert Without([c], c) == [];
    var s := Without(r, c) + [c];
    assert s == r;
    assert LastN(s, HistoryMax) == s;
  }

  /** Searching the same term twice in a row leaves the history as one search did. */
  lemma AddRecentIdempotent<T(!new)>(h: seq<T>, c: T)
    ensures AddRecent(AddRecent(h, c), c) == AddRecent(h, c)
  {
    AddRecentFixed(AddRecent(h, c), c);
  }

  // ---------------------------------------------------------------------------
  // The provider's state
  // ---------------------------------------------------------------------------

  /** The two state cells of the provider: the response cache and the search history. */
  class AppStore<D> {
    var cache: Cache<D>
    var history: seq<string>

    /**
     * The state initialisers: the cache loaded from `saved` as LoadCache
     * does, the history as stored (an empty list when nothing was stored).
     */
    constructor (saved: Saved<D>, savedHistory: Option<seq<string>>, now: int)
      ensures history == if savedHistory.Some? then savedHistory.value else []
      ensures !saved.Stored? || saved.version != CacheVersion ==> cache == map[]
      ensures saved.Stored? && saved.version == CacheVersion ==>
                forall k :: k in cache <==> k in saved.data && Fresh(saved.data[k], now)
      ensures forall k :: k in cache ==> saved.Stored? && k in saved.data && cache[k] == saved.data[k]
    {
      var loaded := LoadCache(saved, now);
      cache := loaded;
      history := if savedHistory.Some? then savedHistory.value else [];
    }

    /** The size-cap effect, run whenever the cache changes. */
    method EnforceSizeCap()
      modifies this
      ensures history == old(history)
      ensures |old(cache)| <= CacheMaxItems ==> cache == old(cache)
      ensures |old(cache)| > CacheMaxItems ==> |cache| == CacheMaxItems
      ensures forall k :: k in cache ==> k in old(cache) && cache[k] == old(cache)[k]
      ensures forall k, j :: k in cache && j in old(cache) && j !in cache ==>
                old(cache)[j].timestamp <= cache[k].timestamp
    {
      cache := CapSize(cache);
    }

    /** `cache.set`: store `data` under `key`, stamped `now`. */
    method Update(key: string, data: D, now: int)
      modifies this
      ensures cache == Put(old(cache), key, data, now)
      ensures history == old(history)
    {
      cache := Put(cache, key, data, now);
    }

    /** `cache.get`: read `key` at time `now`, removing its entry if it has expired. */
    method Get(key: string, now: int) returns (r: Option<D>)
      modifies this
      ensures r == Lookup(old(cache), key, now)
      ensures cache == AfterLookup(old(cache), key, now)
      ensures history == old(history)
    {
      if key !in cache {
        return None;
      }
      var entry := cache[key];
      if Expired(entry, now) {
        cache := cache - {key};
        return None;
      }
      r := Some(entry.data);
    }

    /** `cache.clear`: forget every entry. */
    method Clear()
      modifies this
      ensures cache == map[]
      ensures history == old(history)
    {
      cache := map[];
    }

    /** `addToSearchHistory`; afterwards the persisted history is the whole history. */
    method AddToSearchHistory(country: string)
      modifies this
      ensures history == AddRecent(old(history), country)
      ensures cache == old(cache)
      ensures PersistedHistory() == history
    {
      history := AddRecent(history, country);
    }

    /** The list the history effect writes to storage: the last ten searches. */
    function PersistedHistory(): (r: seq<string>)
      reads this
      ensures |r| == if |history| <= HistoryMax then |history| else HistoryMax
      ensures history == history[..|history| - |r|] + r
    {
      LastN(history, HistoryMax)
    }
  }
}
