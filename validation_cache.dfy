/**
 * The in-process validation cache of the API: results by key with the time they were
 * stored, a lock per key, a timeout after which an entry is recomputed, and a size bound
 * kept by evicting the oldest entry. The dictionary is an insertion-ordered sequence of
 * entries with distinct keys, as a Python dict iterates; the clock and the validation
 * function's result are parameters.
 */
module ValidationCaches {
  import opened Wrappers

  /** The defaults of the constructor. */
  const DefaultMaxSize: int := 100
  const DefaultCacheTimeout: int := 300

  datatype Entry<R> = Entry(key: string, result: R, timestamp: int)

  /** A dict has each key once. */
  predicate KeysDistinct<R>(entries: seq<Entry<R>>)
  {
    forall i, j :: 0 <= i < j < |entries| ==> entries[i].key != entries[j].key
  }

  /** The position of `key`, or -1. */
  function IndexOfKey<R>(entries: seq<Entry<R>>, key: string): (i: int)
    ensures -1 <= i < |entries|
    ensures i >= 0 ==> entries[i].key == key
    ensures i == -1 <==> forall k :: 0 <= k < |entries| ==> entries[k].key != key
  {
    if |entries| == 0 then -1
    else if entries[|entries| - 1].key == key then |entries| - 1
    else IndexOfKey(entries[..|entries| - 1], key)
  }

  /** An entry is served while it is younger than the timeout. */
  predicate Fresh<R>(e: Entry<R>, now: int, timeout: int)
  {
    now - e.timestamp < timeout
  }

  /** `_cache[key] = ...`: an existing key keeps its place, a new key goes last. */
  function Put<R>(entries: seq<Entry<R>>, key: string, result: R, timestamp: int): seq<Entry<R>>
  {
    var i := IndexOfKey(entries, key);
    if i >= 0 then entries[i := Entry(key, result, timestamp)] else entries + [Entry(key, result, timestamp)]
  }

  /** `min(_cache, key=timestamp)`: the first entry with the smallest timestamp. */
  predicate IsOldest<R>(entries: seq<Entry<R>>, i: int)
  {
    && 0 <= i < |entries|
    && (forall j :: 0 <= j < |entries| ==> entries[i].timestamp <= entries[j].timestamp)
    && (forall j :: 0 <= j < i ==> entries[j].timestamp > entries[i].timestamp)
  }

  function RemoveAt<R>(entries: seq<Entry<R>>, i: int): seq<Entry<R>>
    requires 0 <= i < |entries|
  {
    entries[..i] + entries[i + 1..]
  }

  /** The bound the size keeps: `max_size`, or zero when that is negative. */
  function Bound(maxSize: int): nat
  {
    if maxSize < 0 then 0 else maxSize
  }

  /** The scan `min` performs, proved to find the oldest entry. */
  method FindOldest<R>(entries: seq<Entry<R>>) returns (oldest: int)
    requires |entries| > 0
    ensures IsOldest(entries, oldest)
  {
    oldest := 0;
    var i := 1;
    while i < |entries|
      invariant 1 <= i <= |entries|
      invariant 0 <= oldest < i
      invariant forall j :: 0 <= j < i ==> entries[oldest].timestamp <= entries[j].timestamp
      invariant forall j :: 0 <= j < oldest ==> entries[j].timestamp > entries[oldest].timestamp
    {
      if entries[i].timestamp < entries[oldest].timestamp {
        oldest := i;
      }
      i := i + 1;
    }
  }

  /** There is exactly one oldest entry. */
  lemma OldestUnique<R>(entries: seq<Entry<R>>, i: int, j: int)
    requires IsOldest(entries, i) && IsOldest(entries, j)
    ensures i == j
  {
    assert entries[i].timestamp == entries[j].timestamp;
  }

  lemma PutKeepsDistinct<R>(entries: seq<Entry<R>>, key: string, result: R, timestamp: int)
    requires KeysDistinct(entries)
    ensures var e := Put(entries, key, result, timestamp);
      && KeysDistinct(e)
      && |e| == (if IndexOfKey(entries, key) >= 0 then |entries| else |entries| + 1)
      && IndexOfKey(e, key) >= 0
      && e[IndexOfKey(e, key)] == Entry(key, result, timestamp)
  {
    var e := Put(entries, key, result, timestamp);
    var i := IndexOfKey(entries, key);
    var at := if i >= 0 then i else |entries|;
    assert e[at] == Entry(key, result, timestamp);
    forall m | 0 <= m < |e| && m != at ensures e[m] == entries[m] && e[m].key != key {
    }
    assert IndexOfKey(e, key) == at;
  }

  lemma RemoveAtKeepsDistinct<R>(entries: seq<Entry<R>>, i: int)
    requires KeysDistinct(entries) && 0 <= i < |entries|
    ensures KeysDistinct(RemoveAt(entries, i))
    ensures |RemoveAt(entries, i)| == |entries| - 1
  {
    var e := RemoveAt(entries, i);
    forall a, b | 0 <= a < b < |e| ensures e[a].key != e[b].key {
      var a0 := if a < i then a else a + 1;
      var b0 := if b < i then b else b + 1;
      assert e[a] == entries[a0] && e[b] == entries[b0];
    }
  }

  /** The cache of `ValidationCache`: `_cache` in insertion order, the keys that have a
      lock, and the two settings. */
  class ValidationCache<R> {
    var entries: seq<Entry<R>>
    var locks: set<string>
    const maxSize: int
    const cacheTimeout: int

    ghost predicate Valid()
      reads this
    {
      KeysDistinct(entries) && |entries| <= Bound(maxSize)
    }

    constructor(maxSize: int, cacheTimeout: int)
      ensures Valid()
      ensures entries == [] && locks == {}
      ensures this.maxSize == maxSize && this.cacheTimeout == cacheTimeout
    {
      entries := [];
      locks := {};
      this.maxSize := maxSize;
      this.cacheTimeout := cacheTimeout;
    }

    /** The result stored for `key` if there is one younger than the timeout at `now`. */
    function Served(key: string, now: int): (r: Option<R>)
      reads this
      ensures r.Some? ==> exists i :: 0 <= i < |entries| && entries[i].key == key && entries[i].result == r.value
    {
      var i := IndexOfKey(entries, key);
      if i >= 0 && Fresh(entries[i], now, cacheTimeout) then Some(entries[i].result) else None
    }

    /** `get_or_create_validation` for `key` at time `now`: a fresh entry is returned as is;
        otherwise `computed` (what the validation function returns) is stored with the time
        `storedAt` it finished, and if the cache then holds more than `max_size` entries the
        oldest one is evicted. A lock is created the first time a key is seen. */
    method GetOrCreateValidation(key: string, now: int, computed: R, storedAt: int) returns (result: R)
      requires Valid()
      modifies this
      ensures Valid()
      ensures locks == old(locks) + {key}
      ensures old(Served(key, now)).Some? ==> result == old(Served(key, now)).value && entries == old(entries)
      ensures old(Served(key, now)).None? ==> result == computed
      ensures old(Served(key, now)).None? ==>
        var e := Put(old(entries), key, computed, storedAt);
        (|e| <= maxSize ==> entries == e) && (|e| > maxSize ==> exists i :: IsOldest(e, i) && entries == RemoveAt(e, i))
    {
      ghost var served := Served(key, now);
      if key !in locks {
        locks := locks + {key};
      } else {
        assert locks + {key} == locks;
      }
      var i := IndexOfKey(entries, key);
      if i >= 0 && Fresh(entries[i], now, cacheTimeout) {
        return entries[i].result;
      }
      assert served.None?;
      result := computed;
      PutKeepsDistinct(entries, key, computed, storedAt);
      var e := Put(entries, key, computed, storedAt);
      if |e| > maxSize {
        var oldest := FindOldest(e);
        RemoveAtKeepsDistinct(e, oldest);
        entries := RemoveAt(e, oldest);
        assert IsOldest(e, oldest) && entries == RemoveAt(e, oldest);
      } else {
        entries := e;
      }
    }
  }

  /** After a miss the cache holds the new result under `key`, unless the eviction took it:
      it survives whenever some other entry is strictly older. */
  lemma NewResultKeptUnlessOldest<R>(entries: seq<Entry<R>>, key: string, result: R, storedAt: int, i: int)
    requires KeysDistinct(entries)
    requires IsOldest(Put(entries, key, result, storedAt), i)
    requires exists j :: 0 <= j < |entries| && entries[j].key != key && entries[j].timestamp < storedAt
    ensures var e := RemoveAt(Put(entries, key, result, storedAt), i);
      exists k :: 0 <= k < |e| && e[k] == Entry(key, result, storedAt)
  {
    PutKeepsDistinct(entries, key, result, storedAt);
    var p := Put(entries, key, result, storedAt);
    var k := IndexOfKey(p, key);
    var j :| 0 <= j < |entries| && entries[j].key != key && entries[j].timestamp < storedAt;
    assert p[j] == entries[j] by {
      if IndexOfKey(entries, key) >= 0 {
        assert IndexOfKey(entries, key) != j;
      }
    }
    assert i != k;
    var e := RemoveAt(p, i);
    if k < i {
      assert e[k] == p[k];
    } else {
      assert e[k - 1] == p[k];
    }
  }
}
