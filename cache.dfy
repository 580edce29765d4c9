/** The time-to-live cache of the web service: a map from keys to entries,
    each entry carrying its value, the time it was created and how long it
    stays live. Time is an explicit parameter `now`, counted in whole
    seconds, in place of a wall-clock read. */
module Cache {
  import opened Wrappers

  /** One cached value together with its creation time and time-to-live. */
  datatype CacheItem = CacheItem(val: string, createdOn: nat, ttl: nat)
  {
    /** An entry is expired strictly after `createdOn + ttl`: at the last
        second of its lifetime it is still live. */
    predicate IsExpired(now: nat): (expired: bool)
      ensures !expired <==> now <= createdOn + ttl
    {
      now > createdOn + ttl
    }

    /** A new entry holding `val`, stamped with the current time `now`. */
    static function New(val: string, ttl: nat, now: nat): (item: CacheItem)
      ensures item.val == val && item.createdOn == now && item.ttl == ttl
      ensures forall t: nat :: item.IsExpired(t) <==> t > now + ttl
    {
      CacheItem(val, now, ttl)
    }
  }

  /** What reading `key` at time `now` from the entries `vals` yields: the
      value of a live entry, and nothing for a missing or expired one.
      A read never changes the entries. */
  function Lookup(vals: map<string, CacheItem>, key: string, now: nat): (r: Option<string>)
    ensures r.Some? <==> key in vals && now <= vals[key].createdOn + vals[key].ttl
    ensures r.Some? ==> r.value == vals[key].val
  {
    if key in vals then
      var item := vals[key];
      if item.IsExpired(now) then None else Some(item.val)
    else
      None
  }

  /** The entries after writing `val` under `key` with lifetime `ttl` at
      time `now`: the entry for `key` is replaced whole, every other entry
      stays as it was. */
  function Store(vals: map<string, CacheItem>, key: string, val: string, ttl: nat, now: nat)
    : (r: map<string, CacheItem>)
    ensures r.Keys == vals.Keys + {key}
    ensures r[key].val == val && r[key].createdOn == now && r[key].ttl == ttl
    ensures forall k :: k in vals && k != key ==> r[k] == vals[k]
  {
    vals[key := CacheItem.New(val, ttl, now)]
  }

  /** True iff `key` has the same entry, or no entry, in both maps. */
  predicate SameEntry(m: map<string, CacheItem>, m': map<string, CacheItem>, key: string) {
    (key in m <==> key in m') && (key in m ==> m[key] == m'[key])
  }

  /** The shared cache object. Its only field is the map of entries, which
      `Set` is the only operation to change. */
  class Cacheit {
    var vals: map<string, CacheItem>

    /** A new cache holds no entries. */
    constructor ()
      ensures vals == map[]
    {
      vals := map[];
    }

    /** Reads `key` at time `now`; a function, so it cannot change the cache. */
    function Get(key: string, now: nat): (r: Option<string>)
      reads this
      ensures r.Some? <==> key in vals && !vals[key].IsExpired(now)
      ensures r.Some? ==> r.value == vals[key].val
    {
      Lookup(vals, key, now)
    }

    /** Inserts or overwrites the entry for `key`, stamped with the time
        `now` of the write. */
    method Set(key: string, val: string, ttl: nat, now: nat)
      modifies this
      ensures vals == Store(old(vals), key, val, ttl, now)
    {
      vals := vals[key := CacheItem.New(val, ttl, now)];
    }
  }

  /** Nothing can be read from a new cache. */
  lemma EmptyCacheMisses(key: string, now: nat)
    ensures Lookup(map[], key, now) == None
  {
  }

  /** A value written at time `t` with lifetime `d` is read back at every
      time up to `t + d` inclusive, and at no later time. */
  lemma StoreThenLookup(vals: map<string, CacheItem>, key: string, val: string, d: nat, t: nat, now: nat)
    ensures Lookup(Store(vals, key, val, d, t), key, now) == if now <= t + d then Some(val) else None
  {
  }

  /** Writing and reading at the same moment always finds the value, even
      with a lifetime of zero. */
  lemma StoreThenLookupAtOnce(vals: map<string, CacheItem>, key: string, val: string, d: nat, now: nat)
    ensures Lookup(Store(vals, key, val, d, now), key, now) == Some(val)
  {
    StoreThenLookup(vals, key, val, d, now, now);
  }

  /** The second of two writes to one key replaces the first entirely:
      one entry remains, the second one, and no read yields the first
      value unless both values are equal. */
  lemma StoreOverwrites(vals: map<string, CacheItem>, key: string, v1: string, d1: nat, t1: nat,
                        v2: string, d2: nat, t2: nat, now: nat)
    ensures Store(Store(vals, key, v1, d1, t1), key, v2, d2, t2) == Store(vals, key, v2, d2, t2)
    ensures var r := Lookup(Store(Store(vals, key, v1, d1, t1), key, v2, d2, t2), key, now);
            r.Some? ==> r.value == v2
  {
  }

  /** Writing one key leaves every other key's entry, and what is read from
      it at any time, as it was. */
  lemma StoreLeavesOtherKeys(vals: map<string, CacheItem>, key: string, val: string, d: nat, t: nat,
                             other: string, now: nat)
    requires other != key
    ensures SameEntry(Store(vals, key, val, d, t), vals, other)
    ensures Lookup(Store(vals, key, val, d, t), other, now) == Lookup(vals, other, now)
  {
  }

  /** Once an entry has expired, every later read of its key misses until
      the key is written again. */
  lemma ExpiryIsPermanent(vals: map<string, CacheItem>, key: string, now: nat)
    requires key in vals && vals[key].IsExpired(now)
    ensures Lookup(vals, key, now) == None
    ensures forall later: nat :: later >= now ==> Lookup(vals, key, later) == None
  {
  }
}
