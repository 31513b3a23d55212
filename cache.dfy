/** The in-memory TTL cache of server/cache.js: a keyed store whose entries
    expire passively, checked only when read. The clock (`Date.now()`) is the
    `now` argument of each operation, in milliseconds. */
module TtlCache {
  import opened Wrappers

  /** The default time to live: 15 minutes. */
  const DefaultTtlMs: int := 15 * 60 * 1000

  /** A stored value (None stands for a stored `null`) and the instant after
      which it is stale. */
  datatype Entry<V> = Entry(value: Option<V>, expiry: int)

  /** What `get(key)` returns at time `now`: the stored value while
      `now <= expiry`, and null for a missing or stale entry. */
  function Lookup<K, V>(store: map<K, Entry<V>>, key: K, now: int): Option<V>
  {
    if key !in store then None
    else if now > store[key].expiry then None
    else store[key].value
  }

  /** The store after `get(key)` at time `now`: a stale entry is deleted,
      anything else is left as it was. */
  function AfterLookup<K, V>(store: map<K, Entry<V>>, key: K, now: int): map<K, Entry<V>>
  {
    if key in store && now > store[key].expiry then store - {key} else store
  }

  /** The store after `set(key, value, ttlMs)` at time `now`. */
  function Stored<K, V>(store: map<K, Entry<V>>, key: K, value: Option<V>, ttlMs: int, now: int): map<K, Entry<V>>
  {
    store[key := Entry(value, now + ttlMs)]
  }

  class Cache<K(==), V> {
    var store: map<K, Entry<V>>

    constructor ()
      ensures store == map[]
    {
      store := map[];
    }

    /** `get(key)`: the live value, or None for a missing, stale or null
        entry; a stale entry is evicted. */
    method Get(key: K, now: int) returns (r: Option<V>)
      modifies this
      ensures r == Lookup(old(store), key, now)
      ensures store == AfterLookup(old(store), key, now)
    {
      if key !in store {
        return None;
      }
      var entry := store[key];
      if now > entry.expiry {
        store := store - {key};
        return None;
      }
      return entry.value;
    }

    /** `set(key, value, ttlMs)`: replaces any entry for key, value and expiry. */
    method Set(key: K, value: Option<V>, now: int, ttlMs: int := DefaultTtlMs)
      modifies this
      ensures store == Stored(old(store), key, value, ttlMs, now)
    {
      store := store[key := Entry(value, now + ttlMs)];
    }

    /** `has(key)`: `get(key) !== null`, with get's eviction. */
    method Has(key: K, now: int) returns (b: bool)
      modifies this
      ensures b == Lookup(old(store), key, now).Some?
      ensures store == AfterLookup(old(store), key, now)
    {
      var r := Get(key, now);
      b := r.Some?;
    }
  }

  /** After `set(k, v, ttl)` at time t, `get(k)` returns v at every instant up
      to and including t + ttl, and null after it. */
  lemma ReadAfterSet<K, V>(store: map<K, Entry<V>>, k: K, v: Option<V>, ttlMs: int, t: int, now: int)
    ensures Lookup(Stored(store, k, v, ttlMs, t), k, now) == if now <= t + ttlMs then v else None
  {
  }

  /** `set` leaves every other key's reads and evictions as they were. */
  lemma SetKeepsOthers<K, V>(store: map<K, Entry<V>>, k: K, v: Option<V>, ttlMs: int, t: int, k': K, now: int)
    requires k' != k
    ensures Lookup(Stored(store, k, v, ttlMs, t), k', now) == Lookup(store, k', now)
    ensures k' in Stored(store, k, v, ttlMs, t) <==> k' in store
  {
  }

  /** A read of a stale entry answers null and removes exactly that key. */
  lemma StaleReadEvicts<K, V>(store: map<K, Entry<V>>, k: K, now: int)
    requires k in store && now > store[k].expiry
    ensures Lookup(store, k, now) == None
    ensures AfterLookup(store, k, now).Keys == store.Keys - {k}
  {
  }

  /** Reading a missing key or a live entry changes nothing; only a stale
      entry is evicted. */
  lemma ReadChangesOnlyStale<K, V>(store: map<K, Entry<V>>, k: K, now: int)
    ensures AfterLookup(store, k, now) == store <==> k !in store || now <= store[k].expiry
  {
    if k in store && now > store[k].expiry {
      assert k !in AfterLookup(store, k, now);
    }
  }

  /** A stored null reads as absent, so `has` reports false for it. */
  lemma StoredNullIsAbsent<K, V>(store: map<K, Entry<V>>, k: K, ttlMs: int, t: int, now: int)
    ensures Lookup(Stored(store, k, None, ttlMs, t), k, now).None?
  {
  }

  /** Once stale, an entry stays stale at every later instant. */
  lemma StaleStaysStale<K, V>(store: map<K, Entry<V>>, k: K, now: int, later: int)
    requires k in store && now > store[k].expiry && later >= now
    ensures Lookup(store, k, later).None?
  {
  }
}
