/** packages/getter-cache/src/concurrent.rs: `ConcurrentCache`, an
    in-memory string cache behind a read-write lock. The lock only
    serialises the operations, so each one is modelled as one atomic
    step on the map; every operation answers `Ok`. */
module ConcurrentCaches {
  import opened Wrappers

  class ConcurrentCache {
    var data: map<string, string>

    /** `ConcurrentCache::new` (and `Default`): an empty cache. */
    constructor ()
      ensures data == map[]
    {
      data := map[];
    }

    /** `get`: the stored value, or none for a key never set. */
    function Get(key: string): (r: Option<string>)
      reads this
      ensures r.Some? <==> key in data
      ensures r.Some? ==> r.value == data[key]
    {
      if key in data then Some(data[key]) else None
    }

    /** `set`: stores `value` under `key`, replacing any earlier value. */
    method Set(key: string, value: string)
      modifies this
      ensures data == old(data)[key := value]
    {
      data := data[key := value];
    }

    /** `remove`: drops `key`; an absent key is no error. */
    method Remove(key: string)
      modifies this
      ensures data == old(data) - {key}
    {
      data := data - {key};
    }

    /** `clear`: drops every key. */
    method Clear()
      modifies this
      ensures data == map[]
    {
      data := map[];
    }
  }

  /** A new cache answers none for every key. */
  method NewCacheIsEmpty(key: string) returns (r: Option<string>)
    ensures r == None
  {
    var cache := new ConcurrentCache();
    r := cache.Get(key);
  }

  /** After `set(k, v)`, `get(k)` is `v` and every other key reads as
      before; a second `set` on the same key overwrites the first. */
  method SetThenGet(cache: ConcurrentCache, key: string, value: string, other: string)
    returns (got: Option<string>, gotOther: Option<string>, before: Option<string>)
    modifies cache
    ensures got == Some(value)
    ensures other != key ==> gotOther == before
  {
    before := cache.Get(other);
    cache.Set(key, value);
    got := cache.Get(key);
    gotOther := cache.Get(other);
  }

  /** After `remove(k)`, `get(k)` is none, whether or not `k` was set. */
  method RemoveThenGet(cache: ConcurrentCache, key: string) returns (got: Option<string>)
    modifies cache
    ensures got == None
  {
    cache.Remove(key);
    got := cache.Get(key);
  }

  /** After `clear`, `get` is none for every key. */
  method ClearThenGet(cache: ConcurrentCache, key: string) returns (got: Option<string>)
    modifies cache
    ensures got == None
  {
    cache.Clear();
    got := cache.Get(key);
  }
}
