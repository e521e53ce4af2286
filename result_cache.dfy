/**
 * The result cache (`IMemoryCache`) as the stream lookup uses it: a map from
 * key to value and absolute expiry time. Expiry is lazy: an expired entry is
 * simply treated as absent.
 */
module ResultCache {

  /** Resolved stream URLs are kept for 5 hours, in milliseconds. */
  const StreamTtlMs: int := 5 * 60 * 60 * 1000

  datatype Entry = Entry(value: string, expiresAt: int)

  type Cache = map<string, Entry>

  /**
   * `TryGetValue(key)` finds a live entry: the memory cache counts an entry as
   * expired once its absolute expiry is at or before the current time.
   */
  predicate Hit(c: Cache, key: string, now: int) {
    key in c && now < c[key].expiresAt
  }

  /**
   * `Set(key, value, ttl)` at clock `now`: the entry for `key` now holds
   * `value` and is live exactly for the `ttl` milliseconds from `now`;
   * every other entry stays as it was.
   */
  function Store(c: Cache, key: string, value: string, now: int, ttl: int): (r: Cache)
    ensures r.Keys == c.Keys + {key}
    ensures forall k :: k in c && k != key ==> r[k] == c[k]
    ensures r[key].value == value
    ensures forall t :: Hit(r, key, t) <==> t < now + ttl
    ensures forall k, t :: k != key ==> (Hit(r, k, t) <==> Hit(c, k, t))
  {
    c[key := Entry(value, now + ttl)]
  }
}
