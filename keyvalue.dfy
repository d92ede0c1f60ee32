/** The Redis key-value store the source shares between the cache, the nonce store and the
    indexer cursor: GET, SET with or without EX, and DEL. Time is a parameter, in
    milliseconds; an expired key reads as absent. */
module KeyValue {
  import opened Wrappers

  /** A stored string and the instant from which it no longer exists (none: no expiry). */
  datatype Entry = Entry(value: string, expiresAt: Option<int>)

  type Store = map<string, Entry>

  predicate Live(e: Entry, now: int)
  {
    e.expiresAt.None? || now < e.expiresAt.value
  }

  /** `GET key` at time `now`. */
  function Lookup(m: Store, key: string, now: int): Option<string>
  {
    if key in m && Live(m[key], now) then Some(m[key].value) else None
  }

  /** The expiry a SET gives its key: `EX ttl` counts seconds from `now`; a plain SET
      removes any earlier expiry. */
  function ExpiryFor(ex: Option<nat>, now: int): Option<int>
  {
    match ex
    case None => None
    case Some(ttl) => Some(now + 1000 * ttl)
  }

  /** `SET key value [EX ttl]` at time `now`. */
  function Put(m: Store, key: string, value: string, ex: Option<nat>, now: int): Store
  {
    m[key := Entry(value, ExpiryFor(ex, now))]
  }

  /** `DEL key` */
  function Remove(m: Store, key: string): Store
  {
    m - {key}
  }

  /** A value stored without expiry reads back at every later instant, until overwritten. */
  lemma PutForever(m: Store, key: string, value: string, now: int, later: int)
    ensures Lookup(Put(m, key, value, None, now), key, later) == Some(value)
  {
  }

  /** A value stored with `EX ttl` reads back strictly before `ttl` seconds have passed and
      is gone from then on. */
  lemma PutWithExpiry(m: Store, key: string, value: string, ttl: nat, now: int, later: int)
    ensures Lookup(Put(m, key, value, Some(ttl), now), key, later) ==
      if later < now + 1000 * ttl then Some(value) else None
  {
  }

  /** Writing or deleting one key leaves every other key as it reads. */
  lemma OtherKeysUnaffected(m: Store, key: string, other: string, value: string, ex: Option<nat>, now: int, t: int)
    requires other != key
    ensures Lookup(Put(m, key, value, ex, now), other, t) == Lookup(m, other, t)
    ensures Lookup(Remove(m, key), other, t) == Lookup(m, other, t)
  {
  }

  /** The Redis client: its keyspace is the one field its commands update. */
  class RedisStore {
    var entries: Store

    constructor(initial: Store)
      ensures entries == initial
    {
      entries := initial;
    }

    method Get(key: string, now: int) returns (v: Option<string>)
      ensures v == Lookup(entries, key, now)
    {
      if key in entries && Live(entries[key], now) {
        v := Some(entries[key].value);
      } else {
        v := None;
      }
    }

    method Set(key: string, value: string, ex: Option<nat>, now: int)
      modifies this
      ensures entries == Put(old(entries), key, value, ex, now)
    {
      entries := entries[key := Entry(value, ExpiryFor(ex, now))];
    }

    method Del(key: string)
      modifies this
      ensures entries == Remove(old(entries), key)
    {
      entries := entries - {key};
    }
  }
}
