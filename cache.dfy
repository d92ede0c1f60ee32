/** src/utils/cache.ts: `withRedisCache(fn)`, a read-through cache in front of an
    asynchronous function. The options object that the wrapped function takes as its last
    argument is the parameter `options`; the arguments before it are `args`, the only ones
    handed to `fn`. `JSON.stringify` and `JSON.parse` are the parameters `stringify` and
    `parse`. */
module Cache {
  import opened Wrappers
  import opened Errors
  import opened KeyValue

  datatype CacheOptions = CacheOptions(key: string, ttl: nat)

  /** The SET options used on a miss: no expiry for `ttl === 0`, `EX ttl` otherwise. */
  function ExpiryOption(ttl: nat): Option<nat>
  {
    if ttl == 0 then None else Some(ttl)
  }

  /** Whether `GET key` returned a truthy string. */
  predicate IsHit(m: Store, key: string, now: int)
  {
    var cached := Lookup(m, key, now);
    cached.Some? && cached.value != ""
  }

  /** One call of the wrapped function: its outcome, how often `fn` ran and the keyspace
      afterwards. */
  datatype CachedCall<T> = CachedCall(result: Result<T, Error>, fnCalls: nat, after: Store)

  /** The read-through step as a function of the keyspace before the call. */
  function CacheStep<A, T>(m: Store, fn: seq<A> -> Result<T, Error>, args: seq<A>, options: CacheOptions,
                           stringify: T -> string, parse: string -> Result<T, Error>, now: int): (r: CachedCall<T>)
    ensures r.fnCalls <= 1
    ensures r.after.Keys <= m.Keys + {options.key}
    ensures r.fnCalls == 0 || r.result.Err? ==> r.after == m
  {
    if IsHit(m, options.key, now) then
      CachedCall(parse(Lookup(m, options.key, now).value), 0, m)
    else
      match fn(args)
      case Err(e) => CachedCall(Err(e), 1, m)
      case Ok(v) => CachedCall(Ok(v), 1, Put(m, options.key, stringify(v), ExpiryOption(options.ttl), now))
  }

  /** The function `withRedisCache(fn)` returns, called with `(...args, options)`. */
  method WithRedisCache<A, T>(store: RedisStore, fn: seq<A> -> Result<T, Error>, args: seq<A>, options: CacheOptions,
                              stringify: T -> string, parse: string -> Result<T, Error>, now: int)
    returns (result: Result<T, Error>, fnCalls: nat)
    modifies store
    ensures CachedCall(result, fnCalls, store.entries) ==
      CacheStep(old(store.entries), fn, args, options, stringify, parse, now)
  {
    var key, ttl := options.key, options.ttl;
    var cached := store.Get(key, now);
    if cached.Some? && cached.value != "" {
      return parse(cached.value), 0;
    }
    fnCalls := 1;
    result := fn(args);
    if result.Err? {
      return;
    }
    if ttl == 0 {
      store.Set(key, stringify(result.value), None, now);
    } else {
      store.Set(key, stringify(result.value), Some(ttl), now);
    }
  }

  /** A hit returns the parsed stored text, does not run `fn` and writes nothing. */
  lemma HitSkipsFn<A, T>(m: Store, fn: seq<A> -> Result<T, Error>, args: seq<A>, options: CacheOptions,
                         stringify: T -> string, parse: string -> Result<T, Error>, now: int)
    requires IsHit(m, options.key, now)
    ensures var c := CacheStep(m, fn, args, options, stringify, parse, now);
      c.fnCalls == 0 && c.after == m && c.result == parse(m[options.key].value)
  {
  }

  /** A miss runs `fn` once on the arguments before the options; if `fn` throws, the error
      propagates and nothing is stored (no negative caching). */
  lemma MissRunsFnOnce<A, T>(m: Store, fn: seq<A> -> Result<T, Error>, args: seq<A>, options: CacheOptions,
                             stringify: T -> string, parse: string -> Result<T, Error>, now: int)
    requires !IsHit(m, options.key, now)
    ensures var c := CacheStep(m, fn, args, options, stringify, parse, now);
      && c.fnCalls == 1 && c.result == fn(args)
      && (c.result.Err? ==> c.after == m)
      && (c.result.Ok? ==> c.after == Put(m, options.key, stringify(c.result.value), ExpiryOption(options.ttl), now))
  {
  }

  /** Read-through consistency: after a miss that stored `v`, a later call with the same key
      answers from the cache with `v` (given that parsing undoes stringifying) and does not
      run `fn`, at any later instant for `ttl == 0` and strictly before `ttl` seconds have
      passed otherwise; once they have passed, `fn` runs again. */
  lemma {:induction false} ReadThroughConsistent<A, T>(m: Store, fn: seq<A> -> Result<T, Error>, args: seq<A>, args2: seq<A>,
      options: CacheOptions, stringify: T -> string, parse: string -> Result<T, Error>, now: int, later: int)
    requires !IsHit(m, options.key, now) && fn(args).Ok?
    requires stringify(fn(args).value) != ""
    requires parse(stringify(fn(args).value)) == Ok(fn(args).value)
    requires now <= later
    ensures var first := CacheStep(m, fn, args, options, stringify, parse, now);
      var second := CacheStep(first.after, fn, args2, options, stringify, parse, later);
      && (options.ttl == 0 || later < now + 1000 * options.ttl ==>
            second.fnCalls == 0 && second.result == first.result && second.after == first.after)
      && (options.ttl > 0 && later >= now + 1000 * options.ttl ==> second.fnCalls == 1)
  {
    var v := fn(args).value;
    var after := Put(m, options.key, stringify(v), ExpiryOption(options.ttl), now);
    if options.ttl == 0 {
      PutForever(m, options.key, stringify(v), now, later);
    } else {
      PutWithExpiry(m, options.key, stringify(v), options.ttl, now, later);
    }
  }
}
