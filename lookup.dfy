/**
 * The resolvers and the `lookup` orchestrator of src/df_eval/lookup.py.
 * A resolver maps a key to a value or raises; the time-to-live cache wraps
 * any resolver; `lookup` maps a sequence of keys under a missing-key policy.
 */
module Lookup {
  import opened Wrappers
  import opened Values

  /** What one `resolve(key)` call does: return a value (possibly `None`) or raise. */
  datatype Resolution = Resolved(value: Value) | Raised(error: string)

  /** The resolver capability: `resolve(key)`. */
  type Resolver = Value -> Resolution

  /** `DictResolver(mapping, default)`: a dictionary lookup with a default. */
  datatype DictResolver = DictResolver(mapping: map<Value, Value>, default: Value)
  {
    /** `mapping.get(key, default)`; it never raises. */
    function Resolve(key: Value): (r: Resolution)
      ensures r.Resolved?
      ensures key in mapping ==> r.value == mapping[key]
      ensures key !in mapping ==> r.value == default
    {
      Resolved(if key in mapping then mapping[key] else default)
    }
  }

  /** `DictResolver(mapping)`: the default is `None`. */
  function NewDictResolver(mapping: map<Value, Value>): (d: DictResolver)
    ensures forall key :: key in mapping ==> d.Resolve(key) == Resolved(mapping[key])
    ensures forall key :: key !in mapping ==> d.Resolve(key) == Resolved(Null)
  {
    DictResolver(mapping, Null)
  }

  /** `DatabaseResolver`: a placeholder whose every call raises `NotImplementedError`. */
  datatype DatabaseResolver = DatabaseResolver(connectionString: string, table: string, keyColumn: string, valueColumn: string)
  {
    function Resolve(key: Value): (r: Resolution)
      ensures r.Raised?
    {
      Raised("Database resolver requires a database connection library")
    }
  }

  /** `HTTPResolver`: a placeholder whose every call raises `NotImplementedError`. */
  datatype HTTPResolver = HTTPResolver(baseUrl: string, keyParam: string)
  {
    function Resolve(key: Value): (r: Resolution)
      ensures r.Raised?
    {
      Raised("HTTP resolver requires an HTTP library like requests")
    }
  }

  /** A cached value and the time it was stored. */
  datatype CacheEntry = CacheEntry(value: Value, timestamp: int)

  /**
   * `CachedResolver(resolver, ttl_seconds)`: a map from key to (value, time
   * stored).  The current time is passed to `Resolve` as `now`.
   */
  class CachedResolver {
    const resolver: Resolver
    const ttlSeconds: int
    var cache: map<Value, CacheEntry>
    /** The keys passed to the wrapped resolver so far, in call order. */
    ghost var innerCalls: seq<Value>

    constructor (resolver: Resolver, ttlSeconds: int := 300)
      ensures this.resolver == resolver && this.ttlSeconds == ttlSeconds
      ensures cache == map[] && innerCalls == []
    {
      this.resolver := resolver;
      this.ttlSeconds := ttlSeconds;
      cache := map[];
      innerCalls := [];
    }

    /** Every cached value is what the wrapped resolver returns for its key. */
    ghost predicate Coherent()
      reads this
    {
      forall k :: k in cache ==> resolver(k) == Resolved(cache[k].value)
    }

    /** `key` has an entry younger than the time to live at time `now`. */
    predicate IsFresh(key: Value, now: int)
      reads this
    {
      key in cache && now - cache[key].timestamp < ttlSeconds
    }

    /**
     * `resolve(key)`.  A fresh entry is returned without calling the wrapped
     * resolver and without touching the cache.  Otherwise the wrapped resolver
     * is called exactly once; a returned value (`None` included) is stored
     * under `key` with time `now`, replacing any stale entry, and returned; a
     * raised error propagates and leaves the cache as it was.
     */
    method Resolve(key: Value, now: int) returns (r: Resolution)
      modifies this
      ensures old(IsFresh(key, now)) ==>
        r == Resolved(old(cache)[key].value) && cache == old(cache) && innerCalls == old(innerCalls)
      ensures !old(IsFresh(key, now)) ==>
        r == resolver(key) && innerCalls == old(innerCalls) + [key] &&
        cache == (if r.Resolved? then old(cache)[key := CacheEntry(r.value, now)] else old(cache))
      ensures old(Coherent()) ==> Coherent() && r == resolver(key)
    {
      if key in cache {
        var entry := cache[key];
        if now - entry.timestamp < ttlSeconds {
          return Resolved(entry.value);
        }
      }
      r := resolver(key);
      innerCalls := innerCalls + [key];
      if r.Resolved? {
        cache := cache[key := CacheEntry(r.value, now)];
      }
    }

    /** `clear_cache()`: drops every entry, so the next resolve of any key is a miss. */
    method ClearCache()
      modifies this
      ensures cache == map[] && innerCalls == old(innerCalls)
      ensures Coherent()
      ensures forall key, now :: !IsFresh(key, now)
    {
      cache := map[];
    }
  }

  /** `key * 2`: the counting resolver of the cache test, without its counter. */
  function Twice(key: Value): Resolution
  {
    match key
    case Int(i) => Resolved(Int(i * 2))
    case Str(s) => Resolved(Str(s + s))
    case Null => Raised("unsupported operand type(s) for *: 'NoneType' and 'int'")
  }

  /** The cache test: one inner call within the time to live, one more after it or after a clear. */
  method CachedResolverScenario() returns (results: seq<Resolution>, ghost calls: seq<nat>)
    ensures results == [Resolved(Int(10)), Resolved(Int(10)), Resolved(Int(10)), Resolved(Int(10))]
    ensures calls == [1, 1, 2, 3]
  {
    var cached := new CachedResolver(Twice, 1);
    var r1 := cached.Resolve(Int(5), 0);
    assert r1 == Resolved(Int(10)) && |cached.innerCalls| == 1;
    ghost var c1 := |cached.innerCalls|;
    var r2 := cached.Resolve(Int(5), 0);
    assert r2 == Resolved(Int(10)) && |cached.innerCalls| == 1;
    ghost var c2 := |cached.innerCalls|;
    var r3 := cached.Resolve(Int(5), 1);
    assert r3 == Resolved(Int(10)) && |cached.innerCalls| == 2;
    ghost var c3 := |cached.innerCalls|;
    cached.ClearCache();
    var r4 := cached.Resolve(Int(5), 1);
    assert r4 == Resolved(Int(10)) && |cached.innerCalls| == 3;
    results, calls := [r1, r2, r3, r4], [c1, c2, c3, |cached.innerCalls|];
  }

  /** Why `lookup` stops or what it emits for one key. */
  datatype LookupError = UnresolvedKey(key: Value) | ResolverError(error: string)
  datatype KeyOutcome = Emit(value: Value) | Abort(error: LookupError)

  /** The resolver found nothing for the key: it raised or returned `None`. */
  predicate Missing(res: Resolution)
  {
    res.Raised? || res.value.Null?
  }

  /**
   * The body of `lookup`'s loop for one key: a value that is not `None` is
   * emitted under every policy; otherwise `"raise"` aborts (naming the key
   * for `None`, re-raising the resolver's own error), `"keep"` emits the key
   * itself and every other policy string emits `None`.
   */
  function HandleKey(key: Value, res: Resolution, onMissing: string): (o: KeyOutcome)
    ensures !Missing(res) ==> o == Emit(res.value)
    ensures Missing(res) && onMissing == "raise" ==>
      o == Abort(if res.Raised? then ResolverError(res.error) else UnresolvedKey(key))
    ensures Missing(res) && onMissing == "keep" ==> o == Emit(key)
    ensures Missing(res) && onMissing != "raise" && onMissing != "keep" ==> o == Emit(Null)
    ensures o.Abort? <==> Missing(res) && onMissing == "raise"
  {
    match res
    case Resolved(value) =>
      if value == Null && onMissing == "raise" then Abort(UnresolvedKey(key))
      else if value == Null && onMissing == "keep" then Emit(key)
      else Emit(value)
    case Raised(error) =>
      if onMissing == "raise" then Abort(ResolverError(error))
      else if onMissing == "keep" then Emit(key)
      else Emit(Null)
  }

  /**
   * `lookup(series, resolver, on_missing)`.  On success the result has one
   * value per key, in order, each the outcome of its key; otherwise the
   * first aborting key's error is returned and no key after it is resolved.
   * The ghost `calls` counts the resolver invocations.
   */
  method Lookup(keys: seq<Value>, resolver: Resolver, onMissing: string := "null")
    returns (r: Result<seq<Value>, LookupError>, ghost calls: nat)
    ensures r.Ok? <==> forall k :: 0 <= k < |keys| ==> HandleKey(keys[k], resolver(keys[k]), onMissing).Emit?
    ensures r.Ok? ==> calls == |keys| && |r.value| == |keys|
    ensures r.Ok? ==> forall k :: 0 <= k < |keys| ==> HandleKey(keys[k], resolver(keys[k]), onMissing) == Emit(r.value[k])
    ensures r.Err? ==> 0 < calls <= |keys|
    ensures r.Err? ==> HandleKey(keys[calls - 1], resolver(keys[calls - 1]), onMissing) == Abort(r.error)
    ensures r.Err? ==> forall k :: 0 <= k < calls - 1 ==> HandleKey(keys[k], resolver(keys[k]), onMissing).Emit?
  {
    var results: seq<Value> := [];
    var i := 0;
    calls := 0;
    while i < |keys|
      invariant 0 <= i <= |keys| && |results| == i && calls == i
      invariant forall k :: 0 <= k < i ==> HandleKey(keys[k], resolver(keys[k]), onMissing) == Emit(results[k])
    {
      var key := keys[i];
      var res := resolver(key);
      calls := calls + 1;
      var outcome := HandleKey(key, res, onMissing);
      if outcome.Abort? {
        return Err(outcome.error), calls;
      }
      results := results + [outcome.value];
      i := i + 1;
    }
    return Ok(results), calls;
  }

  /** With a dictionary resolver and no default, `"keep"` is `mapping.get(key, key)` for non-`None` values. */
  lemma LookupKeepDict(mapping: map<Value, Value>, key: Value)
    ensures HandleKey(key, NewDictResolver(mapping).Resolve(key), "keep") ==
      Emit(if key in mapping && mapping[key] != Null then mapping[key] else key)
  {
  }

  /** With a placeholder backend nothing resolves: `"null"` yields `None` and `"raise"` aborts. */
  lemma LookupPlaceholder(db: DatabaseResolver, http: HTTPResolver, key: Value)
    ensures HandleKey(key, db.Resolve(key), "null") == Emit(Null)
    ensures HandleKey(key, http.Resolve(key), "keep") == Emit(key)
    ensures HandleKey(key, db.Resolve(key), "raise").Abort?
  {
  }

  /**
   * The cache is transparent: as long as its entries agree with the wrapped
   * resolver, a lookup through it meets each key's outcome as the wrapped
   * resolver alone would give it.
   */
  lemma CachedResolveTransparent(c: CachedResolver, key: Value, onMissing: string)
    requires c.Coherent() && key in c.cache
    ensures HandleKey(key, Resolved(c.cache[key].value), onMissing) == HandleKey(key, c.resolver(key), onMissing)
  {
  }

  /** The lookup tests with keys `a`, `b`, `x` and mapping `{a: 1, b: 2}`. */
  method LookupScenario() returns (nulls: Result<seq<Value>, LookupError>, kept: Result<seq<Value>, LookupError>,
                                   raised: Result<seq<Value>, LookupError>)
    ensures nulls == Ok([Int(1), Int(2), Null])
    ensures kept == Ok([Int(1), Int(2), Str("x")])
    ensures raised == Err(UnresolvedKey(Str("x")))
  {
    var d := NewDictResolver(map[Str("a") := Int(1), Str("b") := Int(2)]);
    var keys := [Str("a"), Str("b"), Str("x")];
    var r1, c1 := Lookup(keys, d.Resolve);
    assert HandleKey(keys[0], d.Resolve(keys[0]), "null") == Emit(Int(1));
    assert HandleKey(keys[1], d.Resolve(keys[1]), "null") == Emit(Int(2));
    assert HandleKey(keys[2], d.Resolve(keys[2]), "null") == Emit(Null);
    assert r1.Ok? && r1.value[0] == Int(1) && r1.value[1] == Int(2) && r1.value[2] == Null;
    assert |r1.value| == 3 && r1.value == [Int(1), Int(2), Null];
    var r2, c2 := Lookup(keys, d.Resolve, "keep");
    assert HandleKey(keys[2], d.Resolve(keys[2]), "keep") == Emit(Str("x"));
    assert r2.Ok? && r2.value[0] == Int(1) && r2.value[1] == Int(2) && r2.value[2] == Str("x");
    assert |r2.value| == 3 && r2.value == [Int(1), Int(2), Str("x")];
    var r3, c3 := Lookup(keys, d.Resolve, "raise");
    assert HandleKey(keys[0], d.Resolve(keys[0]), "raise").Emit?;
    assert HandleKey(keys[1], d.Resolve(keys[1]), "raise").Emit?;
    assert HandleKey(keys[2], d.Resolve(keys[2]), "raise") == Abort(UnresolvedKey(Str("x")));
    assert r3 == Err(UnresolvedKey(Str("x")));
    nulls, kept, raised := r1, r2, r3;
  }
}
