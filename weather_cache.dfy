/**
 * `WeatherService.getCurrentWeather` behind the "weather" cache: results are memoised by
 * `coordinates.toCacheKey()`, expire a fixed time after they were written, and the number
 * of entries is bounded by the configured maximum size.
 *
 * The clock and the weather provider are parameters of each call.
 */
module WeatherCache {
  import opened JavaLang
  import opened GeoCoordinates
  import opened WeatherModel
  import opened ProviderErrors

  /** A cached value and the time it was written. */
  datatype Entry = Entry(value: WeatherData, writeTime: Instant)

  /** Expire-after-write: an entry answers until `ttl` has passed since its write, and reads
      do not extend it. */
  predicate IsLive(e: Entry, now: Instant, ttl: nat) {
    now - e.writeTime < ttl
  }

  /** What the cache answers for `key` at `now`. */
  function Lookup(entries: map<string, Entry>, key: string, now: Instant, ttl: nat): Option<WeatherData> {
    if key in entries && IsLive(entries[key], now, ttl) then Some(entries[key].value) else None
  }

  /** The keys of `before` other than `key` that are gone from `after`. */
  function Evicted(before: map<string, Entry>, after: map<string, Entry>, key: string): set<string> {
    (before.Keys - {key}) - after.Keys
  }

  /** The entries after a successful miss stored `e` under `key`: the new entry is there,
      every other entry left is unchanged, and exactly one other entry is evicted when a new
      key arrives in a full cache, none otherwise. A cache of size 0 keeps nothing. */
  predicate StoredAfterMiss(before: map<string, Entry>, after: map<string, Entry>, key: string, e: Entry, maxSize: nat) {
    if maxSize == 0 then after == before
    else
      && key in after && after[key] == e
      && (forall k :: k in after && k != key ==> k in before && after[k] == before[k])
      && (if key !in before && |before| >= maxSize then |Evicted(before, after, key)| == 1
          else Evicted(before, after, key) == {})
  }

  /** An entry answers with its value for `ttl` after its write, and not once `ttl` has passed. */
  lemma LiveExactlyWithinTtl(entries: map<string, Entry>, key: string, now: Instant, ttl: nat)
    requires key in entries && entries[key].writeTime <= now
    ensures Lookup(entries, key, now, ttl) == Some(entries[key].value) <==> now < entries[key].writeTime + ttl
    ensures Lookup(entries, key, now, ttl).None? <==> now >= entries[key].writeTime + ttl
  {
  }

  /** Once expired, an entry stays expired as time goes on. */
  lemma ExpiredStaysExpired(entries: map<string, Entry>, key: string, t1: Instant, t2: Instant, ttl: nat)
    requires key in entries && t1 <= t2 && Lookup(entries, key, t1, ttl).None?
    ensures Lookup(entries, key, t2, ttl).None?
  {
  }

  /** All coordinates with one key share one entry. */
  lemma SameKeySharesEntry(entries: map<string, Entry>, a: Coordinates, b: Coordinates, now: Instant, ttl: nat)
    ensures Equal(a, b) ==> Lookup(entries, CacheKey(a), now, ttl) == Lookup(entries, CacheKey(b), now, ttl)
  {
  }

  /** After a store, the stored key answers with the new value while it lives, and any other
      key answers as before or, if it was the one evicted, not at all: one key's entry never
      answers another key. */
  lemma LookupAfterStore(before: map<string, Entry>, after: map<string, Entry>, key: string, e: Entry,
                         maxSize: nat, other: string, now: Instant, ttl: nat)
    requires maxSize > 0 && StoredAfterMiss(before, after, key, e, maxSize)
    ensures Lookup(after, key, now, ttl) == (if IsLive(e, now, ttl) then Some(e.value) else None)
    ensures other != key ==>
      Lookup(after, other, now, ttl) == Lookup(before, other, now, ttl) || Lookup(after, other, now, ttl).None?
  {
  }

  lemma CardinalityOfDifference(a: set<string>, b: set<string>)
    requires b <= a
    ensures |a - b| == |a| - |b|
  {
    assert a == (a - b) + b;
    assert (a - b) * b == {};
  }

  /** Keys of the map after a store: those kept, and the new one. */
  lemma StoredKeys(before: map<string, Entry>, after: map<string, Entry>, key: string, e: Entry, maxSize: nat)
    requires maxSize > 0 && StoredAfterMiss(before, after, key, e, maxSize)
    ensures after.Keys == ((before.Keys - {key}) - Evicted(before, after, key)) + {key}
  {
  }

  /** The counting behind the bound, on key sets alone. */
  lemma BoundAfterStore(before: set<string>, after: set<string>, key: string, gone: set<string>, maxSize: nat)
    requires |before| <= maxSize && maxSize > 0
    requires gone <= before - {key}
    requires after == ((before - {key}) - gone) + {key}
    requires if key !in before && |before| >= maxSize then |gone| == 1 else gone == {}
    ensures |after| <= maxSize
  {
    var others := before - {key};
    CardinalityOfDifference(others, gone);
    if key in before {
      CardinalityOfDifference(before, {key});
    } else {
      assert others == before;
    }
    assert key !in others - gone;
    assert |after| == |others - gone| + 1;
  }

  /** Storing keeps the cache within its bound. */
  lemma StoreKeepsBound(before: map<string, Entry>, after: map<string, Entry>, key: string, e: Entry, maxSize: nat)
    requires |before| <= maxSize && StoredAfterMiss(before, after, key, e, maxSize)
    ensures |after| <= maxSize
  {
    if maxSize > 0 {
      StoredKeys(before, after, key, e, maxSize);
      assert |before.Keys| == |before|;
      BoundAfterStore(before.Keys, after.Keys, key, Evicted(before, after, key), maxSize);
    }
  }

  /** A store that needs no eviction. */
  lemma StoreWithoutEviction(before: map<string, Entry>, key: string, e: Entry, maxSize: nat)
    requires maxSize > 0 && (key in before || |before| < maxSize)
    ensures StoredAfterMiss(before, before[key := e], key, e, maxSize)
  {
    assert Evicted(before, before[key := e], key) == {};
  }

  /** Removing one key and writing another leaves every third key as it was. */
  lemma RemoveThenWrite(before: map<string, Entry>, victim: string, key: string, e: Entry)
    ensures var after := (before - {victim})[key := e];
      && after.Keys == (before.Keys - {victim}) + {key}
      && (forall k :: k in after && k != key ==> k in before && after[k] == before[k])
  {
    var after := (before - {victim})[key := e];
    forall k | k in after && k != key ensures k in before && after[k] == before[k] {
      assert k in before - {victim};
    }
  }

  /** A new key in a full cache: one other entry goes. */
  lemma StoreWithEviction(before: map<string, Entry>, victim: string, key: string, e: Entry, maxSize: nat)
    requires maxSize > 0 && key !in before && |before| >= maxSize && victim in before
    ensures StoredAfterMiss(before, (before - {victim})[key := e], key, e, maxSize)
  {
    var after := (before - {victim})[key := e];
    RemoveThenWrite(before, victim, key, e);
    forall k | k in Evicted(before, after, key) ensures k == victim {
    }
    assert Evicted(before, after, key) == {victim};
  }

  /** `WeatherService` with its "weather" cache, configured by `ttl` and `maxSize`. */
  class WeatherService {
    const ttl: nat
    const maxSize: nat
    /** The cache's contents, by cache key. */
    var entries: map<string, Entry>
    /** Every coordinate the provider has been asked for, in order. */
    ghost var providerCalls: seq<Coordinates>

    ghost predicate Valid()
      reads this
    {
      |entries| <= maxSize
    }

    /** A new, empty cache. */
    constructor(ttl: nat, maxSize: nat)
      ensures this.ttl == ttl && this.maxSize == maxSize
      ensures entries == map[] && providerCalls == []
      ensures Valid()
    {
      this.ttl := ttl;
      this.maxSize := maxSize;
      entries := map[];
      providerCalls := [];
    }

    /** What the cache answers for `c` at `now`. */
    function Cached(c: Coordinates, now: Instant): Option<WeatherData>
      reads this
    {
      Lookup(entries, CacheKey(c), now, ttl)
    }

    /** `getCurrentWeather(coordinates)`: a live entry under the key answers without a
        provider call and without any change; otherwise the provider is called once with the
        caller's coordinates, its result is returned as it is, and only a returned value is
        stored. */
    method GetCurrentWeather(c: Coordinates, now: Instant, provider: Coordinates -> Result<WeatherData, WeatherProviderException>)
      returns (r: Result<WeatherData, WeatherProviderException>)
      requires Valid()
      modifies this
      ensures Valid()
      ensures old(Cached(c, now)).Some? ==>
        r == Ok(old(Cached(c, now)).value) && entries == old(entries) && providerCalls == old(providerCalls)
      ensures old(Cached(c, now)).None? ==> r == provider(c) && providerCalls == old(providerCalls) + [c]
      ensures old(Cached(c, now)).None? && r.Err? ==> entries == old(entries)
      ensures old(Cached(c, now)).None? && r.Ok? ==>
        StoredAfterMiss(old(entries), entries, CacheKey(c), Entry(r.value, now), maxSize)
    {
      var key := CacheKey(c);
      if key in entries && IsLive(entries[key], now, ttl) {
        return Ok(entries[key].value);
      }
      providerCalls := providerCalls + [c];
      r := provider(c);
      if r.Ok? && maxSize > 0 {
        var before := entries;
        var e := Entry(r.value, now);
        if key !in entries && |entries| >= maxSize {
          var victim :| victim in entries;
          entries := (entries - {victim})[key := e];
          StoreWithEviction(before, victim, key, e, maxSize);
        } else {
          entries := entries[key := e];
          StoreWithoutEviction(before, key, e, maxSize);
        }
        StoreKeepsBound(before, entries, key, e, maxSize);
      }
    }

    /** Invalidating the whole cache: every key misses afterwards. */
    method Clear()
      modifies this
      ensures entries == map[] && providerCalls == old(providerCalls)
      ensures Valid()
    {
      entries := map[];
    }
  }

  /** Two lookups within the ttl, for two coordinates with one key, the first a miss: a value
      the provider returned answers the second lookup without another call, while a failure
      is not remembered and the second lookup asks the provider again. */
  method RepeatedLookup(service: WeatherService, a: Coordinates, b: Coordinates, t1: Instant, t2: Instant,
                        provider: Coordinates -> Result<WeatherData, WeatherProviderException>)
    returns (first: Result<WeatherData, WeatherProviderException>, second: Result<WeatherData, WeatherProviderException>)
    requires service.Valid() && service.maxSize > 0
    requires Equal(a, b) && t1 <= t2 < t1 + service.ttl
    requires service.Cached(a, t1).None?
    modifies service
    ensures service.Valid()
    ensures first == provider(a)
    ensures first.Ok? ==> second == first && service.providerCalls == old(service.providerCalls) + [a]
    ensures first.Err? ==> second == provider(b) && service.providerCalls == old(service.providerCalls) + [a, b]
  {
    first := service.GetCurrentWeather(a, t1, provider);
    if first.Ok? {
      LookupAfterStore(old(service.entries), service.entries, CacheKey(a), Entry(first.value, t1), service.maxSize, CacheKey(a), t2, service.ttl);
    } else {
      if CacheKey(a) in service.entries {
        ExpiredStaysExpired(service.entries, CacheKey(a), t1, t2, service.ttl);
      }
    }
    second := service.GetCurrentWeather(b, t2, provider);
  }
}
