/**
  The time-limited follower cache of `verificarSeguidorComCache`: one entry
  per target page under the key "followers_" + page, reused while it is
  younger than `maxCacheAge || 24` hours and otherwise replaced by a fresh
  fetch. The cache directory is a map from key to entry; times are integer
  milliseconds.
 */
module FollowerCache {
  import opened Optional
  import opened Errors
  import opened JsonValues
  import opened Scrapers

  /** A saved follower list; `timestamp` and `lastCheck` are the instants it was written. */
  datatype CacheEntry = CacheEntry(data: seq<Json>, timestamp: int, lastCheck: int)

  type CacheStore = map<string, CacheEntry>

  const DefaultMaxCacheAge := 24
  const MsPerHour := 3600000

  function CacheKey(paginaAlvo: string): string {
    "followers_" + paginaAlvo
  }

  /** `timeFilter?.maxCacheAge || 24`: an absent limit and a limit of 0 both mean 24 hours. */
  function MaxCacheAge(maxCacheAge: Option<int>): (h: int)
    ensures maxCacheAge.Some? && maxCacheAge.value != 0 ==> h == maxCacheAge.value
    ensures maxCacheAge.None? || maxCacheAge == Some(0) ==> h == DefaultMaxCacheAge
  {
    match maxCacheAge
    case Some(h) => if h != 0 then h else DefaultMaxCacheAge
    case None => DefaultMaxCacheAge
  }

  /** `calcularIdadeCache`: hours elapsed since `timestamp`, as a real number. */
  function AgeInHours(timestamp: int, now: int): (h: real)
    ensures h * MsPerHour as real == (now - timestamp) as real
    ensures h >= 0.0 <==> now >= timestamp
  {
    (now - timestamp) as real / MsPerHour as real
  }

  /** The entry may be reused: its age is strictly below the limit. */
  predicate IsFresh(entry: CacheEntry, now: int, maxAge: int) {
    AgeInHours(entry.timestamp, now) < maxAge as real
  }

  /** The freshness test in whole milliseconds. */
  lemma FreshInMilliseconds(entry: CacheEntry, now: int, maxAge: int)
    ensures IsFresh(entry, now, maxAge) <==> now - entry.timestamp < maxAge * MsPerHour
  {
    var diff := (now - entry.timestamp) as real;
    var hour := MsPerHour as real;
    assert diff / hour * hour == diff;
    assert (maxAge * MsPerHour) as real == maxAge as real * hour;
    if diff / hour < maxAge as real {
      assert diff / hour * hour < maxAge as real * hour;
    } else {
      assert diff / hour * hour >= maxAge as real * hour;
    }
  }

  /**
    The follower list the cache may serve for `paginaAlvo` at `now`: the
    stored list when an entry exists and is fresh; a missing entry counts
    as infinitely old.
   */
  function CachedFollowers(store: CacheStore, paginaAlvo: string, now: int, maxCacheAge: Option<int>): (r: Option<seq<Json>>)
    ensures r.Some? <==>
      CacheKey(paginaAlvo) in store && now - store[CacheKey(paginaAlvo)].timestamp < MaxCacheAge(maxCacheAge) * MsPerHour
    ensures r.Some? ==> r.value == store[CacheKey(paginaAlvo)].data
  {
    var key := CacheKey(paginaAlvo);
    if key in store then
      FreshInMilliseconds(store[key], now, MaxCacheAge(maxCacheAge));
      if IsFresh(store[key], now, MaxCacheAge(maxCacheAge)) then Some(store[key].data) else None
    else None
  }

  /** The follower list a request works with, and whether it came from the cache. */
  datatype Followers = Followers(list: seq<Json>, fromCache: bool)

  /** The outcome of the cache step and the cache directory after it. */
  datatype CacheStep = CacheStep(result: Result<Followers>, store: CacheStore)

  /**
    The cache decision and update: serve a fresh entry without touching the
    store, or fetch the followers and overwrite the entry with the new list
    stamped `now`. A failed fetch or a failed write aborts the request.
   */
  function LoadFollowers(src: DataSource, store: CacheStore, paginaAlvo: string, now: int, maxCacheAge: Option<int>, writable: bool): (step: CacheStep)
    ensures step.result.Ok? && step.result.value.fromCache <==> CachedFollowers(store, paginaAlvo, now, maxCacheAge).Some?
    ensures CachedFollowers(store, paginaAlvo, now, maxCacheAge).Some? ==>
      step == CacheStep(Ok(Followers(store[CacheKey(paginaAlvo)].data, true)), store)
    ensures step.result.Ok? && !step.result.value.fromCache ==>
      && PageFollowers(src, paginaAlvo) == Ok(step.result.value.list)
      && step.store == store[CacheKey(paginaAlvo) := CacheEntry(step.result.value.list, now, now)]
    ensures step.result.Err? ==> step.store == store
    ensures step.result.Err? ==>
      step.result.error == (if PageFollowers(src, paginaAlvo).Err? then PageFollowers(src, paginaAlvo).error
                            else CacheWriteFailed(CacheKey(paginaAlvo)))
    ensures step.result.Err? <==>
      CachedFollowers(store, paginaAlvo, now, maxCacheAge).None? && (PageFollowers(src, paginaAlvo).Err? || !writable)
    ensures forall k :: k != CacheKey(paginaAlvo) ==> (k in step.store <==> k in store)
    ensures forall k :: k != CacheKey(paginaAlvo) && k in store ==> step.store[k] == store[k]
  {
    match CachedFollowers(store, paginaAlvo, now, maxCacheAge)
    case Some(cached) => CacheStep(Ok(Followers(cached, true)), store)
    case None =>
      match PageFollowers(src, paginaAlvo)
      case Err(e) => CacheStep(Err(e), store)
      case Ok(fetched) =>
        if !writable then CacheStep(Err(CacheWriteFailed(CacheKey(paginaAlvo))), store)
        else CacheStep(Ok(Followers(fetched, false)), store[CacheKey(paginaAlvo) := CacheEntry(fetched, now, now)])
  }

  /**
    After a refetch at `now`, every later request within the age limit is
    served the same list from the cache, without calling the scraper.
   */
  lemma RefetchThenHit(src: DataSource, src': DataSource, store: CacheStore, paginaAlvo: string, now: int, later: int,
                       maxCacheAge: Option<int>, writable: bool, writable': bool)
    requires var step := LoadFollowers(src, store, paginaAlvo, now, maxCacheAge, writable);
      step.result.Ok? && !step.result.value.fromCache
    requires now <= later < now + MaxCacheAge(maxCacheAge) * MsPerHour
    ensures var step := LoadFollowers(src, store, paginaAlvo, now, maxCacheAge, writable);
      LoadFollowers(src', step.store, paginaAlvo, later, maxCacheAge, writable') ==
        CacheStep(Ok(Followers(step.result.value.list, true)), step.store)
  {
  }

  /** Once the age limit has passed, the entry is no longer served. */
  lemma ExpiredEntryRefetched(src: DataSource, store: CacheStore, paginaAlvo: string, now: int, maxCacheAge: Option<int>, writable: bool)
    requires CacheKey(paginaAlvo) in store
    requires now >= store[CacheKey(paginaAlvo)].timestamp + MaxCacheAge(maxCacheAge) * MsPerHour
    ensures !LoadFollowers(src, store, paginaAlvo, now, maxCacheAge, writable).result.Ok? ||
      !LoadFollowers(src, store, paginaAlvo, now, maxCacheAge, writable).result.value.fromCache
  {
  }

  /** A negative age limit turns the cache off: even an entry written this instant is refetched. */
  lemma NegativeLimitNeverHits(store: CacheStore, paginaAlvo: string, now: int, h: int)
    requires h < 0
    requires CacheKey(paginaAlvo) in store && store[CacheKey(paginaAlvo)].timestamp <= now
    ensures CachedFollowers(store, paginaAlvo, now, Some(h)).None?
  {
  }
}
