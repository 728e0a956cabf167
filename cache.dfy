/**
 * The rates-cache helpers of src/lib/cache.ts that do not touch storage.
 * The clock `Date.now()` is the parameter `now` (milliseconds).
 */
module Cache {
  import opened Wrappers

  const RatesCacheKey := "converter::rates"
  const SettingsCacheKey := "converter::settings"
  /** Five minutes in milliseconds. */
  const DefaultCacheTtl: int := 5 * 60 * 1000

  /** `isExpired`: an entry is stale once strictly more than `ttl`
      milliseconds have passed since `timestamp`. */
  predicate IsExpired(timestamp: int, now: int, ttl: int := DefaultCacheTtl): (expired: bool)
    ensures expired && ttl >= 0 ==> timestamp < now
  {
    now - timestamp > ttl
  }

  /** An entry stays fresh for exactly `ttl` milliseconds: it is still fresh
      at `timestamp + ttl` and stale one millisecond later. */
  lemma ExpiryBoundary(timestamp: int, ttl: int)
    ensures !IsExpired(timestamp, timestamp + ttl, ttl)
    ensures IsExpired(timestamp, timestamp + ttl + 1, ttl)
  {
  }

  /** Once stale, an entry stays stale as time goes on; a longer time to
      live never makes a fresh entry stale. */
  lemma ExpiryMonotone(timestamp: int, now: int, later: int, ttl: int, longer: int)
    requires now <= later && ttl <= longer
    ensures IsExpired(timestamp, now, ttl) ==> IsExpired(timestamp, later, ttl)
    ensures !IsExpired(timestamp, now, ttl) ==> !IsExpired(timestamp, now, longer)
  {
  }

  /** With the default five minutes: one millisecond past the window is
      stale, one millisecond inside it is fresh. */
  lemma DefaultTtlExamples()
    ensures IsExpired(10_000 - DefaultCacheTtl - 1, 10_000)
    ensures !IsExpired(10_000 - DefaultCacheTtl + 1, 10_000)
    ensures DefaultCacheTtl == 300_000
  {
  }

  /** The unit tests call `isExpired(timestamp, ttl, now)`, but `isExpired`
      has no third parameter and reads the clock instead. Once the clock
      reads more than 10 001 ms after the epoch, the entry the tests expect
      to be fresh is already stale. */
  lemma TestCallIgnoresNow(clock: int)
    requires clock > 10_001
    ensures IsExpired(10_000 - DefaultCacheTtl + 1, clock, DefaultCacheTtl)
  {
  }

  datatype RatesPayload<R> = RatesPayload(base: string, date: Option<string>, rates: R)
  datatype CachedRates<R> = CachedRates(base: string, date: Option<string>, rates: R, timestamp: int)

  /** `buildCachedRates`: the payload's fields plus a timestamp that
      defaults to the current time. */
  function BuildCachedRates<R>(payload: RatesPayload<R>, timestamp: Option<int>, now: int): (r: CachedRates<R>)
    ensures RatesPayload(r.base, r.date, r.rates) == payload
    ensures r.timestamp == (if timestamp.Some? then timestamp.value else now)
  {
    CachedRates(payload.base, payload.date, payload.rates,
      if timestamp.Some? then timestamp.value else now)
  }

  /** A freshly built entry is not expired at the moment it was built. */
  lemma FreshEntryNotExpired<R>(payload: RatesPayload<R>, now: int)
    ensures !IsExpired(BuildCachedRates(payload, None, now).timestamp, now)
  {
  }
}
