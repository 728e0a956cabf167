/**
 * `useExchangeRates` of src/hooks/useExchangeRates.ts: the cache-first
 * orchestrator that holds the latest rates, their time stamp, a loading
 * flag and an error message.
 *
 * The asynchronous `runFetch` is split at its `await`: `RunFetch` is the
 * part that runs before the request goes out, `FinishFetch` the part that
 * runs when `fetchRates` settles with `outcome`. The clock is the
 * parameter `now`, the stored cache entry the parameter `cache`, and the
 * browser's connectivity the field `online`.
 */
module ExchangeRates {
  import opened Wrappers
  import Cache
  import Http
  import opened RatesService

  const NoNetworkNoCache := "No network and no cached rates."
  const OfflineCannotRefresh := "Offline: cannot refresh"

  /** The entry `readRatesCache` returns: a payload and when it was fetched. */
  datatype CacheEntry = CacheEntry(payload: RatesResponse, timestamp: int)

  /** One call of `writeRatesCache`. */
  datatype CacheWrite = CacheWrite(payload: RatesResponse, api: RatesSource)

  class RatesHook {
    var data: Option<RatesResponse>
    var updatedAt: Option<int>
    var loading: bool
    var error: Option<string>
    /** `inFlightRef.current` */
    var inFlight: bool
    /** `abortControllerRef.current !== null` */
    var hasController: bool
    var online: bool
    /** Every `writeRatesCache` call, oldest first. */
    var cacheWrites: seq<CacheWrite>

    /** Rates always come with their time stamp, and a controller exists
        exactly while a fetch is in flight. */
    predicate Valid()
      reads this
    {
      (data.None? <==> updatedAt.None?) && (inFlight <==> hasController)
    }

    /** The initial state: no data, loading, no error. */
    constructor(online: bool)
      ensures Valid()
      ensures data == None && updatedAt == None && loading && error == None
      ensures !inFlight && !hasController && this.online == online && cacheWrites == []
    {
      data := None;
      updatedAt := None;
      loading := true;
      error := None;
      inFlight := false;
      hasController := false;
      this.online := online;
      cacheWrites := [];
    }

    /** `setData`: new rates, their time, and neither loading nor error. */
    method SetData(payload: RatesResponse, timestamp: int)
      requires Valid()
      modifies this
      ensures Valid()
      ensures data == Some(payload) && updatedAt == Some(timestamp) && !loading && error == None
      ensures inFlight == old(inFlight) && hasController == old(hasController)
      ensures online == old(online) && cacheWrites == old(cacheWrites)
    {
      data, updatedAt, loading, error := Some(payload), Some(timestamp), false, None;
    }

    /** `setError`: the message is shown and loading stops; the rates
        already held stay. */
    method SetError(message: string)
      requires Valid()
      modifies this
      ensures Valid()
      ensures error == Some(message) && !loading
      ensures data == old(data) && updatedAt == old(updatedAt)
      ensures inFlight == old(inFlight) && hasController == old(hasController)
      ensures online == old(online) && cacheWrites == old(cacheWrites)
    {
      loading, error := false, Some(message);
    }

    /** `clearError`: only the error goes. */
    method ClearError()
      requires Valid()
      modifies this
      ensures Valid()
      ensures error == None
      ensures data == old(data) && updatedAt == old(updatedAt) && loading == old(loading)
      ensures inFlight == old(inFlight) && hasController == old(hasController)
      ensures online == old(online) && cacheWrites == old(cacheWrites)
    {
      error := None;
    }

    /** `runFetch` up to its `await`. `started` tells whether a request
        went out; `abortedPrevious` whether an earlier controller was
        aborted, which never happens, since a controller only exists while
        a fetch is in flight and then nothing starts. */
    method RunFetch(forceLoading: bool, offlineMessage: Option<string>) returns (started: bool, abortedPrevious: bool)
      requires Valid()
      modifies this
      ensures Valid()
      ensures !abortedPrevious
      ensures started <==> !old(inFlight) && online
      ensures online == old(online) && cacheWrites == old(cacheWrites)
      ensures data == old(data) && updatedAt == old(updatedAt)
      ensures old(inFlight) ==> unchanged(this)
      ensures !old(inFlight) && !online ==>
        if offlineMessage.Some? && offlineMessage.value != "" then
          error == offlineMessage && !loading && !inFlight && !hasController
        else unchanged(this)
      ensures started ==> inFlight && hasController && error == None && loading == (forceLoading || old(loading))
      ensures !started ==> inFlight == old(inFlight) && hasController == old(hasController)
    {
      abortedPrevious := false;
      if inFlight {
        return false, abortedPrevious;
      }
      if !online {
        if offlineMessage.Some? && offlineMessage.value != "" {
          SetError(offlineMessage.value);
        }
        return false, abortedPrevious;
      }
      if hasController {
        abortedPrevious := true;
      }
      hasController := true;
      inFlight := true;
      if forceLoading {
        if !(loading && error == None) {
          loading, error := true, None;
        }
      } else {
        ClearError();
      }
      started := true;
    }

    /** `runFetch` after `fetchRates` settled: the rates are cached and shown,
        a cancellation is ignored, and any other failure is shown while the
        rates already held stay. The fetch is over either way. */
    method FinishFetch(outcome: Result<RatesResponse, string>, source: RatesSource, now: int)
      requires Valid() && inFlight
      modifies this
      ensures Valid() && !inFlight && !hasController && online == old(online)
      ensures outcome.Success? ==>
        && cacheWrites == old(cacheWrites) + [CacheWrite(outcome.value, source)]
        && data == Some(outcome.value) && updatedAt == Some(now) && !loading && error == None
      ensures outcome == Failure(Http.RequestCancelled) ==>
        && cacheWrites == old(cacheWrites)
        && data == old(data) && updatedAt == old(updatedAt) && loading == old(loading) && error == old(error)
      ensures outcome.Failure? && outcome.error != Http.RequestCancelled ==>
        && cacheWrites == old(cacheWrites)
        && data == old(data) && updatedAt == old(updatedAt) && !loading && error == Some(outcome.error)
    {
      match outcome {
        case Success(payload) =>
          cacheWrites := cacheWrites + [CacheWrite(payload, source)];
          SetData(payload, now);
        case Failure(message) =>
          if message != Http.RequestCancelled {
            SetError(message);
          }
      }
      inFlight := false;
      hasController := false;
    }

    /** The mount effect, which runs again whenever `online` changes: cached
        rates are shown at once and refreshed in the background only when
        online and stale; without a cache, an offline hook reports the
        missing rates and an online one fetches with the loading state
        shown. */
    method RunMountEffect(cache: Option<CacheEntry>, now: int) returns (started: bool)
      requires Valid()
      modifies this
      ensures Valid() && online == old(online) && cacheWrites == old(cacheWrites)
      ensures cache.Some? ==>
        && data == Some(cache.value.payload) && updatedAt == Some(cache.value.timestamp)
        && !loading && error == None
        && (started <==> !old(inFlight) && online && Cache.IsExpired(cache.value.timestamp, now))
      ensures cache.None? && !online ==>
        !started && data == old(data) && updatedAt == old(updatedAt)
        && !loading && error == Some(NoNetworkNoCache)
      ensures cache.None? && online ==>
        && (started <==> !old(inFlight))
        && data == old(data) && updatedAt == old(updatedAt)
        && (started ==> loading && error == None)
        && (!started ==> loading == old(loading) && error == old(error))
      ensures started ==> inFlight && hasController
      ensures !started ==> inFlight == old(inFlight) && hasController == old(hasController)
    {
      if cache.Some? {
        SetData(cache.value.payload, cache.value.timestamp);
        started := false;
        if online && Cache.IsExpired(cache.value.timestamp, now) {
          var abortedPrevious;
          started, abortedPrevious := RunFetch(false, None);
        }
        return;
      }
      if !online {
        SetError(NoNetworkNoCache);
        return false;
      }
      var abortedPrevious;
      started, abortedPrevious := RunFetch(true, None);
    }

    /** `reload`: a fetch with the loading state shown, or the offline
        message when there is no network. */
    method Reload() returns (started: bool)
      requires Valid()
      modifies this
      ensures Valid() && online == old(online) && cacheWrites == old(cacheWrites)
      ensures data == old(data) && updatedAt == old(updatedAt)
      ensures started <==> !old(inFlight) && online
      ensures started ==> inFlight && loading && error == None
      ensures !old(inFlight) && !online ==> !loading && error == Some(OfflineCannotRefresh)
      ensures old(inFlight) ==> unchanged(this)
    {
      var abortedPrevious;
      started, abortedPrevious := RunFetch(true, Some(OfflineCannotRefresh));
    }

    /** A new `online` value from the provider; the mount effect then runs
        again. */
    method SetOnline(online: bool)
      requires Valid()
      modifies this
      ensures Valid()
      ensures this.online == online
      ensures data == old(data) && updatedAt == old(updatedAt) && loading == old(loading) && error == old(error)
      ensures inFlight == old(inFlight) && hasController == old(hasController) && cacheWrites == old(cacheWrites)
    {
      this.online := online;
    }

    /** The unmount clean-up: aborts the request in flight, if any. */
    method Unmount() returns (aborted: bool)
      requires Valid()
      ensures aborted <==> inFlight
    {
      aborted := hasController;
    }
  }
}
