/**
 * The rates client of src/api/ratesService.ts: which provider to ask, the
 * request sent to it, the check of the payload that comes back, and the
 * two messages `fetchRates` lets its callers see.
 *
 * The build-time settings (`import.meta.env`) are the parameter `env`;
 * the request itself is made by `getJSON`, modelled in the `Http` module.
 */
module RatesService {
  import opened Wrappers
  import opened JsString
  import opened JsNumber
  import opened Json
  import Http

  const DefaultVatsBase := "https://api.vatcomply.com"
  const DefaultFxratesBase := "https://api.fxratesapi.com"
  const RequestTimeoutMs: int := 10_000
  const InvalidRatesPayload := "Invalid rates payload"
  const UnableToFetchRates := "Unable to fetch exchange rates"

  datatype RatesSource = Vats | FxRates

  /** `VITE_RATES_API`, `VITE_API_BASE` and `VITE_API_KEY`; `None` for an
      unset variable. */
  datatype Env = Env(ratesApi: Option<string>, apiBase: Option<string>, apiKey: Option<string>)

  /** What `fetchRates` returns: the base code and its rates. */
  datatype RatesResponse = RatesResponse(base: string, rates: map<string, Num>)

  /** `getRatesSource`: fxratesapi only when the flag says exactly so. */
  function GetRatesSource(flag: Option<string>): (source: RatesSource)
    ensures source == FxRates <==> flag == Some("fxrates")
  {
    if flag == Some("fxrates") then FxRates else Vats
  }

  function DefaultBase(source: RatesSource): string {
    if source == FxRates then DefaultFxratesBase else DefaultVatsBase
  }

  /** `baseEnv ?? default`: an override that is set wins, even when empty. */
  function BaseUrl(env: Env): string {
    if env.apiBase.Some? then env.apiBase.value else DefaultBase(GetRatesSource(env.ratesApi))
  }

  predicate EndsWithSlash(url: string) {
    |url| > 0 && url[|url| - 1] == '/'
  }

  /** `url.endsWith('/') ? url.slice(0, -1) : url`. */
  function DropTrailingSlash(url: string): (r: string)
    ensures EndsWithSlash(url) ==> r + "/" == url
    ensures !EndsWithSlash(url) ==> r == url
  {
    if EndsWithSlash(url) then url[..|url| - 1] else url
  }

  function RatesPath(source: RatesSource): string {
    if source == FxRates then "/latest" else "/rates"
  }

  /** The address, the `api_key` query parameter and the time limit of the
      request `fetchRates` hands to `getJSON`. */
  datatype RatesRequest = RatesRequest(url: string, apiKey: Option<string>, timeoutMs: int)

  function BuildRatesRequest(env: Env): (request: RatesRequest)
    ensures request.timeoutMs == RequestTimeoutMs
    ensures request.apiKey.Some? <==>
      GetRatesSource(env.ratesApi) == FxRates && env.apiKey.Some? && env.apiKey.value != ""
    ensures request.apiKey.Some? ==> request.apiKey == env.apiKey
  {
    var source := GetRatesSource(env.ratesApi);
    var query := if source == FxRates && env.apiKey.Some? && env.apiKey.value != "" then env.apiKey else None;
    RatesRequest(DropTrailingSlash(BaseUrl(env)) + RatesPath(source), query, RequestTimeoutMs)
  }

  /** Without overrides the providers' own addresses are used. */
  lemma DefaultRequests(key: Option<string>)
    ensures BuildRatesRequest(Env(None, None, key)).url == "https://api.vatcomply.com/rates"
    ensures BuildRatesRequest(Env(Some("fxrates"), None, None)).url == "https://api.fxratesapi.com/latest"
    ensures BuildRatesRequest(Env(None, None, key)).apiKey == None
  {
  }

  /** With any override set, the request goes to the override, less one
      trailing slash, followed by the provider's path; an override without a
      trailing slash is used as it is. */
  lemma OverrideUrl(flag: Option<string>, base: string, key: Option<string>)
    ensures BuildRatesRequest(Env(flag, Some(base), key)).url
      == DropTrailingSlash(base) + RatesPath(GetRatesSource(flag))
    ensures !EndsWithSlash(base) ==>
      BuildRatesRequest(Env(flag, Some(base), key)).url == base + RatesPath(GetRatesSource(flag))
  {
  }

  /** One trailing slash of an override is dropped before the path is
      appended; a second one stays. */
  lemma OverrideSlash(flag: Option<string>, base: string, key: Option<string>)
    ensures BuildRatesRequest(Env(flag, Some(base + "/"), key)).url
      == base + RatesPath(GetRatesSource(flag))
    ensures BuildRatesRequest(Env(flag, Some(base + "//"), key)).url
      == base + "/" + RatesPath(GetRatesSource(flag))
  {
    assert (base + "/")[..|base + "/"| - 1] == base;
    assert (base + "//")[..|base + "//"| - 1] == base + "/";
  }

  /** An override set to the empty string still counts as set: the address
      string is then the bare path, which is not an absolute URL, so
      `buildUrl` rejects it before any request is made. */
  lemma EmptyOverride(flag: Option<string>, key: Option<string>)
    ensures BuildRatesRequest(Env(flag, Some(""), key)).url == RatesPath(GetRatesSource(flag))
  {
    assert "" + RatesPath(GetRatesSource(flag)) == RatesPath(GetRatesSource(flag));
  }

  /** `Object.values(rates)`, as a set: the check below does not depend on
      their order. */
  function RatesValues(rates: Json): set<Json> {
    if rates.JObject? then rates.fields.Values
    else if rates.JArray? then set i | 0 <= i < |rates.elems| :: rates.elems[i]
    else {}
  }

  /** `typeof value === 'number' && !Number.isNaN(value)`. */
  predicate IsRate(value: Json) {
    value.JNumber? && !IsNaN(value.n)
  }

  /** A payload `isValidRatesPayload` accepts: an object with a `base`
      string holding some non-white text, and a `rates` object (or array)
      whose every value is a number other than NaN. */
  predicate WellFormedRatesPayload(payload: Json): (wellFormed: bool)
    ensures wellFormed ==> Truthy(payload) && Get(payload, "rates").Some? && Truthy(Get(payload, "rates").value)
  {
    && IsObject(payload)
    && Get(payload, "base").Some? && Get(payload, "base").value.JString?
    && Trim(Get(payload, "base").value.s) != []
    && Get(payload, "rates").Some? && IsObject(Get(payload, "rates").value)
    && forall value :: value in RatesValues(Get(payload, "rates").value) ==> IsRate(value)
  }

  /** `isValidRatesPayload`, returning at the first value that is not a
      rate. */
  method IsValidRatesPayload(payload: Json) returns (valid: bool)
    ensures valid == WellFormedRatesPayload(payload)
  {
    if !Truthy(payload) || !IsObject(payload) {
      return false;
    }
    var base := Get(payload, "base");
    if base.None? || !base.value.JString? || |Trim(base.value.s)| == 0 {
      return false;
    }
    var rates := Get(payload, "rates");
    if rates.None? || !Truthy(rates.value) || !IsObject(rates.value) {
      return false;
    }
    var remaining := RatesValues(rates.value);
    while remaining != {}
      invariant remaining <= RatesValues(rates.value)
      invariant forall value :: value in RatesValues(rates.value) && value !in remaining ==> IsRate(value)
      decreases remaining
    {
      var value :| value in remaining;
      if !value.JNumber? || IsNaN(value.n) {
        return false;
      }
      remaining := remaining - {value};
    }
    return true;
  }

  /** The rates of an array, keyed by index as `Object` keys are. */
  function ArrayRates(elems: seq<Json>): (rates: map<string, Num>)
    requires forall i :: 0 <= i < |elems| ==> IsRate(elems[i])
    ensures forall code :: code in rates ==> !IsNaN(rates[code])
  {
    if elems == [] then map[]
    else
      var last := elems[|elems| - 1];
      assert IsRate(last);
      ArrayRates(elems[..|elems| - 1])[NatToDecimal(|elems| - 1) := last.n]
  }

  /** `{ base: payload.base, rates: payload.rates }`. */
  function ToRatesResponse(payload: Json): (r: RatesResponse)
    requires WellFormedRatesPayload(payload)
    ensures Trim(r.base) != []
    ensures forall code :: code in r.rates ==> !IsNaN(r.rates[code])
  {
    var rates := Get(payload, "rates").value;
    if rates.JObject? then
      assert forall code :: code in rates.fields ==> rates.fields[code] in RatesValues(rates);
      RatesResponse(Get(payload, "base").value.s, map code | code in rates.fields :: rates.fields[code].n)
    else
      assert forall i :: 0 <= i < |rates.elems| ==> rates.elems[i] in RatesValues(rates);
      RatesResponse(Get(payload, "base").value.s, ArrayRates(rates.elems))
  }

  /** For an object of rates, the response holds exactly its codes, each
      with its number, under the payload's base. */
  lemma ObjectRatesKept(payload: Json, rates: map<string, Json>, code: string)
    requires WellFormedRatesPayload(payload) && Get(payload, "rates") == Some(JObject(rates))
    ensures ToRatesResponse(payload).base == Get(payload, "base").value.s
    ensures ToRatesResponse(payload).rates.Keys == rates.Keys
    ensures code in rates ==> rates[code] == JNumber(ToRatesResponse(payload).rates[code])
  {
    if code in rates {
      assert rates[code] in RatesValues(JObject(rates));
      assert IsRate(rates[code]);
    }
  }

  /** Fields other than `base` and `rates`, such as `date`, neither affect
      the check nor reach the response. */
  lemma OtherFieldsDropped(fields: map<string, Json>, key: string, value: Json)
    requires key != "base" && key != "rates"
    ensures WellFormedRatesPayload(JObject(fields[key := value])) == WellFormedRatesPayload(JObject(fields))
    ensures WellFormedRatesPayload(JObject(fields)) ==>
      ToRatesResponse(JObject(fields[key := value])) == ToRatesResponse(JObject(fields))
  {
    assert Get(JObject(fields[key := value]), "base") == Get(JObject(fields), "base");
    assert Get(JObject(fields[key := value]), "rates") == Get(JObject(fields), "rates");
  }

  /** A single rate passes the check unless it is NaN: an infinite rate
      is accepted. */
  lemma SingleRateChecked(payload: Json, base: string, code: string, rate: Num)
    requires IsObject(payload) && Get(payload, "base") == Some(JString(base)) && Trim(base) != []
    requires Get(payload, "rates") == Some(JObject(map[code := JNumber(rate)]))
    ensures WellFormedRatesPayload(payload) <==> !IsNaN(rate)
  {
    var rates := JObject(map[code := JNumber(rate)]);
    assert RatesValues(rates) == {JNumber(rate)} by {
      assert rates.fields[code] == JNumber(rate);
    }
  }

  /** `fetchRates` as written: a payload that fails the check becomes
      "Invalid rates payload", which is passed on; every other failure,
      a cancelled request included, becomes "Unable to fetch exchange
      rates". The request address is taken to be one `buildUrl` accepts. */
  function FetchRates(attempts: seq<Http.Attempt>, parse: string -> Option<Json>): (r: Result<RatesResponse, string>)
    requires |attempts| == Http.MaxRetries + 1
    ensures r.Failure? ==> r.error == InvalidRatesPayload || r.error == UnableToFetchRates
    ensures r.Success? ==> Trim(r.value.base) != []
  {
    match Http.Run(attempts, 0, parse).result
    case Success(payload) =>
      if WellFormedRatesPayload(payload) then Success(ToRatesResponse(payload))
      else Failure(InvalidRatesPayload)
    case Failure(message) =>
      if message == InvalidRatesPayload then Failure(message) else Failure(UnableToFetchRates)
  }

  /** `fetchRates` only ever fails with its own two messages; in particular
      it never reports "Request cancelled". A rejected payload and a failed
      request are told apart. */
  lemma FetchRatesErrors(attempts: seq<Http.Attempt>, parse: string -> Option<Json>)
    requires |attempts| == Http.MaxRetries + 1
    ensures var r := FetchRates(attempts, parse);
      r.Failure? ==> r.error == InvalidRatesPayload || r.error == UnableToFetchRates
    ensures FetchRates(attempts, parse) == Failure(InvalidRatesPayload) <==>
      Http.Run(attempts, 0, parse).result.Success? &&
      !WellFormedRatesPayload(Http.Run(attempts, 0, parse).result.value)
    ensures var r := FetchRates(attempts, parse);
      r.Success? ==> Trim(r.value.base) != [] && forall code :: code in r.value.rates ==> !IsNaN(r.value.rates[code])
    ensures var fetched := Http.Run(attempts, 0, parse).result;
      fetched.Success? && WellFormedRatesPayload(fetched.value) ==>
        FetchRates(attempts, parse) == Success(ToRatesResponse(fetched.value))
    ensures var r := FetchRates(attempts, parse);
      r.Success? ==>
        && Http.Run(attempts, 0, parse).result.Success?
        && WellFormedRatesPayload(Http.Run(attempts, 0, parse).result.value)
        && r.value == ToRatesResponse(Http.Run(attempts, 0, parse).result.value)
  {
    Http.RunErrors(attempts, 0, parse);
    assert InvalidRatesPayload !in {Http.RequestCancelled, Http.RequestTimeout, Http.NetworkError, Http.InvalidJson};
    assert !StartsWith(InvalidRatesPayload, Http.RequestFailedPrefix);
  }

  /** A first attempt answered with a 2xx response holding a well-formed
      rates payload gives the base and rates of that payload. */
  lemma FirstResponseGivesRates(attempts: seq<Http.Attempt>, parse: string -> Option<Json>,
                                status: nat, statusText: string, body: string, payload: Json)
    requires |attempts| == Http.MaxRetries + 1
    requires attempts[0] == Http.Attempt(false, Http.Responded(status, statusText, body))
    requires Http.Ok(status) && body != "" && parse(body) == Some(payload) && WellFormedRatesPayload(payload)
    ensures FetchRates(attempts, parse) == Success(ToRatesResponse(payload))
  {
    Http.RunSucceeds(attempts, 0, parse, status, statusText, body, payload);
  }

  /** A request whose caller cancelled it before it started is reported
      as "Unable to fetch exchange rates". */
  lemma CancelledRequestReportedAsFailure(attempts: seq<Http.Attempt>, parse: string -> Option<Json>)
    requires |attempts| == Http.MaxRetries + 1 && attempts[0].cancelledAtStart
    ensures FetchRates(attempts, parse) == Failure(UnableToFetchRates)
  {
  }

  /** `fetchRates` with the cancellation passed on as well, so that a caller
      can recognise a request it cancelled itself. */
  function FetchRatesKeepingCancel(attempts: seq<Http.Attempt>, parse: string -> Option<Json>): (r: Result<RatesResponse, string>)
    requires |attempts| == Http.MaxRetries + 1
    ensures r.Failure? ==> r.error in {InvalidRatesPayload, UnableToFetchRates, Http.RequestCancelled}
    ensures r.Success? ==> Trim(r.value.base) != []
  {
    match Http.Run(attempts, 0, parse).result
    case Success(payload) =>
      if WellFormedRatesPayload(payload) then Success(ToRatesResponse(payload))
      else Failure(InvalidRatesPayload)
    case Failure(message) =>
      if message == InvalidRatesPayload || message == Http.RequestCancelled then Failure(message)
      else Failure(UnableToFetchRates)
  }

  /** The corrected version reports "Request cancelled" exactly when the
      request was cancelled, and otherwise agrees with `fetchRates`. */
  lemma FetchRatesKeepingCancelSpec(attempts: seq<Http.Attempt>, parse: string -> Option<Json>)
    requires |attempts| == Http.MaxRetries + 1
    ensures FetchRatesKeepingCancel(attempts, parse) == Failure(Http.RequestCancelled) <==>
      Http.Run(attempts, 0, parse).result == Failure(Http.RequestCancelled)
    ensures Http.Run(attempts, 0, parse).result != Failure(Http.RequestCancelled) ==>
      FetchRatesKeepingCancel(attempts, parse) == FetchRates(attempts, parse)
    ensures attempts[0].cancelledAtStart ==>
      FetchRatesKeepingCancel(attempts, parse) == Failure(Http.RequestCancelled)
  {
  }
}
