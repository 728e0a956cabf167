/**
 * `getJSON` of src/api/http.ts: up to three GET attempts with retries on
 * aborts and network failures, and the error message each failure ends in.
 *
 * `fetch`, `response.text()`, the timers and the abort signals are not
 * modelled as such: each attempt is given as what the outside world did
 * (`Attempt`), and `JSON.parse` is the parameter `parse` (`None` where it
 * throws).
 */
module Http {
  import opened Wrappers
  import opened JsString
  import opened Json

  const DefaultTimeoutMs: int := 10_000
  const MaxRetries: nat := 2
  /** The pause before the second and before the third attempt. */
  const RetryDelays: seq<int> := [500, 1000]

  const RequestCancelled := "Request cancelled"
  const RequestTimeout := "Request timeout"
  const NetworkError := "Network error"
  const InvalidJson := "Invalid JSON"
  const RequestFailedPrefix := "Request failed with status "

  /** What one `fetch` together with its `response.text()` came to. */
  datatype Fetched =
    | Responded(status: nat, statusText: string, body: string)
      /** a rejection with a `TypeError` */
    | NetworkFailure
      /** a rejection with an `AbortError`; `signalAborted` tells whether the
          caller's signal was aborted by the time it was caught */
    | Aborted(signalAborted: bool)
      /** any other rejection */
    | OtherFailure

  /** One pass of the loop: whether the caller's signal was already aborted
      when the attempt began, and what fetching gave. */
  datatype Attempt = Attempt(cancelledAtStart: bool, fetched: Fetched)

  /** `response.ok`. */
  predicate Ok(status: nat) {
    200 <= status <= 299
  }

  /** `parsed.message ?? parsed.error` when that is a string with some
      non-white content. */
  function JsonMessage(parsed: Json): (m: Option<string>)
    ensures m.Some? ==> Trim(m.value) != []
    ensures m.Some? ==> Get(parsed, "message") == Some(JString(m.value)) || Get(parsed, "error") == Some(JString(m.value))
  {
    var message := Coalesce(Get(parsed, "message"), Get(parsed, "error"));
    if message.Some? && message.value.JString? && Trim(message.value.s) != [] then
      Some(message.value.s)
    else None
  }

  /** The detail of a failed response: the message the JSON body carries,
      else the raw body, else the status text. */
  function ErrorDetail(statusText: string, body: string, parse: string -> Option<Json>): (detail: string)
    ensures body != "" ==> detail != ""
  {
    if body == "" then statusText
    else
      var parsed := parse(body);
      if parsed.Some? && IsObject(parsed.value) && JsonMessage(parsed.value).Some? then
        JsonMessage(parsed.value).value
      else body
  }

  /** `Request failed with status ${status}` plus ` - ${detail}` when there
      is a detail. */
  function FailureMessage(status: nat, detail: string): (m: string)
    ensures StartsWith(m, RequestFailedPrefix)
  {
    RequestFailedPrefix + NatToDecimal(status) + (if detail == "" then "" else " - " + detail)
  }

  /** How one attempt ends: with a result, or with a retry after a pause. */
  datatype Step = Return(result: Result<Json, string>) | RetryAfter(delay: int)

  /** The attempt numbered `attempt` (from 0), once it has fetched. Only an
      abort or a network failure is retried, and only before the last
      attempt. */
  function Classify(fetched: Fetched, attempt: nat, parse: string -> Option<Json>): (s: Step)
    requires attempt <= MaxRetries
    ensures s.RetryAfter? <==> attempt < MaxRetries && (fetched.NetworkFailure? || fetched.Aborted?)
    ensures s.RetryAfter? ==> s.delay == RetryDelays[attempt]
    ensures s.Return? && s.result.Success? <==>
      fetched.Responded? && Ok(fetched.status) && fetched.body != ""
      && parse(fetched.body).Some? && IsObject(parse(fetched.body).value)
    ensures s.Return? && s.result.Success? ==> s.result.value == parse(fetched.body).value
  {
    match fetched
    case Responded(status, statusText, body) =>
      if !Ok(status) then Return(Failure(FailureMessage(status, ErrorDetail(statusText, body, parse))))
      else if body == "" then Return(Failure(InvalidJson))
      else
        var parsed := parse(body);
        if parsed.Some? && IsObject(parsed.value) then Return(Success(parsed.value))
        else Return(Failure(InvalidJson))
    case NetworkFailure =>
      if attempt < MaxRetries then RetryAfter(RetryDelays[attempt]) else Return(Failure(NetworkError))
    case Aborted(signalAborted) =>
      if attempt < MaxRetries then RetryAfter(RetryDelays[attempt])
      else Return(Failure(if signalAborted then RequestCancelled else RequestTimeout))
    case OtherFailure =>
      Return(Failure(NetworkError))
  }

  /** The outcome of a call together with how many times it fetched and the
      pauses it took. */
  datatype Trace = Trace(result: Result<Json, string>, fetches: nat, waits: seq<int>)

  /** The loop from attempt `attempt` on. */
  function Run(attempts: seq<Attempt>, attempt: nat, parse: string -> Option<Json>): (t: Trace)
    requires |attempts| == MaxRetries + 1 && attempt <= MaxRetries + 1
    ensures t.result.Success? ==> IsObject(t.result.value) && t.fetches > 0
    decreases MaxRetries + 1 - attempt
  {
    if attempt > MaxRetries then Trace(Failure(NetworkError), 0, [])
    else if attempts[attempt].cancelledAtStart then Trace(Failure(RequestCancelled), 0, [])
    else
      match Classify(attempts[attempt].fetched, attempt, parse)
      case Return(result) => Trace(result, 1, [])
      case RetryAfter(delay) =>
        var rest := Run(attempts, attempt + 1, parse);
        Trace(rest.result, 1 + rest.fetches, [delay] + rest.waits)
  }

  /** `getJSON`: the attempt loop, with the error detail of a failed
      response built up step by step. */
  method GetJSON(attempts: seq<Attempt>, parse: string -> Option<Json>)
    returns (r: Result<Json, string>, fetches: nat, waits: seq<int>)
    requires |attempts| == MaxRetries + 1
    ensures Trace(r, fetches, waits) == Run(attempts, 0, parse)
  {
    fetches, waits := 0, [];
    var attempt: nat := 0;
    while attempt <= MaxRetries
      invariant attempt <= MaxRetries + 1
      invariant Run(attempts, 0, parse) == Trace(Run(attempts, attempt, parse).result,
        fetches + Run(attempts, attempt, parse).fetches, waits + Run(attempts, attempt, parse).waits)
      decreases MaxRetries + 1 - attempt
    {
      if attempts[attempt].cancelledAtStart {
        return Failure(RequestCancelled), fetches, waits;
      }
      fetches := fetches + 1;
      match attempts[attempt].fetched {
        case Responded(status, statusText, body) =>
          if !Ok(status) {
            var errorDetail := if body != "" then body else statusText;
            if body != "" {
              var parsed := parse(body);
              if parsed.Some? && IsObject(parsed.value) {
                var message := Coalesce(Get(parsed.value, "message"), Get(parsed.value, "error"));
                if message.Some? && message.value.JString? && |Trim(message.value.s)| > 0 {
                  errorDetail := message.value.s;
                }
              }
            }
            var detailSuffix := if errorDetail != "" then " - " + errorDetail else "";
            return Failure(RequestFailedPrefix + NatToDecimal(status) + detailSuffix), fetches, waits;
          }
          if body == "" {
            return Failure(InvalidJson), fetches, waits;
          }
          var parsedBody := parse(body);
          if parsedBody.None? || !IsObject(parsedBody.value) {
            return Failure(InvalidJson), fetches, waits;
          }
          return Success(parsedBody.value), fetches, waits;
        case NetworkFailure =>
        case Aborted(_) =>
        case OtherFailure =>
      }
      var fetched := attempts[attempt].fetched;
      var isAbortError := fetched.Aborted?;
      var isNetworkError := fetched.NetworkFailure?;
      var canRetry := attempt < MaxRetries && (isAbortError || isNetworkError);
      if !canRetry {
        if isAbortError {
          if fetched.signalAborted {
            return Failure(RequestCancelled), fetches, waits;
          }
          return Failure(RequestTimeout), fetches, waits;
        }
        return Failure(NetworkError), fetches, waits;
      }
      waits := waits + [RetryDelays[attempt]];
      attempt := attempt + 1;
    }
    return Failure(NetworkError), fetches, waits;
  }

  /** At most three fetches; the pauses taken are the first of 500 ms and
      1000 ms, one before each fetch after the first. */
  lemma {:induction false} RunBounds(attempts: seq<Attempt>, attempt: nat, parse: string -> Option<Json>)
    requires |attempts| == MaxRetries + 1 && attempt <= MaxRetries + 1
    ensures Run(attempts, attempt, parse).fetches <= MaxRetries + 1 - attempt
    ensures |Run(attempts, attempt, parse).waits| <= Run(attempts, attempt, parse).fetches
    ensures Run(attempts, attempt, parse).fetches <= |Run(attempts, attempt, parse).waits| + 1
    ensures forall k :: 0 <= k < |Run(attempts, attempt, parse).waits| ==>
      attempt + k < |RetryDelays| && Run(attempts, attempt, parse).waits[k] == RetryDelays[attempt + k]
    decreases MaxRetries + 1 - attempt
  {
    if attempt <= MaxRetries && !attempts[attempt].cancelledAtStart {
      var step := Classify(attempts[attempt].fetched, attempt, parse);
      if step.RetryAfter? {
        RunBounds(attempts, attempt + 1, parse);
      }
    }
  }

  /** A call makes at most three fetches and pauses at most twice. */
  lemma AtMostThreeAttempts(attempts: seq<Attempt>, parse: string -> Option<Json>)
    requires |attempts| == MaxRetries + 1
    ensures Run(attempts, 0, parse).fetches <= 3
    ensures Run(attempts, 0, parse).waits <= RetryDelays
  {
    RunBounds(attempts, 0, parse);
    var waits := Run(attempts, 0, parse).waits;
    assert waits == RetryDelays[..|waits|];
  }

  /** Every pause follows an attempt that started normally and failed with
      an abort or a network failure. */
  lemma {:induction false} OnlyTransientFailuresRetried(attempts: seq<Attempt>, attempt: nat, parse: string -> Option<Json>, k: nat)
    requires |attempts| == MaxRetries + 1 && attempt <= MaxRetries + 1
    requires k < |Run(attempts, attempt, parse).waits|
    ensures attempt + k <= MaxRetries
    ensures !attempts[attempt + k].cancelledAtStart
    ensures attempts[attempt + k].fetched.NetworkFailure? || attempts[attempt + k].fetched.Aborted?
    decreases MaxRetries + 1 - attempt
  {
    if k > 0 {
      OnlyTransientFailuresRetried(attempts, attempt + 1, parse, k - 1);
    }
  }

  /** The ways a call can fail: cancelled, timed out, a network error, an
      unusable body, or a response with an error status. */
  lemma {:induction false} RunErrors(attempts: seq<Attempt>, attempt: nat, parse: string -> Option<Json>)
    requires |attempts| == MaxRetries + 1 && attempt <= MaxRetries + 1
    ensures var r := Run(attempts, attempt, parse).result;
      r.Failure? ==>
        r.error in {RequestCancelled, RequestTimeout, NetworkError, InvalidJson}
        || StartsWith(r.error, RequestFailedPrefix)
    ensures var r := Run(attempts, attempt, parse).result;
      r.Success? ==> IsObject(r.value)
    decreases MaxRetries + 1 - attempt
  {
    if attempt <= MaxRetries && !attempts[attempt].cancelledAtStart {
      if Classify(attempts[attempt].fetched, attempt, parse).RetryAfter? {
        RunErrors(attempts, attempt + 1, parse);
      }
    }
  }

  /** A 2xx response whose body parses to a JSON object or array ends the
      call with that value, after exactly this one fetch. */
  lemma RunSucceeds(attempts: seq<Attempt>, a: nat, parse: string -> Option<Json>,
                    status: nat, statusText: string, body: string, v: Json)
    requires |attempts| == MaxRetries + 1 && a < |attempts|
    requires !attempts[a].cancelledAtStart && attempts[a].fetched == Responded(status, statusText, body)
    requires Ok(status) && body != "" && parse(body) == Some(v) && IsObject(v)
    ensures Run(attempts, a, parse) == Trace(Success(v), 1, [])
  {
  }

  /** A successful call has a source: some attempt, reached after pauses
      for transient failures only, got a 2xx response whose body parses to
      the returned object. */
  lemma {:induction false} RunSuccessSource(attempts: seq<Attempt>, attempt: nat, parse: string -> Option<Json>)
    requires |attempts| == MaxRetries + 1 && attempt <= MaxRetries + 1
    requires Run(attempts, attempt, parse).result.Success?
    ensures var k := attempt + |Run(attempts, attempt, parse).waits|;
      && k <= MaxRetries && !attempts[k].cancelledAtStart
      && attempts[k].fetched.Responded? && Ok(attempts[k].fetched.status) && attempts[k].fetched.body != ""
      && parse(attempts[k].fetched.body) == Some(Run(attempts, attempt, parse).result.value)
    decreases MaxRetries + 1 - attempt
  {
    var step := Classify(attempts[attempt].fetched, attempt, parse);
    if step.RetryAfter? {
      RunSuccessSource(attempts, attempt + 1, parse);
    }
  }

  /** A signal aborted before the call fails it with "Request cancelled"
      without fetching. */
  lemma CancelledBeforeStart(attempts: seq<Attempt>, parse: string -> Option<Json>)
    requires |attempts| == MaxRetries + 1 && attempts[0].cancelledAtStart
    ensures Run(attempts, 0, parse) == Trace(Failure(RequestCancelled), 0, [])
  {
  }

  /** A response with an error status ends the call at once, with the status
      and the detail in the message. */
  lemma ErrorStatusNotRetried(attempts: seq<Attempt>, parse: string -> Option<Json>, status: nat, statusText: string, body: string)
    requires |attempts| == MaxRetries + 1
    requires attempts[0] == Attempt(false, Responded(status, statusText, body)) && !Ok(status)
    ensures Run(attempts, 0, parse)
      == Trace(Failure(FailureMessage(status, ErrorDetail(statusText, body, parse))), 1, [])
  {
  }

  /** A successful response whose body is not a JSON object or array fails
      at once with "Invalid JSON". */
  lemma UnusableBodyNotRetried(attempts: seq<Attempt>, parse: string -> Option<Json>, status: nat, statusText: string, body: string)
    requires |attempts| == MaxRetries + 1
    requires attempts[0] == Attempt(false, Responded(status, statusText, body)) && Ok(status)
    requires body == "" || parse(body).None? || !IsObject(parse(body).value)
    ensures Run(attempts, 0, parse) == Trace(Failure(InvalidJson), 1, [])
  {
  }

  /** Three network failures in a row: three fetches, both pauses, and
      "Network error". */
  lemma PersistentNetworkFailure(attempts: seq<Attempt>, parse: string -> Option<Json>)
    requires |attempts| == MaxRetries + 1
    requires forall k :: 0 <= k < |attempts| ==> attempts[k] == Attempt(false, NetworkFailure)
    ensures Run(attempts, 0, parse) == Trace(Failure(NetworkError), 3, [500, 1000])
  {
    assert attempts[0] == Attempt(false, NetworkFailure);
    assert attempts[1] == Attempt(false, NetworkFailure);
    assert attempts[2] == Attempt(false, NetworkFailure);
  }

  /** An abort on the last attempt is "Request cancelled" when the caller's
      signal was aborted and "Request timeout" otherwise. */
  lemma LastAbort(attempts: seq<Attempt>, parse: string -> Option<Json>, signalAborted: bool)
    requires |attempts| == MaxRetries + 1
    requires attempts[MaxRetries] == Attempt(false, Aborted(signalAborted))
    ensures Run(attempts, MaxRetries, parse).result
      == Failure(if signalAborted then RequestCancelled else RequestTimeout)
  {
  }

  /** A caller that aborts during the first fetch is answered, after the
      500 ms pause, by the cancellation check of the second attempt. */
  lemma CancelledDuringFetch(attempts: seq<Attempt>, parse: string -> Option<Json>)
    requires |attempts| == MaxRetries + 1
    requires attempts[0] == Attempt(false, Aborted(true)) && attempts[1].cancelledAtStart
    ensures Run(attempts, 0, parse) == Trace(Failure(RequestCancelled), 1, [500])
  {
  }

  /** The detail of a failed response, case by case. */
  lemma ErrorDetailCases(statusText: string, body: string, parse: string -> Option<Json>)
    ensures body == "" ==> ErrorDetail(statusText, body, parse) == statusText
    ensures body != "" && (parse(body).None? || !IsObject(parse(body).value)) ==>
      ErrorDetail(statusText, body, parse) == body
    ensures var d := ErrorDetail(statusText, body, parse);
      d == statusText || d == body || Trim(d) != []
  {
  }

  /** A string `message` with content wins over `error`. */
  lemma MessagePreferred(fields: map<string, Json>, message: string)
    requires "message" in fields && fields["message"] == JString(message) && Trim(message) != []
    ensures JsonMessage(JObject(fields)) == Some(message)
  {
  }

  /** `error` is used only when `message` is absent or null. */
  lemma ErrorFallback(fields: map<string, Json>, error: string)
    requires "message" !in fields || fields["message"] == JNull
    requires "error" in fields && fields["error"] == JString(error) && Trim(error) != []
    ensures JsonMessage(JObject(fields)) == Some(error)
  {
  }

  /** A `message` that is present but not a string hides `error`, and the raw
      body is used instead. */
  lemma NonStringMessageHidesError(fields: map<string, Json>)
    requires "message" in fields && fields["message"] != JNull && !fields["message"].JString?
    ensures JsonMessage(JObject(fields)) == None
  {
  }

  /** The status can be read back from an error message: two different
      statuses never give the same message. */
  lemma FailureMessageNamesStatus(status1: nat, status2: nat, detail1: string, detail2: string)
    requires FailureMessage(status1, detail1) == FailureMessage(status2, detail2)
    requires detail1 == "" && detail2 == ""
    ensures status1 == status2
  {
    var m := FailureMessage(status1, detail1);
    assert NatToDecimal(status1) == m[|RequestFailedPrefix|..];
    assert NatToDecimal(status2) == m[|RequestFailedPrefix|..];
    DecimalRoundTrip(status1);
    DecimalRoundTrip(status2);
  }
}
