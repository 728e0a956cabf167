# Currency converter: a verified model of its rate and amount pipeline

This project models the logic of a small browser currency converter written
in TypeScript and React. It covers:

- the two amount parsers (`parseAmount` of `src/lib/format.ts`, and
  `normalizeAmountInput` and `parseAmount` of `src/lib/money.ts`);
- cross-rate conversion (`src/lib/convert.ts`);
- cache freshness (`src/lib/cache.ts`);
- the currency search filter (`src/lib/search.ts`) and the currency
  dictionary (`src/lib/currencyList.ts`);
- the rates client: provider selection, request address, payload check and
  error mapping (`src/api/ratesService.ts`), and the `getJSON` retry loop
  (`src/api/http.ts`);
- the keyboard list navigation hook (`src/hooks/useKeyboardListNav.ts`);
- the cache-first rates hook (`src/hooks/useExchangeRates.ts`);
- the derived state of the converter screen
  (`src/features/Converter/Converter.tsx`).

Pure helpers are Dafny functions with lemmas about them. Loops are methods
proved against a specification function: the `getJSON` attempt loop, the
search loop and the dictionary fold against recursive functions, and the
payload check against the declarative predicate `WellFormedRatesPayload`. The two
hooks and the screen's persisted selections are classes whose methods
update fields in place.

JavaScript behaviour the code relies on is spelled out in shared modules:

- `JsString` models `trim` with the full `\s` white-space set, ASCII
  `toLowerCase`, `includes`, `lastIndexOf` and the decimal rendering of a
  status code.
- `JsNumber` models numbers as `NaN | Finite(real) | Infinity`.
- `Json` models parsed JSON values.

`Number(...)`, `Number.parseFloat` and `JSON.parse` are parameters of the
functions that call them. The clock (`Date.now()`) is the parameter `now`.
Environment variables are the `Env` record. Each network attempt is given
as what happened to it (`Http.Attempt`).

Files: `wrappers.dfy`, `js_string.dfy`, `js_number.dfy`, `json.dfy`,
`format.dfy`, `money.dfy`, `convert.dfy`, `cache.dfy`, `search.dfy`,
`currency_list.dfy`, `http.dfy`, `rates_service.dfy`,
`keyboard_list_nav.dfy`, `exchange_rates.dfy`, `converter.dfy`.

## Model

| member | source | states |
|---|---|---|
| JsString.Trim | src/lib/format.ts:9 | The result is empty exactly when the text is all white space, and otherwise neither starts nor ends with white space. |
| JsString.TrimPadded | src/lib/search.ts:8 | White space added around a text does not change what `trim` returns. |
| JsString.TrimLower | src/lib/search.ts:8-14 | Lower-casing commutes with `trim`. |
| JsString.ToLowerIdempotent | src/lib/search.ts:14 | Lower-casing twice is the same as lower-casing once. |
| JsString.ToLowerAt | src/lib/search.ts:14 | `toLowerCase` maps each character on its own, position by position. |
| JsString.LastIndexOf | src/lib/format.ts:33-34 | -1 exactly when the character is absent; otherwise a position holding it with no occurrence after it. |
| JsString.IncludesAt | src/lib/search.ts:18-22 | A text that contains the query at some position `includes` it. |
| JsString.DecimalRoundTrip | src/api/http.ts:90 | Reading back the decimal rendering of a status gives the status. |
| AmountFormat.RemoveSeparators | src/lib/format.ts:58 | Removing `.` and `,` leaves no separator and never lengthens the text. |
| AmountFormat.StripSpaces | src/lib/format.ts:15 | After removing the no-break space and `\s+`, no white space is left. |
| AmountFormat.SignOf | src/lib/format.ts:21-27 | The sign is empty, `+` or `-`. It is the first character when that is a sign, and empty otherwise. |
| AmountFormat.DecimalIndex | src/lib/format.ts:33-43 | No index exactly when the text has no separator. Otherwise it is the position of a `.` or `,` with no separator after it, the rightmost one. |
| AmountFormat.NormalizeNumberString | src/lib/format.ts:56-65 | No `,`, at most one `.`, never a trailing `.`. The non-separator characters of the input are kept in order. There is a `.` exactly when there is a decimal index and a non-empty fractional part, placed right after the integer digits. |
| AmountFormat.AmountText | src/lib/format.ts:9-51 | The text handed to `Number(...)`, when there is one, is non-empty and comes from input with some non-white content. |
| AmountFormat.SignedText | src/lib/format.ts:21-51 | A leading `+` or `-` is kept in front of the normalised rest; without one, the text is the normalisation of the whole. |
| AmountFormat.SignedAmountText | src/lib/format.ts:21-51 | A sign followed by an unsigned number reaches `Number(...)` as the sign followed by the normalised digits. |
| AmountFormat.SignedParse | src/lib/format.ts:21-54 | A signed amount parses to the value of the sign and the normalised digits when that is finite, and to NaN otherwise. |
| AmountFormat.ParseAmount | src/lib/format.ts:8-54 | Never infinite. NaN whenever the text is rejected before conversion. When the text is accepted, the result is its conversion if that is finite and NaN otherwise, and a finite result is always such a conversion. |
| AmountFormat.SourceExamplesParse | tests/unit/format.test.ts:11-21 | "1,234.56" and "1.234,56" both parse to the value of "1234.56" whenever that value is finite. |
| AmountFormat.BlankIsNaN | src/lib/format.ts:9-13 | Empty or all-white-space input, including the no-break space, gives NaN. |
| AmountFormat.SecondBlankCheckUnreachable | src/lib/format.ts:15-19 | Text that is non-empty after trimming stays non-empty after white space is removed, so the second emptiness check never fires. |
| AmountFormat.AmountTextShape | src/lib/format.ts:21-51 | The text handed to `Number(...)` is non-empty, free of white space and `,`, has at most one `.` that is never last, and has a sign only in front. |
| AmountFormat.NormalizedChars | src/lib/format.ts:56-65 | Normalising introduces no white space and no sign. |
| AmountFormat.GroupedAmount | src/lib/format.ts:33-65 | In either grouping convention, the last separator is the decimal point and the earlier one is dropped. |
| AmountFormat.SourceExamples | tests/unit/format.test.ts:11-21 | "1,234.56" and "1.234,56" both reach `Number(...)` as "1234.56". |
| AmountFormat.TrailingSeparatorDropped | src/lib/format.ts:62-64 | A trailing separator is dropped with its empty fractional part: "12." becomes "12". |
| AmountFormat.SeparatorsOnlyIsNaN | src/lib/format.ts:45-49 | Text made only of separators, such as "." or ",,", normalises to nothing and gives NaN. |
| AmountFormat.StraySignIsNaN | src/lib/format.ts:29-31 | A `+` or `-` anywhere but in front gives NaN. |
| AmountFormat.LoneSignIsNaN | src/lib/format.ts:24-31 | A sign with nothing after it gives NaN. |
| Money.AmountChars | src/lib/money.ts:5 | Only digits, `.` and `,` survive the first replace, and the text never grows. |
| Money.NormalizeAmountInput | src/lib/money.ts:3-9 | The output is never longer than the input and holds only digits and `.`. |
| Money.NormalizeAmountInputSpec | src/lib/money.ts:4-8 | Independent description: after filtering, every `,` before the first `.` becomes `.`, and every `,` after it is dropped. |
| Money.NoCommaLeft | src/lib/money.ts:6-8 | The output contains no `,`. |
| Money.NormalizeAmountInputIdempotent | src/lib/money.ts:3-9 | Normalising twice gives the same as normalising once. |
| Money.DigitsKept | src/lib/money.ts:4-8 | Every digit of the filtered text survives, in order. |
| Money.ReplaceFirst | src/lib/money.ts:16 | Only the first `,` becomes `.`; text without `,` is unchanged. |
| Money.ParseAmount | src/lib/money.ts:11-20 | Always finite. 0 for the empty string. Otherwise the parse of the text with its first `,` made `.`, and 0 when that parse is not finite. |
| Convert.ResolveRate | src/lib/convert.ts:11-23 | Succeeds exactly for the base (rate 1) or a listed non-NaN rate, which it returns. Otherwise it fails with "Unknown currency code". |
| Convert.Convert | src/lib/convert.ts:25-36 | Equal codes give the amount unchanged. Otherwise it succeeds exactly when both rates resolve, and the only error is "Unknown currency code". |
| Convert.RateOf | src/lib/convert.ts:12-22 | For a known currency, the positive rate that `resolveRate` returns. |
| Convert.ConvertKnown | src/lib/convert.ts:32-35 | Between known currencies the result is `amount * (rateTo / rateFrom)`. |
| Convert.ConvertRoundTrip | src/lib/convert.ts:25-36 | Converting X to Y and back returns the original amount. |
| Convert.ConvertThroughBase | src/lib/convert.ts:11-36 | Converting through the base currency equals converting straight across. |
| Convert.UnknownCodeFails | src/lib/convert.ts:16-20 | A non-base code that is missing or NaN makes conversion between different codes fail with "Unknown currency code". |
| Convert.ConvertExamples | tests/unit/convert.test.ts:18-37 | With base EUR, USD 1.1 and GBP 0.9: 100 USD is 900/11 GBP and 1000/11 EUR, 50 EUR is 45 GBP, and JPY fails. |
| Cache.IsExpired | src/lib/cache.ts:7-9 | An entry can only be expired, under a non-negative ttl, once the clock has passed its time stamp. |
| Cache.ExpiryBoundary | src/lib/cache.ts:7-9 | An entry is fresh at exactly `ttl` ms of age and stale 1 ms later. |
| Cache.ExpiryMonotone | src/lib/cache.ts:7-9 | A stale entry stays stale as time passes, and a longer ttl never makes a fresh entry stale. |
| Cache.DefaultTtlExamples | tests/unit/cache.test.ts:73-85 | The default ttl is 300 000 ms. 1 ms beyond it is stale and 1 ms within it is fresh. |
| Cache.TestCallIgnoresNow | tests/unit/cache.test.ts:80-85 | Under a real clock, the test's "fresh" entry is stale, because the `now` the test passes is ignored. |
| Cache.BuildCachedRates | src/lib/cache.ts:11-19 | Keeps `base`, `date` and `rates`, and stores the given timestamp or else the current time. |
| Cache.FreshEntryNotExpired | src/lib/cache.ts:7-19 | An entry built now is not expired now. |
| Search.Filtered | src/lib/search.ts:17-29 | The filtered list is never longer than the list. |
| Search.CollectMatches | src/lib/search.ts:15-29 | The loop pushes exactly the items of `Filtered`, in list order. |
| Search.FilterResult | src/lib/search.ts:5-30 | The value `filterCurrencies` returns: never longer than the list, and a list equal to the input for a blank query. |
| Search.FilterCurrencies | src/lib/search.ts:5-30 | Returns a list equal to the input for a blank query, and otherwise the filtered list for the trimmed, lower-cased query. |
| Search.FilteredMembers | src/lib/search.ts:14-26 | An item is kept iff it is in the list and its code or name, or its symbol when it has one, lower-cased, contains the query. |
| Search.FilteredIsSubsequence | src/lib/search.ts:15-29 | The result is a subsequence of the list. |
| Search.FilteredIdempotent | src/lib/search.ts:17-29 | Filtering the filtered list again with the same query changes nothing. |
| Search.FilterResultIdempotent | src/lib/search.ts:5-30 | `filterCurrencies` applied to its own result with the same query returns that result. |
| Search.FilterResultIgnoresPadding | src/lib/search.ts:8-14 | White space around the query does not change the result. |
| Search.FilterResultIgnoresCase | src/lib/search.ts:8-14 | The letter case of the query does not change the result. |
| Search.NoSymbolMatchesCodeOrName | src/lib/search.ts:20-22 | Items without a symbol are matched on code and name alone. |
| CurrencyList.Dictionary | src/lib/currencyList.ts:5-10 | The last item is always stored under its own code. |
| CurrencyList.BuildCurrencyDictionary | src/lib/currencyList.ts:5-10 | The accumulating loop builds exactly `Dictionary(items)`. |
| CurrencyList.DictionaryKeys | src/lib/currencyList.ts:5-10 | The keys are exactly the codes of the items. |
| CurrencyList.DictionaryLastWins | src/lib/currencyList.ts:6-8 | A code is stored with the last item that carries it. |
| CurrencyList.DictionaryEntries | src/lib/currencyList.ts:5-10 | Every entry carries the code it is stored under and is one of the items. |
| CurrencyList.EmptyDictionary | src/lib/currencyList.ts:5-10 | An empty list gives an empty dictionary. |
| CurrencyList.GetCurrency | src/lib/currencyList.ts:12-17 | Returns the entry for a present code, and nothing exactly when the code is absent. |
| CurrencyList.GetCurrencyFromList | src/lib/currencyList.ts:5-17 | In a built dictionary, a lookup finds an item with that code exactly when some item has it. |
| RatesService.GetRatesSource | src/api/ratesService.ts:18-21 | fxratesapi exactly when the flag is "fxrates", otherwise VATComply. |
| RatesService.DropTrailingSlash | src/api/ratesService.ts:34 | Exactly one trailing `/` is removed, if there is one. |
| RatesService.OverrideUrl | src/api/ratesService.ts:31-38 | For any override, the address is the override less one trailing `/`, followed by the provider's path; an override without a trailing `/` is used unchanged. |
| RatesService.BuildRatesRequest | src/api/ratesService.ts:29-38 | The time limit is 10 000 ms. An `api_key` is sent exactly for fxratesapi with a non-empty key, and it is that key. |
| RatesService.DefaultRequests | src/api/ratesService.ts:31-38 | Without overrides the addresses are https://api.vatcomply.com/rates and https://api.fxratesapi.com/latest. VATComply never gets a key. |
| RatesService.OverrideSlash | src/api/ratesService.ts:31-38 | An override's single trailing `/` is dropped before the path, and only one of two. |
| RatesService.EmptyOverride | src/api/ratesService.ts:31-35 | An empty override still counts as set: the address string is the bare path, which `buildUrl` then rejects as not an absolute URL. |
| RatesService.WellFormedRatesPayload | src/api/ratesService.ts:63-85 | A well-formed payload and its `rates` are truthy, so the `!payload` and `!rates` tests of the source add nothing to the object tests. |
| RatesService.IsValidRatesPayload | src/api/ratesService.ts:63-85 | The early-return loop over the rate values accepts exactly the well-formed payloads: an object whose `base` is a string with content and whose `rates` is an object or array of non-NaN numbers. |
| RatesService.ArrayRates | src/api/ratesService.ts:78-82 | The index-keyed rates of an array hold no NaN. |
| RatesService.ToRatesResponse | src/api/ratesService.ts:50-53 | The response has a non-blank base and no NaN rate. |
| RatesService.ObjectRatesKept | src/api/ratesService.ts:50-53 | For an object of rates, the response keeps the base, exactly its codes, and each rate as given. |
| RatesService.OtherFieldsDropped | src/api/ratesService.ts:50-53 | Fields other than `base` and `rates`, such as `date`, neither affect validity nor reach the response. |
| RatesService.SingleRateChecked | src/api/ratesService.ts:78-82 | A one-rate payload is accepted exactly when the rate is not NaN, so an infinite rate passes. |
| RatesService.FetchRates | src/api/ratesService.ts:29-61 | Once the request address is accepted, fails only with "Invalid rates payload" or "Unable to fetch exchange rates"; a success has a base with content. |
| RatesService.FetchRatesErrors | src/api/ratesService.ts:40-60 | `fetchRates` fails only with "Invalid rates payload" (exactly when the object fetched is malformed) or "Unable to fetch exchange rates", and never passes through "Request cancelled". It succeeds exactly when `getJSON` returned a well-formed payload, and then returns `{ base, rates }` of that payload. |
| RatesService.FirstResponseGivesRates | src/api/ratesService.ts:41-53 | A first attempt answered with a 2xx response holding a well-formed payload gives the base and rates of that payload. |
| RatesService.CancelledRequestReportedAsFailure | src/api/ratesService.ts:54-60 | A request cancelled before it starts is reported as "Unable to fetch exchange rates". |
| RatesService.FetchRatesKeepingCancel | src/api/ratesService.ts:54-60 | The corrected mapping fails only with "Invalid rates payload", "Unable to fetch exchange rates" or "Request cancelled"; a success has a base with content. |
| RatesService.FetchRatesKeepingCancelSpec | src/api/ratesService.ts:54-60 | The corrected mapping reports "Request cancelled" exactly when `getJSON` did, and otherwise agrees with `fetchRates`. |
| Http.FailureMessage | src/api/http.ts:89-90 | The message starts with "Request failed with status ". |
| Http.JsonMessage | src/api/http.ts:75-82 | A message found in an error body has non-white content and is the string under `message` or under `error`. |
| Http.ErrorDetail | src/api/http.ts:71-87 | A non-empty body always yields a non-empty detail, so the message then carries " - " and a detail. |
| Http.Classify | src/api/http.ts:93-138 | An attempt is retried exactly when it is not the last and failed by abort or network failure. The pause is 500 ms then 1000 ms. It succeeds exactly on a 2xx response whose non-empty body parses to an object or array, and returns that value. |
| Http.Run | src/api/http.ts:43-143 | The attempt loop from a given attempt on, as a specification: a success is an object or array and follows at least one fetch. |
| Http.GetJSON | src/api/http.ts:43-143 | The attempt loop returns the result, the fetch count and the pauses of the specification `Run`. |
| Http.RunBounds | src/api/http.ts:45-48 | From attempt `a` on, at most 3 − a fetches. The pauses are the matching prefix of [500, 1000], one before each later fetch. |
| Http.AtMostThreeAttempts | src/api/http.ts:45-48 | At most three fetches, and the pauses are a prefix of [500, 1000]. |
| Http.OnlyTransientFailuresRetried | src/api/http.ts:113-116 | Every pause follows an attempt that started normally and ended in an abort or a network failure. |
| Http.RunErrors | src/api/http.ts:93-135 | A failure is "Request cancelled", "Request timeout", "Network error", "Invalid JSON" or "Request failed with status …". A success is a JSON object or array. |
| Http.RunSucceeds | src/api/http.ts:93-109 | A 2xx response whose non-empty body parses to an object or array ends the call with that value after one fetch. |
| Http.RunSuccessSource | src/api/http.ts:43-143 | Every success comes from an attempt, reached after pauses for transient failures only, that got a 2xx response whose body parses to the returned value. |
| Http.CancelledBeforeStart | src/api/http.ts:52-56 | An already aborted signal fails with "Request cancelled" without fetching. |
| Http.ErrorStatusNotRetried | src/api/http.ts:70-91 | A non-2xx response ends the call at once with the status and detail message. |
| Http.UnusableBodyNotRetried | src/api/http.ts:93-107 | An empty, unparsable or non-object body fails at once with "Invalid JSON". |
| Http.PersistentNetworkFailure | src/api/http.ts:114-138 | Three network failures give three fetches, pauses [500, 1000], and "Network error". |
| Http.LastAbort | src/api/http.ts:119-124 | An abort on the last attempt is "Request cancelled" if the signal was aborted, and "Request timeout" otherwise. |
| Http.CancelledDuringFetch | src/api/http.ts:52-56 | An abort during the first fetch is retried, then reported as "Request cancelled" by the next attempt's check. |
| Http.ErrorDetailCases | src/api/http.ts:71-87 | The detail is the status text for an empty body and the raw body for a non-object one. It is always the status text, the body, or a message with content. |
| Http.MessagePreferred | src/api/http.ts:75-82 | A string `message` with content wins. |
| Http.ErrorFallback | src/api/http.ts:78-82 | `error` is used when `message` is absent or null. |
| Http.NonStringMessageHidesError | src/api/http.ts:78-80 | A non-null `message` that is not a string hides `error`. |
| Http.FailureMessageNamesStatus | src/api/http.ts:90 | Two different statuses without detail never give the same message. |
| KeyboardListNav.ClampIndex | src/hooks/useKeyboardListNav.ts:6-23 | 0 for an empty list. Otherwise always in range, and an in-range index is unchanged. |
| KeyboardListNav.WrapAround | src/hooks/useKeyboardListNav.ts:6-23 | Past the end wraps to 0, and before the start wraps to the last row. |
| KeyboardListNav.ArrowsAreModular | src/hooks/useKeyboardListNav.ts:28-37 | From a row in range, ArrowDown moves to (h+1) mod n and ArrowUp to (h−1) mod n. |
| KeyboardListNav.ArrowsUndoEachOther | src/hooks/useKeyboardListNav.ts:28-37 | ArrowUp undoes ArrowDown, and ArrowDown undoes ArrowUp. |
| KeyboardListNav.ListNav.constructor | src/hooks/useKeyboardListNav.ts:3-4 | The highlighted index starts at 0 and nothing has been selected. |
| KeyboardListNav.ListNav.SetLength | src/hooks/useKeyboardListNav.ts:3 | A new length leaves the index and the selections alone. |
| KeyboardListNav.ListNav.SetHighlightedIndex | src/hooks/useKeyboardListNav.ts:55-59 | Sets the index and nothing else. |
| KeyboardListNav.ListNav.HandleKeyDown | src/hooks/useKeyboardListNav.ts:25-53 | Arrows move the index with wrap-around. Enter selects the highlighted row and Escape selects −1, leaving the index alone. Exactly those four keys are prevented, and any other key changes nothing. An in-range index stays in range. |
| ExchangeRates.RatesHook.constructor | src/hooks/useExchangeRates.ts:20-25 | No data, no time stamp, loading, no error, nothing in flight. |
| ExchangeRates.RatesHook.SetData | src/hooks/useExchangeRates.ts:48-66 | Sets data and time stamp, with loading off and the error cleared; nothing else changes; the class invariant is kept. |
| ExchangeRates.RatesHook.SetError | src/hooks/useExchangeRates.ts:68-80 | Shows the message and stops loading, keeping the data held; the class invariant is kept. |
| ExchangeRates.RatesHook.ClearError | src/hooks/useExchangeRates.ts:82-93 | Only the error is reset; the class invariant is kept. |
| ExchangeRates.RatesHook.RunFetch | src/hooks/useExchangeRates.ts:95-130 | Does nothing while a fetch is in flight. Offline, it only shows a given offline message. Otherwise it starts a fetch with the error cleared and loading forced if asked, leaving it in flight with a controller; when nothing starts the in-flight state is unchanged. A previous controller is never aborted. |
| ExchangeRates.RatesHook.FinishFetch | src/hooks/useExchangeRates.ts:131-147 | The fetch is always over. Success writes the cache and shows the rates. "Request cancelled" changes nothing. Any other failure shows its message and keeps the data. |
| ExchangeRates.RatesHook.RunMountEffect | src/hooks/useExchangeRates.ts:159-178 | A cache entry is shown at once, with a background fetch only when online and stale. Without a cache, offline reports "No network and no cached rates." and online fetches with loading shown. A started fetch is in flight with its controller, so it can be settled; otherwise the in-flight state is kept, and without a cache online the loading flag and error are kept too. |
| ExchangeRates.RatesHook.Reload | src/hooks/useExchangeRates.ts:180-182 | A fetch with loading shown, or "Offline: cannot refresh" when offline. |
| ExchangeRates.RatesHook.SetOnline | src/hooks/useExchangeRates.ts:37 | Only the connectivity changes; the class invariant is kept. |
| ExchangeRates.RatesHook.Unmount | src/hooks/useExchangeRates.ts:184-190 | The clean-up aborts a controller exactly when a fetch is in flight. |
| Converter.ConversionResult | src/features/Converter/Converter.tsx:53-77 | A result exists exactly when there are rates, a finite amount, both codes supported and a successful conversion, and then it is that conversion. |
| Converter.UnsupportedMessage | src/features/Converter/Converter.tsx:79-93 | None without rates or with both codes supported. Otherwise it names `from` first, then `to`. |
| Converter.UnsupportedMeansNoResult | src/features/Converter/Converter.tsx:50-93 | A currency reported as unavailable never comes with a result. |
| Converter.UnparsableAmountNoResult | src/features/Converter/Converter.tsx:53-60 | Text that the amount parser rejects shows no result. |
| Converter.ResultIsCrossRate | src/features/Converter/Converter.tsx:66-76 | With known rates for both codes, the result is amount × rateTo / rateFrom. |
| Converter.SwapConvertsBack | src/features/Converter/Converter.tsx:104-107 | After a swap, converting the result gives back the amount typed. |
| Converter.ShownError | src/features/Converter/Converter.tsx:119-120 | Nothing is shown while loading. The hook's error wins over the unsupported message. A shown alert always has a message. |
| Converter.Timestamp | src/features/Converter/Converter.tsx:121 | The rates' time stamp when there is one, else the last connectivity change. |
| Converter.ConverterState.constructor | src/features/Converter/Converter.tsx:18-28 | The defaults are EUR, USD and "1". |
| Converter.ConverterState.HandleSwap | src/features/Converter/Converter.tsx:104-107 | Exchanges `from` and `to`, and leaves the amount alone. |
| Converter.ConverterState.SetAmount | src/features/Converter/Converter.tsx:97-102 | Stores the amount text, leaving the currencies alone. |

## Left out

- `formatNumber` (`src/lib/format.ts`) is left out because it formats through `Intl.NumberFormat`, a locale library.
- `buildUrl` is left out: the request address is the plain concatenation of base and path, and the `api_key` parameter is a separate field of `RatesRequest`. URL parsing and percent-encoding are not modelled.
- RatesService.FetchRates: an override that is not an absolute URL, such as an empty one, makes `buildUrl` (`new URL(...)`) throw its `TypeError` before the `try`, so `fetchRates` rejects with that error, unmapped and before any request. The model has no such failure: it assumes the address is accepted.
- Search.FilterCurrencies: for a blank query the source returns the very list it was given; the model returns an equal sequence, since reference identity is not represented.
- `fetch`, `response.text()`, `setTimeout`, `AbortController` and event listeners are not modelled. Each attempt is given as what came of it (`Http.Attempt`). The timer that `getJSON` never clears on success is not represented either.
- The final `throw new Error('Network error')` after the loop of `getJSON` cannot be reached, since the last attempt always returns or throws. `Http.Run` keeps it only as the value past the last attempt.
- `Number(...)`, `Number.parseFloat` and `JSON.parse` are parameters. Floating-point rounding, signed zero and the IEEE rules for infinities are not modelled: `JsNumber` computes over reals.
- JsString.ToLower: lower-cases ASCII A–Z only; other Unicode case mappings of `toLowerCase` are not modelled.
- Lookups such as `rates[code]` do not see inherited `Object.prototype` keys.
- RatesService.IsValidRatesPayload: checks the rate values as a set, so it does not model the order of `Object.values`. The verdict does not depend on that order.
- ExchangeRates.RatesHook.FinishFetch: the `'Failed to fetch rates'` message for a thrown non-`Error` is not modelled, since `fetchRates` only throws `Error`s.
- ExchangeRates.RatesHook.SetData: React's same-state shortcuts, which return `prev` when nothing changes, are not distinguished from an update with equal values.
- `readRatesCache`, `writeRatesCache` and the storage behind them are not part of this model. The entry read is the parameter `cache`, and each write is recorded in `cacheWrites`.
- `useLocalStorage`, `useDebouncedValue` and the `OnlineProvider` are not part of this model. The screen's selections are plain fields, the debounced amount is the amount passed in, and connectivity is the `online` field.
- `getSupportedCodesFromRates` and `makeDisplayList` are not defined in the files modelled here. The supported codes are an input set.
- Cache.IsExpired: timestamps and the clock are integers. Non-finite or fractional timestamps are not represented.
- Http.FailureMessageNamesStatus: covers messages without a detail only; with arbitrary details two statuses can give the same message text.
- The presentation components and `src/App.tsx` are rendering only and are not modelled.

## Findings

| source | as written | input that shows it | evidently intended | confidence | as-written member | corrected member |
|---|---|---|---|---|---|---|
| src/api/ratesService.ts:54-60 | Every error other than "Invalid rates payload" is replaced by "Unable to fetch exchange rates", including "Request cancelled". The hook's branch that ignores a cancellation (src/hooks/useExchangeRates.ts:138-140) can therefore never fire, and a cancelled fetch is shown as a failure. | A call whose first attempt finds the caller's signal already aborted (`attempts[0].cancelledAtStart`) | Pass "Request cancelled" through unchanged, so the hook can recognise it | medium; not executed | RatesService.CancelledRequestReportedAsFailure | RatesService.FetchRatesKeepingCancelSpec |
| tests/unit/cache.test.ts:80-85 | The test passes `now = 10 000` as a third argument, but `isExpired` (src/lib/cache.ts:7-9) has no third parameter and reads the clock. | Any clock reading above 10 001 ms after the epoch: the entry at `10 000 − ttl + 1` is reported stale | `isExpired` takes the current time as a parameter, as `Cache.IsExpired` does | low (the test setup file is not part of this model); not executed | Cache.TestCallIgnoresNow | Cache.DefaultTtlExamples |
