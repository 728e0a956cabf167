/**
 * The derived state of the converter screen in
 * src/features/Converter/Converter.tsx: the converted amount, the message
 * about a currency the rates lack, which error is shown, the time stamp on
 * display, and the swap of the two currencies.
 *
 * The codes the rates support (`supportedCodes`) are an input: they come
 * from `getSupportedCodesFromRates`, which is not part of this model.
 */
module Converter {
  import opened Wrappers
  import opened JsNumber
  import opened RatesService
  import Convert
  import AmountFormat

  const DefaultFrom := "EUR"
  const DefaultTo := "USD"
  const DefaultAmount := "1"

  /** `fromSupported` / `toSupported`: every code counts as supported until
      rates arrive. */
  predicate IsSupported(data: Option<RatesResponse>, supported: set<string>, code: string) {
    data.None? || code in supported
  }

  /** `result`: the converted amount, or `None` (`null`) when there are no
      rates, the amount is not a finite number, a currency is unsupported
      or the conversion throws. */
  function ConversionResult(data: Option<RatesResponse>, supported: set<string>, parsedAmount: Num,
                            from: string, to: string): (r: Option<Num>)
    ensures r.Some? <==>
      && data.Some? && parsedAmount.Finite?
      && from in supported && to in supported
      && Convert.Convert(parsedAmount, from, to, data.value.base, data.value.rates).Success?
    ensures r.Some? ==> r.value == Convert.Convert(parsedAmount, from, to, data.value.base, data.value.rates).value
  {
    if data.None? then None
    else if IsNaN(parsedAmount) || !IsFinite(parsedAmount) then None
    else if !IsSupported(data, supported, from) || !IsSupported(data, supported, to) then None
    else
      match Convert.Convert(parsedAmount, from, to, data.value.base, data.value.rates)
      case Success(value) => Some(value)
      case Failure(_) => None
  }

  function NotAvailable(code: string): string {
    "Currency " + code + " is not available in the latest rates."
  }

  /** `unsupportedMessage`: about `from` first, then about `to`. */
  function UnsupportedMessage(data: Option<RatesResponse>, supported: set<string>, from: string, to: string): (m: Option<string>)
    ensures m.None? <==> data.None? || (from in supported && to in supported)
    ensures m.Some? && from !in supported ==> m.value == NotAvailable(from)
    ensures m.Some? && from in supported ==> m.value == NotAvailable(to)
  {
    if data.None? then None
    else if !IsSupported(data, supported, from) then Some(NotAvailable(from))
    else if !IsSupported(data, supported, to) then Some(NotAvailable(to))
    else None
  }

  /** A currency reported as unavailable never comes with a result. */
  lemma UnsupportedMeansNoResult(data: Option<RatesResponse>, supported: set<string>, parsedAmount: Num, from: string, to: string)
    requires UnsupportedMessage(data, supported, from, to).Some?
    ensures ConversionResult(data, supported, parsedAmount, from, to).None?
  {
  }

  /** An amount the text box cannot parse (blank, a lone sign, and so on)
      shows no result. */
  lemma UnparsableAmountNoResult(data: Option<RatesResponse>, supported: set<string>, amountText: string,
                                 toNumber: string -> Num, from: string, to: string)
    requires AmountFormat.AmountText(amountText).None?
    ensures ConversionResult(data, supported, AmountFormat.ParseAmount(amountText, toNumber), from, to).None?
  {
  }

  /** With rates for both currencies, the result is the amount times the
      ratio of their rates. */
  lemma ResultIsCrossRate(response: RatesResponse, supported: set<string>, amount: real, from: string, to: string)
    requires from in supported && to in supported
    requires Convert.KnownPositive(from, response.base, response.rates)
    requires Convert.KnownPositive(to, response.base, response.rates)
    ensures ConversionResult(Some(response), supported, Finite(amount), from, to)
      == Some(Finite(amount * (Convert.RateOf(to, response.base, response.rates)
                               / Convert.RateOf(from, response.base, response.rates))))
  {
    Convert.ConvertKnown(amount, from, to, response.base, response.rates);
  }

  /** Swapping the currencies and converting the result back gives the
      amount that was typed. */
  lemma SwapConvertsBack(response: RatesResponse, supported: set<string>, amount: real, from: string, to: string)
    requires from in supported && to in supported
    requires Convert.KnownPositive(from, response.base, response.rates)
    requires Convert.KnownPositive(to, response.base, response.rates)
    ensures ConversionResult(Some(response), supported, Finite(amount), from, to).Some?
    ensures ConversionResult(Some(response), supported,
        ConversionResult(Some(response), supported, Finite(amount), from, to).value, to, from)
      == Some(Finite(amount))
  {
    Convert.ConvertRoundTrip(amount, from, to, response.base, response.rates);
    Convert.ConvertKnown(amount, from, to, response.base, response.rates);
  }

  /** JavaScript truthiness of a `string | null`. */
  predicate Truthy(s: Option<string>) {
    s.Some? && s.value != ""
  }

  /** `shouldShowError`. */
  predicate ShouldShowError(loading: bool, error: Option<string>, unsupported: Option<string>) {
    !loading && (Truthy(error) || Truthy(unsupported))
  }

  /** `errorMessage`: `error ?? unsupportedMessage`. */
  function ErrorMessage(error: Option<string>, unsupported: Option<string>): Option<string> {
    if error.Some? then error else unsupported
  }

  /** The error of the rates hook wins over the unavailable-currency message;
      nothing is shown while loading; whenever the alert is shown, it has a
      message, and a non-empty one unless the hook's error is the empty
      string. */
  lemma ShownError(loading: bool, error: Option<string>, data: Option<RatesResponse>, supported: set<string>, from: string, to: string)
    ensures var unsupported := UnsupportedMessage(data, supported, from, to);
      && (ShouldShowError(loading, error, unsupported) ==> !loading && ErrorMessage(error, unsupported).Some?)
      && (error.Some? ==> ErrorMessage(error, unsupported) == error)
      && (error != Some("") && ShouldShowError(loading, error, unsupported) ==>
            ErrorMessage(error, unsupported).value != "")
  {
  }

  /** `timestamp`: when the rates were fetched, else when the connectivity
      last changed. */
  function Timestamp(updatedAt: Option<int>, lastChangedAt: Option<int>): (t: Option<int>)
    ensures updatedAt.Some? ==> t == updatedAt
    ensures updatedAt.None? ==> t == lastChangedAt
  {
    if updatedAt.Some? then updatedAt else lastChangedAt
  }

  /** The persisted selections of the screen. */
  class ConverterState {
    var from: string
    var to: string
    var amountRaw: string

    /** The defaults used when nothing is stored. */
    constructor()
      ensures from == DefaultFrom && to == DefaultTo && amountRaw == DefaultAmount
    {
      from, to, amountRaw := DefaultFrom, DefaultTo, DefaultAmount;
    }

    /** `handleSwap`. */
    method HandleSwap()
      modifies this
      ensures from == old(to) && to == old(from) && amountRaw == old(amountRaw)
    {
      var previousFrom := from;
      from := to;
      to := previousFrom;
    }

    /** `handleAmountChange`. */
    method SetAmount(value: string)
      modifies this
      ensures amountRaw == value && from == old(from) && to == old(to)
    {
      amountRaw := value;
    }
  }
}
