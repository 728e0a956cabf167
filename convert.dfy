/**
 * Cross-currency conversion of src/lib/convert.ts. Rates are quoted
 * against `base` (one unit of base buys `rates[code]` units of `code`);
 * the base currency itself has rate 1 whether or not the table lists it.
 */
module Convert {
  import opened Wrappers
  import opened JsNumber

  const UnknownCurrencyError := "Unknown currency code"

  /** `resolveRate`: the thrown error becomes a `Failure`. */
  function ResolveRate(code: string, base: string, rates: map<string, Num>): (r: Result<Num, string>)
    ensures r.Success? <==> code == base || (code in rates && !IsNaN(rates[code]))
    ensures r.Failure? ==> r.error == UnknownCurrencyError
    ensures code == base ==> r == Success(Finite(1.0))
    ensures code != base && r.Success? ==> r.value == rates[code]
  {
    if code == base then Success(Finite(1.0))
    else if code !in rates || IsNaN(rates[code]) then Failure(UnknownCurrencyError)
    else Success(rates[code])
  }

  /** `convert`: the amount unchanged between equal codes, otherwise
      `amount * (rateTo / rateFrom)`, with `to` resolved before `from`. */
  function Convert(amount: Num, from: string, to: string, base: string, rates: map<string, Num>): (r: Result<Num, string>)
    ensures from == to ==> r == Success(amount)
    ensures from != to ==>
      (r.Success? <==> ResolveRate(to, base, rates).Success? && ResolveRate(from, base, rates).Success?)
    ensures r.Failure? ==> r.error == UnknownCurrencyError
  {
    if from == to then Success(amount)
    else
      match ResolveRate(to, base, rates)
      case Failure(e) => Failure(e)
      case Success(rateTo) =>
        match ResolveRate(from, base, rates)
        case Failure(e) => Failure(e)
        case Success(rateFrom) => Success(Mul(amount, Div(rateTo, rateFrom)))
  }

  /** `code` is the base, or the table lists a finite, positive rate for it. */
  predicate KnownPositive(code: string, base: string, rates: map<string, Num>) {
    code == base || (code in rates && rates[code].Finite? && rates[code].value > 0.0)
  }

  /** The value of one unit of base in `code`, for a currency the table knows. */
  function RateOf(code: string, base: string, rates: map<string, Num>): (r: real)
    requires KnownPositive(code, base, rates)
    ensures r > 0.0
    ensures ResolveRate(code, base, rates) == Success(Finite(r))
  {
    if code == base then 1.0 else rates[code].value
  }

  /** Between two known currencies the result is the amount times the ratio
      of their rates, so converting from base multiplies by the target rate
      and converting to base divides by the source rate. */
  lemma ConvertKnown(amount: real, from: string, to: string, base: string, rates: map<string, Num>)
    requires KnownPositive(from, base, rates) && KnownPositive(to, base, rates)
    ensures Convert(Finite(amount), from, to, base, rates).Success?
    ensures Convert(Finite(amount), from, to, base, rates).value
      == Finite(amount * (RateOf(to, base, rates) / RateOf(from, base, rates)))
  {
    var a := RateOf(from, base, rates);
    var b := RateOf(to, base, rates);
    if from == to {
      SelfRatio(amount, a);
    } else {
      var q := b / a;
      assert Div(Finite(b), Finite(a)) == Finite(q);
      assert Mul(Finite(amount), Finite(q)) == Finite(amount * q);
      assert q == RateOf(to, base, rates) / RateOf(from, base, rates);
      assert Convert(Finite(amount), from, to, base, rates) == Success(Finite(amount * q));
      assert amount * q == amount * (RateOf(to, base, rates) / RateOf(from, base, rates));
    }
  }

  /** Converting there and back again returns the original amount. */
  lemma ConvertRoundTrip(amount: real, from: string, to: string, base: string, rates: map<string, Num>)
    requires KnownPositive(from, base, rates) && KnownPositive(to, base, rates)
    ensures Convert(Finite(amount), from, to, base, rates).Success?
    ensures Convert(Convert(Finite(amount), from, to, base, rates).value, to, from, base, rates)
      == Success(Finite(amount))
  {
    ConvertKnown(amount, from, to, base, rates);
    var x := amount * (RateOf(to, base, rates) / RateOf(from, base, rates));
    assert Convert(Finite(amount), from, to, base, rates).value == Finite(x);
    ConvertKnown(x, to, from, base, rates);
    assert Convert(Finite(x), to, from, base, rates).value == Finite(x * (RateOf(from, base, rates) / RateOf(to, base, rates)));
    RatioCancels(amount, RateOf(from, base, rates), RateOf(to, base, rates));
    assert x * (RateOf(from, base, rates) / RateOf(to, base, rates)) == amount;
    assert Convert(Finite(x), to, from, base, rates).value == Finite(amount);
  }

  lemma SelfRatio(x: real, a: real)
    requires a > 0.0
    ensures x * (a / a) == x
  {
  }

  lemma RatioCancels(x: real, a: real, b: real)
    requires a > 0.0 && b > 0.0
    ensures x * (b / a) * (a / b) == x
  {
    assert (b / a) * (a / b) == 1.0;
  }

  lemma RatioThroughOne(x: real, a: real, b: real)
    requires a > 0.0
    ensures x * (1.0 / a) * (b / 1.0) == x * (b / a)
  {
    assert (1.0 / a) * b == b / a;
  }

  /** Conversion through the base currency and straight across agree. */
  lemma ConvertThroughBase(amount: real, from: string, to: string, base: string, rates: map<string, Num>)
    requires KnownPositive(from, base, rates) && KnownPositive(to, base, rates)
    ensures Convert(Finite(amount), from, base, base, rates).Success?
    ensures Convert(Convert(Finite(amount), from, base, base, rates).value, base, to, base, rates)
      == Convert(Finite(amount), from, to, base, rates)
  {
    var a := RateOf(from, base, rates);
    var b := RateOf(to, base, rates);
    ConvertKnown(amount, from, base, base, rates);
    var x := amount * (1.0 / a);
    assert Convert(Finite(amount), from, base, base, rates).value == Finite(x);
    ConvertKnown(x, base, to, base, rates);
    assert Convert(Finite(x), base, to, base, rates).value == Finite(x * (b / 1.0));
    ConvertKnown(amount, from, to, base, rates);
    assert Convert(Finite(amount), from, to, base, rates).value == Finite(amount * (b / a));
    RatioThroughOne(amount, a, b);
    assert x * (b / 1.0) == amount * (b / a);
  }

  /** A code that is neither the base nor a number in the table makes any
      conversion between different codes fail. */
  lemma UnknownCodeFails(amount: Num, from: string, to: string, base: string, rates: map<string, Num>, unknown: string)
    requires from != to
    requires unknown == from || unknown == to
    requires unknown != base && (unknown !in rates || rates[unknown].NaN?)
    ensures Convert(amount, from, to, base, rates) == Failure(UnknownCurrencyError)
  {
  }

  /** With EUR as base, USD at 1.1 and GBP at 0.9, 100 USD is 900/11 GBP,
      100 USD is 1000/11 EUR and 50 EUR is 45 GBP. */
  lemma ConvertExamples()
    ensures var rates := map["USD" := Finite(1.1), "GBP" := Finite(0.9)];
      && Convert(Finite(100.0), "USD", "GBP", "EUR", rates) == Success(Finite(900.0 / 11.0))
      && Convert(Finite(100.0), "USD", "EUR", "EUR", rates) == Success(Finite(1000.0 / 11.0))
      && Convert(Finite(50.0), "EUR", "GBP", "EUR", rates) == Success(Finite(45.0))
      && Convert(Finite(10.0), "USD", "JPY", "EUR", rates) == Failure(UnknownCurrencyError)
  {
    var rates := map["USD" := Finite(1.1), "GBP" := Finite(0.9)];
    ConvertKnown(100.0, "USD", "GBP", "EUR", rates);
    ConvertKnown(100.0, "USD", "EUR", "EUR", rates);
    ConvertKnown(50.0, "EUR", "GBP", "EUR", rates);
  }
}
