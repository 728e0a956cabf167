/**
 * The currency dictionary of src/lib/currencyList.ts: a fold of the
 * currency list into a map keyed by code.
 */
module CurrencyList {
  import opened Wrappers

  /** The currency record of src/types/currencyMeta.ts; `null` is `None`. */
  datatype CurrencyMeta = CurrencyMeta(
    code: string,
    name: string,
    symbol: Option<string>,
    symbolNative: Option<string>,
    decimalDigits: int,
    rounding: real,
    countryCodeISO2: Option<string>,
    flagSrc: Option<string>)

  /** The value `items.reduce` builds: each item in turn is stored under its
      code, so a later item replaces an earlier one with the same code. */
  function Dictionary(items: seq<CurrencyMeta>): (d: map<string, CurrencyMeta>)
    ensures items != [] ==> items[|items| - 1].code in d && d[items[|items| - 1].code] == items[|items| - 1]
  {
    if items == [] then map[]
    else Dictionary(items[..|items| - 1])[items[|items| - 1].code := items[|items| - 1]]
  }

  /** `buildCurrencyDictionary`, assigning into the accumulator one item at
      a time. */
  method BuildCurrencyDictionary(items: seq<CurrencyMeta>) returns (dict: map<string, CurrencyMeta>)
    ensures dict == Dictionary(items)
  {
    dict := map[];
    var i := 0;
    while i < |items|
      invariant 0 <= i <= |items|
      invariant dict == Dictionary(items[..i])
    {
      var item := items[i];
      assert items[..i + 1][..i] == items[..i];
      dict := dict[item.code := item];
      i := i + 1;
    }
    assert items[..|items|] == items;
  }

  /** The dictionary's keys are exactly the codes of the items. */
  lemma {:induction false} DictionaryKeys(items: seq<CurrencyMeta>)
    ensures Dictionary(items).Keys == set i | 0 <= i < |items| :: items[i].code
  {
    if items != [] {
      var init := items[..|items| - 1];
      DictionaryKeys(init);
      var codes := set i | 0 <= i < |items| :: items[i].code;
      var initCodes := set i | 0 <= i < |init| :: init[i].code;
      assert codes == initCodes + {items[|items| - 1].code} by {
        forall c | c in codes ensures c in initCodes + {items[|items| - 1].code} {
          var i :| 0 <= i < |items| && items[i].code == c;
          if i < |init| { assert init[i].code == c; }
        }
        forall c | c in initCodes ensures c in codes {
          var i :| 0 <= i < |init| && init[i].code == c;
          assert items[i].code == c;
        }
      }
    }
  }

  /** Every entry is stored under its own code, and is the last item in the
      list with that code. */
  lemma {:induction false} DictionaryLastWins(items: seq<CurrencyMeta>, i: nat)
    requires i < |items|
    requires forall j :: i < j < |items| ==> items[j].code != items[i].code
    ensures items[i].code in Dictionary(items)
    ensures Dictionary(items)[items[i].code] == items[i]
  {
    if i < |items| - 1 {
      var init := items[..|items| - 1];
      assert init[i] == items[i];
      DictionaryLastWins(init, i);
    }
  }

  /** Every entry carries the code it is stored under and is one of the
      items. */
  lemma {:induction false} DictionaryEntries(items: seq<CurrencyMeta>)
    ensures forall code :: code in Dictionary(items) ==>
      Dictionary(items)[code].code == code && Dictionary(items)[code] in items
  {
    if items != [] {
      var init := items[..|items| - 1];
      DictionaryEntries(init);
      assert forall x :: x in init ==> x in items;
    }
  }

  /** An empty list gives an empty dictionary. */
  lemma EmptyDictionary()
    ensures Dictionary([]) == map[]
  {
  }

  /** `getCurrency`: the entry under `code`, `None` for `undefined`. */
  function GetCurrency(dictionary: map<string, CurrencyMeta>, code: string): (r: Option<CurrencyMeta>)
    ensures r.Some? <==> code in dictionary
    ensures r.Some? ==> r.value == dictionary[code]
  {
    if code in dictionary then Some(dictionary[code]) else None
  }

  /** Looking a code up in a built dictionary finds an item with that code
      exactly when some item has it. */
  lemma GetCurrencyFromList(items: seq<CurrencyMeta>, code: string)
    ensures GetCurrency(Dictionary(items), code).Some? <==> exists i :: 0 <= i < |items| && items[i].code == code
    ensures GetCurrency(Dictionary(items), code).Some? ==>
      GetCurrency(Dictionary(items), code).value.code == code &&
      GetCurrency(Dictionary(items), code).value in items
  {
    DictionaryKeys(items);
    DictionaryEntries(items);
    if exists i :: 0 <= i < |items| && items[i].code == code {
      var i :| 0 <= i < |items| && items[i].code == code;
      assert code in set j | 0 <= j < |items| :: items[j].code;
    }
  }
}
