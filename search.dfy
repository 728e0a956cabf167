/**
 * `filterCurrencies` of src/lib/search.ts: an order-preserving,
 * case-insensitive substring filter over code, name and symbol.
 */
module Search {
  import opened JsString
  import opened CurrencyList

  /** The query as compared: trimmed, then lower-cased. */
  function NormalizedQuery(query: string): string {
    ToLower(Trim(query))
  }

  /** An item matches when its lower-cased code or name, or its symbol when
      it has one, contains the normalised query. */
  predicate Matches(item: CurrencyMeta, q: string) {
    || Includes(ToLower(item.code), q)
    || Includes(ToLower(item.name), q)
    || (item.symbol.Some? && Includes(ToLower(item.symbol.value), q))
  }

  /** The items of `list` that match `q`, in the order of `list`. */
  function Filtered(q: string, list: seq<CurrencyMeta>): (r: seq<CurrencyMeta>)
    ensures |r| <= |list|
  {
    if list == [] then []
    else
      var last := list[|list| - 1];
      Filtered(q, list[..|list| - 1]) + (if Matches(last, q) then [last] else [])
  }

  /** What `filterCurrencies` answers: a list equal to the input when the
      query trims to nothing, the matching items otherwise. */
  function FilterResult(query: string, list: seq<CurrencyMeta>): (r: seq<CurrencyMeta>)
    ensures |r| <= |list|
    ensures Trim(query) == [] ==> r == list
  {
    if Trim(query) == [] then list else Filtered(NormalizedQuery(query), list)
  }

  /** `filterCurrencies`: a list equal to the input for a blank query, otherwise the
      items that `CollectMatches` keeps for the normalised query. */
  method FilterCurrencies(query: string, list: seq<CurrencyMeta>) returns (r: seq<CurrencyMeta>)
    ensures r == FilterResult(query, list)
  {
    var trimmed := Trim(query);
    if |trimmed| == 0 {
      return list;
    }
    var normalizedQuery := ToLower(trimmed);
    r := CollectMatches(normalizedQuery, list);
  }

  /** The loop of `filterCurrencies`, pushing each matching item in turn. */
  method CollectMatches(normalizedQuery: string, list: seq<CurrencyMeta>) returns (matches: seq<CurrencyMeta>)
    ensures matches == Filtered(normalizedQuery, list)
  {
    matches := [];
    var i := 0;
    while i < |list|
      invariant 0 <= i <= |list|
      invariant matches == Filtered(normalizedQuery, list[..i])
    {
      var item := list[i];
      var codeMatches := Includes(ToLower(item.code), normalizedQuery);
      var nameMatches := Includes(ToLower(item.name), normalizedQuery);
      var symbolMatches := item.symbol.Some? && Includes(ToLower(item.symbol.value), normalizedQuery);
      FilteredStep(normalizedQuery, list, i);
      if codeMatches || nameMatches || symbolMatches {
        matches := matches + [item];
      }
      i := i + 1;
    }
    assert list[..|list|] == list;
  }

  lemma FilteredStep(q: string, list: seq<CurrencyMeta>, i: nat)
    requires i < |list|
    ensures Filtered(q, list[..i + 1])
         == Filtered(q, list[..i]) + (if Matches(list[i], q) then [list[i]] else [])
  {
    assert list[..i + 1][..i] == list[..i];
  }

  /** An item is kept exactly when it is in the list and matches. */
  lemma {:induction false} FilteredMembers(q: string, list: seq<CurrencyMeta>, x: CurrencyMeta)
    ensures x in Filtered(q, list) <==> x in list && Matches(x, q)
  {
    if list != [] {
      var init := list[..|list| - 1];
      FilteredMembers(q, init, x);
      assert list == init + [list[|list| - 1]];
    }
  }

  /** `sub` can be obtained from `s` by deleting elements. */
  predicate Subsequence<T(==)>(sub: seq<T>, s: seq<T>)
    decreases |s|
  {
    if sub == [] then true
    else if s == [] then false
    else if sub[|sub| - 1] == s[|s| - 1] then Subsequence(sub[..|sub| - 1], s[..|s| - 1])
    else Subsequence(sub, s[..|s| - 1])
  }

  /** The kept items appear in the order they have in the list. */
  lemma {:induction false} FilteredIsSubsequence(q: string, list: seq<CurrencyMeta>)
    ensures Subsequence(Filtered(q, list), list)
  {
    if list != [] {
      var init := list[..|list| - 1];
      FilteredIsSubsequence(q, init);
      var last := list[|list| - 1];
      if Matches(last, q) {
        var r := Filtered(q, list);
        assert r[..|r| - 1] == Filtered(q, init);
      } else if Filtered(q, list) != [] {
        var r := Filtered(q, list);
        assert r == Filtered(q, init);
        if r[|r| - 1] == last {
          FilteredMembers(q, init, last);
          assert false;
        }
      }
    }
  }

  /** Filtering what was already filtered with the same query changes
      nothing. */
  lemma {:induction false} FilteredIdempotent(q: string, list: seq<CurrencyMeta>)
    ensures Filtered(q, Filtered(q, list)) == Filtered(q, list)
  {
    if list != [] {
      var init := list[..|list| - 1];
      var last := list[|list| - 1];
      FilteredIdempotent(q, init);
      var r := Filtered(q, list);
      if Matches(last, q) {
        assert r[..|r| - 1] == Filtered(q, init);
        assert r[|r| - 1] == last;
      } else {
        assert r == Filtered(q, init);
      }
    }
  }

  /** Running `filterCurrencies` on its own result with the same query
      returns that result unchanged. */
  lemma FilterResultIdempotent(query: string, list: seq<CurrencyMeta>)
    ensures FilterResult(query, FilterResult(query, list)) == FilterResult(query, list)
  {
    if Trim(query) != [] {
      FilteredIdempotent(NormalizedQuery(query), list);
    }
  }

  /** White space around the query does not change the result. */
  lemma FilterResultIgnoresPadding(before: string, query: string, after: string, list: seq<CurrencyMeta>)
    requires AllWhiteSpace(before) && AllWhiteSpace(after)
    ensures FilterResult(before + query + after, list) == FilterResult(query, list)
  {
    TrimPadded(before, query, after);
  }

  /** The letter case of the query does not change the result. */
  lemma FilterResultIgnoresCase(query: string, list: seq<CurrencyMeta>)
    ensures FilterResult(ToLower(query), list) == FilterResult(query, list)
  {
    TrimLower(query);
    ToLowerIdempotent(Trim(query));
  }

  /** Without a symbol, an item is matched on its code and name alone. */
  lemma NoSymbolMatchesCodeOrName(item: CurrencyMeta, q: string)
    requires item.symbol.None?
    ensures Matches(item, q) <==> Includes(ToLower(item.code), q) || Includes(ToLower(item.name), q)
  {
  }
}
