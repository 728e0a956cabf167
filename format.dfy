/**
 * The amount parser of src/lib/format.ts: free-form text such as
 * "1,234.56", "1.234,56" or "-  12" becomes a number, or NaN.
 * The final `Number(...)` conversion is the parameter `toNumber`.
 */
module AmountFormat {
  import opened Wrappers
  import opened JsString
  import opened JsNumber

  predicate IsSeparator(c: char) {
    c == '.' || c == ','
  }

  predicate NotSeparator(c: char) {
    !IsSeparator(c)
  }

  predicate NotNoBreakSpace(c: char) {
    c != '\U{A0}'
  }

  predicate NotWhiteSpace(c: char) {
    !IsWhiteSpace(c)
  }

  /** `replace(/[.,]/g, '')`. */
  function RemoveSeparators(s: string): (r: string)
    ensures |r| <= |s|
    ensures forall i :: 0 <= i < |r| ==> !IsSeparator(r[i])
  {
    Keep(s, NotSeparator)
  }

  /** `replace(/ /g, '').replace(/\s+/g, '')`: every white-space
      character removed. */
  function StripSpaces(s: string): (r: string)
    ensures forall i :: 0 <= i < |r| ==> !IsWhiteSpace(r[i])
  {
    Keep(Keep(s, NotNoBreakSpace), NotWhiteSpace)
  }

  /** No two `.` in `s`. */
  predicate AtMostOneDot(s: string) {
    forall i, j :: 0 <= i < j < |s| && s[i] == '.' ==> s[j] != '.'
  }

  /** The position of the decimal separator: the rightmost `.` or `,`,
      or none when the text holds neither. */
  function DecimalIndex(s: string): (k: Option<nat>)
    ensures k.None? <==> forall i :: 0 <= i < |s| ==> !IsSeparator(s[i])
    ensures k.Some? ==> k.value < |s| && IsSeparator(s[k.value])
    ensures k.Some? ==> forall i :: k.value < i < |s| ==> !IsSeparator(s[i])
  {
    var lastDot := LastIndexOf(s, '.');
    var lastComma := LastIndexOf(s, ',');
    assert forall i :: lastDot < i < |s| ==> s[i] != '.' by {
      forall i | lastDot < i < |s| ensures s[i] != '.' {
        if lastDot >= 0 { assert s[i] in s[lastDot + 1..]; }
      }
    }
    assert forall i :: lastComma < i < |s| ==> s[i] != ',' by {
      forall i | lastComma < i < |s| ensures s[i] != ',' {
        if lastComma >= 0 { assert s[i] in s[lastComma + 1..]; }
      }
    }
    if lastDot != -1 && lastComma != -1 then Some(if lastDot < lastComma then lastComma else lastDot)
    else if lastDot != -1 then Some(lastDot)
    else if lastComma != -1 then Some(lastComma)
    else None
  }

  /** `normalizeNumberString`: every separator before the decimal one is
      dropped, the decimal one becomes `.`, and an empty fractional part
      drops the point too. */
  function NormalizeNumberString(value: string, decimalIndex: Option<nat>): (r: string)
    requires decimalIndex.Some? ==> decimalIndex.value < |value| && IsSeparator(value[decimalIndex.value])
    ensures ',' !in r
    ensures AtMostOneDot(r)
    ensures RemoveSeparators(r) == RemoveSeparators(value)
    ensures r != "" ==> r[|r| - 1] != '.'
    ensures '.' in r <==> decimalIndex.Some? && RemoveSeparators(value[decimalIndex.value + 1..]) != ""
    ensures decimalIndex.Some? && '.' in r ==>
              var p := |RemoveSeparators(value[..decimalIndex.value])|;
              p < |r| && r[p] == '.'
  {
    match decimalIndex
    case None =>
      NoSeparatorsKept(RemoveSeparators(value));
      RemoveSeparators(value)
    case Some(k) =>
      var integerPart := RemoveSeparators(value[..k]);
      var fractionalPart := RemoveSeparators(value[k + 1..]);
      SplitAtSeparator(value, k);
      if fractionalPart == "" then
        NoSeparatorsKept(integerPart);
        integerPart
      else
        JoinedShape(integerPart, fractionalPart);
        integerPart + "." + fractionalPart
  }

  /** Dropping the separators of a text split around a separator. */
  lemma SplitAtSeparator(value: string, k: nat)
    requires k < |value| && IsSeparator(value[k])
    ensures RemoveSeparators(value) == RemoveSeparators(value[..k]) + RemoveSeparators(value[k + 1..])
  {
    assert value == value[..k] + [value[k]] + value[k + 1..];
    KeepAppend(value[..k] + [value[k]], value[k + 1..], NotSeparator);
    KeepAppend(value[..k], [value[k]], NotSeparator);
    assert Keep([value[k]], NotSeparator) == [];
  }

  /** Two separator-free parts joined by one `.`. */
  lemma JoinedShape(integerPart: string, fractionalPart: string)
    requires forall i :: 0 <= i < |integerPart| ==> !IsSeparator(integerPart[i])
    requires forall i :: 0 <= i < |fractionalPart| ==> !IsSeparator(fractionalPart[i])
    ensures var r := integerPart + "." + fractionalPart;
      && ',' !in r && AtMostOneDot(r) && r[|integerPart|] == '.'
      && RemoveSeparators(r) == integerPart + fractionalPart
  {
    var r := integerPart + "." + fractionalPart;
    JoinedPositions(integerPart, fractionalPart);
    KeepAppend(integerPart + ".", fractionalPart, NotSeparator);
    KeepAppend(integerPart, ".", NotSeparator);
    assert Keep(".", NotSeparator) == [];
    NoSeparatorsKept(integerPart);
    NoSeparatorsKept(fractionalPart);
  }

  lemma JoinedPositions(integerPart: string, fractionalPart: string)
    requires forall i :: 0 <= i < |integerPart| ==> !IsSeparator(integerPart[i])
    requires forall i :: 0 <= i < |fractionalPart| ==> !IsSeparator(fractionalPart[i])
    ensures var r := integerPart + "." + fractionalPart;
      && r[|integerPart|] == '.'
      && forall i :: 0 <= i < |r| && i != |integerPart| ==> !IsSeparator(r[i])
  {
    var r := integerPart + "." + fractionalPart;
    forall i | 0 <= i < |r| && i != |integerPart| ensures !IsSeparator(r[i]) {
      if i < |integerPart| {
        assert r[i] == integerPart[i];
      } else {
        assert r[i] == fractionalPart[i - |integerPart| - 1];
      }
    }
  }

  /** The text handed to `Number(...)` (`${sign}${normalized}`), or `None`
      where `parseAmount` returns NaN before converting anything. */
  function AmountText(input: string): (text: Option<string>)
    ensures text.Some? ==> text.value != "" && Trim(input) != []
  {
    var trimmed := Trim(input);
    if trimmed == "" then None
    else
      var withoutSpaces := StripSpaces(trimmed);
      if withoutSpaces == "" then None
      else SignedText(withoutSpaces)
  }

  /** A leading `+` or `-`, as a string of length 0 or 1. */
  function SignOf(s: string): (sign: string)
    ensures sign == "" || sign == "+" || sign == "-"
    ensures sign != "" ==> s != [] && sign == [s[0]]
    ensures sign == "" ==> s == [] || (s[0] != '+' && s[0] != '-')
  {
    if s != [] && (s[0] == '+' || s[0] == '-') then [s[0]] else ""
  }

  /** The part of `parseAmount` after white space is gone: the sign, the
      check for stray signs, and normalisation. */
  function SignedText(withoutSpaces: string): (text: Option<string>)
    ensures text.Some? ==> withoutSpaces != []
    ensures text.Some? && (withoutSpaces[0] == '+' || withoutSpaces[0] == '-') ==>
      text.value == [withoutSpaces[0]] + NormalizeNumberString(withoutSpaces[1..], DecimalIndex(withoutSpaces[1..]))
    ensures text.Some? && withoutSpaces[0] != '+' && withoutSpaces[0] != '-' ==>
      text.value == NormalizeNumberString(withoutSpaces, DecimalIndex(withoutSpaces))
  {
    var sign := SignOf(withoutSpaces);
    var numericPart := withoutSpaces[|sign|..];
    if numericPart == "" || '+' in numericPart || '-' in numericPart then None
    else
      var normalized := NormalizeNumberString(numericPart, DecimalIndex(numericPart));
      if normalized == "" then None
      else Some(sign + normalized)
  }

  /** `parseAmount`: NaN for empty or malformed text, otherwise the value of
      the normalised text, with an infinite value replaced by NaN. */
  function ParseAmount(input: string, toNumber: string -> Num): (r: Num)
    ensures !r.Infinity?
    ensures AmountText(input).None? ==> r == NaN
    ensures r.Finite? ==> AmountText(input).Some? && r == toNumber(AmountText(input).value)
    ensures AmountText(input).Some? && IsFinite(toNumber(AmountText(input).value)) ==>
      r == toNumber(AmountText(input).value)
    ensures AmountText(input).Some? && !IsFinite(toNumber(AmountText(input).value)) ==> r == NaN
  {
    match AmountText(input)
    case None => NaN
    case Some(text) =>
      var numericValue := toNumber(text);
      if IsFinite(numericValue) then numericValue else NaN
  }

  lemma {:induction false} KeepMembers(s: string, keep: char -> bool)
    ensures forall c :: c in Keep(s, keep) <==> c in s && keep(c)
  {
    if s != [] {
      KeepMembers(s[1..], keep);
      assert s == [s[0]] + s[1..];
    }
  }

  /** Text that is empty once trimmed (white space includes the no-break
      space) parses to NaN. */
  lemma BlankIsNaN(input: string, toNumber: string -> Num)
    requires AllWhiteSpace(input)
    ensures ParseAmount(input, toNumber) == NaN
  {
  }

  /** Once the trimmed text is non-empty, removing the remaining white space
      leaves it non-empty: the second emptiness check of `parseAmount` never
      returns. */
  lemma SecondBlankCheckUnreachable(input: string)
    requires Trim(input) != ""
    ensures StripSpaces(Trim(input)) != ""
  {
    var t := Trim(input);
    KeepMembers(t, NotNoBreakSpace);
    KeepMembers(Keep(t, NotNoBreakSpace), NotWhiteSpace);
    assert t[0] in t;
    assert t[0] in StripSpaces(t);
  }

  /** The text handed to `Number(...)`: non-empty, free of white space and
      of `,`, with at most one `.`, which is never its last character, and
      with a sign, if any, only in front. */
  lemma AmountTextShape(input: string)
    requires AmountText(input).Some?
    ensures var t := AmountText(input).value;
      && t != "" && ',' !in t && AtMostOneDot(t) && t[|t| - 1] != '.'
      && (forall i :: 0 <= i < |t| ==> !IsWhiteSpace(t[i]))
      && (forall i :: 1 <= i < |t| ==> t[i] != '+' && t[i] != '-')
  {
    SignedTextShape(StripSpaces(Trim(input)));
  }

  lemma SignedTextShape(withoutSpaces: string)
    requires forall i :: 0 <= i < |withoutSpaces| ==> !IsWhiteSpace(withoutSpaces[i])
    requires SignedText(withoutSpaces).Some?
    ensures var t := SignedText(withoutSpaces).value;
      && t != "" && ',' !in t && AtMostOneDot(t) && t[|t| - 1] != '.'
      && (forall i :: 0 <= i < |t| ==> !IsWhiteSpace(t[i]))
      && (forall i :: 1 <= i < |t| ==> t[i] != '+' && t[i] != '-')
  {
    var sign := SignOf(withoutSpaces);
    var numericPart := withoutSpaces[|sign|..];
    assert numericPart != "" && '+' !in numericPart && '-' !in numericPart;
    var normalized := NormalizeNumberString(numericPart, DecimalIndex(numericPart));
    assert SignedText(withoutSpaces) == Some(sign + normalized);
    forall i | 0 <= i < |numericPart| ensures !IsWhiteSpace(numericPart[i]) {
      assert numericPart[i] == withoutSpaces[i + |sign|];
    }
    NormalizedChars(numericPart, DecimalIndex(numericPart));
    SignedShape(sign, normalized);
  }

  /** Normalising keeps out white space and signs the text did not have. */
  lemma NormalizedChars(value: string, decimalIndex: Option<nat>)
    requires decimalIndex.Some? ==> decimalIndex.value < |value| && IsSeparator(value[decimalIndex.value])
    requires forall i :: 0 <= i < |value| ==> !IsWhiteSpace(value[i])
    requires '+' !in value && '-' !in value
    ensures var r := NormalizeNumberString(value, decimalIndex);
      forall i :: 0 <= i < |r| ==> !IsWhiteSpace(r[i]) && r[i] != '+' && r[i] != '-'
  {
    var r := NormalizeNumberString(value, decimalIndex);
    KeepMembers(value, NotSeparator);
    KeepMembers(r, NotSeparator);
    forall i | 0 <= i < |r| ensures !IsWhiteSpace(r[i]) && r[i] != '+' && r[i] != '-' {
      var c := r[i];
      if c != '.' {
        assert c in RemoveSeparators(r);
        assert c in value;
      }
    }
  }

  lemma SignedShape(sign: string, normalized: string)
    requires sign == "" || sign == "+" || sign == "-"
    requires normalized != "" && ',' !in normalized && AtMostOneDot(normalized)
    requires normalized[|normalized| - 1] != '.'
    requires forall i :: 0 <= i < |normalized| ==>
      !IsWhiteSpace(normalized[i]) && normalized[i] != '+' && normalized[i] != '-'
    ensures var t := sign + normalized;
      && t != "" && ',' !in t && AtMostOneDot(t) && t[|t| - 1] != '.'
      && (forall i :: 0 <= i < |t| ==> !IsWhiteSpace(t[i]))
      && (forall i :: 1 <= i < |t| ==> t[i] != '+' && t[i] != '-')
  {
    var t := sign + normalized;
    assert forall i :: |sign| <= i < |t| ==> t[i] == normalized[i - |sign|];
  }

  /** Text without separators is left as it is. */
  lemma {:induction false} NoSeparatorsKept(s: string)
    requires forall i :: 0 <= i < |s| ==> !IsSeparator(s[i])
    ensures RemoveSeparators(s) == s
  {
    KeepAll(s, NotSeparator);
  }

  lemma TrimNothing(s: string)
    requires forall i :: 0 <= i < |s| ==> !IsWhiteSpace(s[i])
    ensures Trim(s) == s && StripSpaces(s) == s
  {
    KeepAll(s, NotNoBreakSpace);
    KeepAll(s, NotWhiteSpace);
    if s != [] {
      assert TrimStart(s) == s;
      assert TrimEnd(s) == s;
    }
  }

  lemma LastIndexOfAt(s: string, c: char, k: nat)
    requires k < |s| && s[k] == c
    requires forall i :: k < i < |s| ==> s[i] != c
    ensures LastIndexOf(s, c) == k
  {
    var r := LastIndexOf(s, c);
    assert s[k] in s;
  }

  /** Text free of white space, signs and separators. */
  predicate PlainDigits(s: string) {
    forall i :: 0 <= i < |s| ==> !IsWhiteSpace(s[i]) && !IsSeparator(s[i]) && s[i] != '+' && s[i] != '-'
  }

  /** Both digit-grouping conventions: whichever of `.` and `,` comes last is
      the decimal point and the earlier one is dropped, so "1,234.56" and
      "1.234,56" both become "1234.56". */
  lemma GroupedAmount(a: string, g: char, b: string, d: char, c: string)
    requires PlainDigits(a) && PlainDigits(b) && PlainDigits(c) && c != ""
    requires IsSeparator(g) && IsSeparator(d)
    ensures AmountText(a + [g] + b + [d] + c) == Some(a + b + "." + c)
  {
    var s := a + [g] + b + [d] + c;
    GroupedNormalizes(a, g, b, d, c);
    UnsignedAmountText(s);
  }

  /** Text with no white space and no sign reaches `Number(...)` as its
      normalisation. */
  lemma UnsignedAmountText(s: string)
    requires s != []
    requires forall i :: 0 <= i < |s| ==> !IsWhiteSpace(s[i]) && s[i] != '+' && s[i] != '-'
    requires NormalizeNumberString(s, DecimalIndex(s)) != ""
    ensures AmountText(s) == Some(NormalizeNumberString(s, DecimalIndex(s)))
  {
    TrimNothing(s);
    UnsignedSignedText(s);
  }

  /** Text of a leading `+` or `-` followed by an unsigned number reaches
      `Number(...)` with the sign kept in front of the normalised digits. */
  lemma SignedAmountText(sign: char, x: string)
    requires sign == '+' || sign == '-'
    requires x != []
    requires forall i :: 0 <= i < |x| ==> !IsWhiteSpace(x[i]) && x[i] != '+' && x[i] != '-'
    requires NormalizeNumberString(x, DecimalIndex(x)) != ""
    ensures AmountText([sign] + x) == Some([sign] + NormalizeNumberString(x, DecimalIndex(x)))
  {
    var w := [sign] + x;
    assert !IsWhiteSpace(sign);
    forall i | 0 <= i < |w| ensures !IsWhiteSpace(w[i]) {
      if i > 0 { assert w[i] == x[i - 1]; }
    }
    TrimNothing(w);
    assert SignOf(w) == [sign];
    assert w[1..] == x;
    assert '+' !in x && '-' !in x;
  }

  /** A signed amount parses to the value of the sign followed by the
      normalised digits, when that value is finite, and to NaN otherwise. */
  lemma SignedParse(sign: char, x: string, toNumber: string -> Num)
    requires sign == '+' || sign == '-'
    requires x != []
    requires forall i :: 0 <= i < |x| ==> !IsWhiteSpace(x[i]) && x[i] != '+' && x[i] != '-'
    requires NormalizeNumberString(x, DecimalIndex(x)) != ""
    ensures var v := toNumber([sign] + NormalizeNumberString(x, DecimalIndex(x)));
      ParseAmount([sign] + x, toNumber) == if IsFinite(v) then v else NaN
  {
    SignedAmountText(sign, x);
  }

  lemma UnsignedSignedText(s: string)
    requires s != []
    requires forall i :: 0 <= i < |s| ==> !IsWhiteSpace(s[i]) && s[i] != '+' && s[i] != '-'
    requires NormalizeNumberString(s, DecimalIndex(s)) != ""
    ensures SignedText(s) == Some(NormalizeNumberString(s, DecimalIndex(s)))
  {
    assert SignOf(s) == "";
    assert s[|SignOf(s)|..] == s;
    assert '+' !in s && '-' !in s;
    var r := NormalizeNumberString(s, DecimalIndex(s));
    assert "" + r == r;
  }

  lemma GroupedNormalizes(a: string, g: char, b: string, d: char, c: string)
    requires PlainDigits(a) && PlainDigits(b) && PlainDigits(c) && c != ""
    requires IsSeparator(g) && IsSeparator(d)
    ensures var s := a + [g] + b + [d] + c;
      && (forall i :: 0 <= i < |s| ==> !IsWhiteSpace(s[i]) && s[i] != '+' && s[i] != '-')
      && DecimalIndex(s) == Some(|a| + 1 + |b|)
      && NormalizeNumberString(s, DecimalIndex(s)) == a + b + "." + c
  {
    var s := a + [g] + b + [d] + c;
    var p := |a| + 1 + |b|;
    GroupedChars(a, g, b, d, c);
    assert s[p] == d;
    assert forall i :: p < i < |s| ==> !IsSeparator(s[i]) by {
      forall i | p < i < |s| ensures !IsSeparator(s[i]) {
        assert s[i] == c[i - p - 1];
      }
    }
    DecimalIndexAt(s, p);
    GroupedParts(a, g, b, d, c);
  }

  /** The decimal index is the one separator with none after it. */
  lemma DecimalIndexAt(s: string, p: nat)
    requires p < |s| && IsSeparator(s[p])
    requires forall i :: p < i < |s| ==> !IsSeparator(s[i])
    ensures DecimalIndex(s) == Some(p)
  {
  }

  lemma GroupedChars(a: string, g: char, b: string, d: char, c: string)
    requires PlainDigits(a) && PlainDigits(b) && PlainDigits(c)
    requires IsSeparator(g) && IsSeparator(d)
    ensures var s := a + [g] + b + [d] + c; var p := |a| + 1 + |b|;
      && (forall i :: 0 <= i < |s| ==> !IsWhiteSpace(s[i]) && s[i] != '+' && s[i] != '-')
      && (forall i :: p < i < |s| ==> s[i] == c[i - p - 1])
  {
    var s := a + [g] + b + [d] + c;
    var p := |a| + 1 + |b|;
    forall i | 0 <= i < |s| ensures !IsWhiteSpace(s[i]) && s[i] != '+' && s[i] != '-' {
      if i < |a| { assert s[i] == a[i]; }
      else if i == |a| { assert s[i] == g; }
      else if i < p { assert s[i] == b[i - |a| - 1]; }
      else if i == p { assert s[i] == d; }
      else { assert s[i] == c[i - p - 1]; }
    }
  }

  lemma GroupedParts(a: string, g: char, b: string, d: char, c: string)
    requires PlainDigits(a) && PlainDigits(b) && PlainDigits(c) && c != ""
    requires IsSeparator(g) && IsSeparator(d)
    ensures var s := a + [g] + b + [d] + c; var p := |a| + 1 + |b|;
      NormalizeNumberString(s, Some(p)) == a + b + "." + c
  {
    var s := a + [g] + b + [d] + c;
    var p := |a| + 1 + |b|;
    assert s[..p] == a + [g] + b;
    SplitAtSeparator(s[..p], |a|);
    assert (a + [g] + b)[..|a|] == a && (a + [g] + b)[|a| + 1..] == b;
    NoSeparatorsKept(a);
    NoSeparatorsKept(b);
    assert s[p + 1..] == c;
    NoSeparatorsKept(c);
  }

  /** The test vectors of the source: "1,234.56" and "1.234,56" both reach
      `Number(...)` as "1234.56". */
  lemma SourceExamples()
    ensures AmountText("1" + [','] + "234" + ['.'] + "56") == Some("1" + "234" + "." + "56")
    ensures AmountText("1" + ['.'] + "234" + [','] + "56") == Some("1" + "234" + "." + "56")
  {
    GroupedAmount("1", ',', "234", '.', "56");
    GroupedAmount("1", '.', "234", ',', "56");
  }

  /** Both test inputs parse to the value of "1234.56" whenever that value
      is finite. */
  lemma SourceExamplesParse(toNumber: string -> Num)
    requires IsFinite(toNumber("1" + "234" + "." + "56"))
    ensures ParseAmount("1" + [','] + "234" + ['.'] + "56", toNumber) == toNumber("1" + "234" + "." + "56")
    ensures ParseAmount("1" + ['.'] + "234" + [','] + "56", toNumber) == toNumber("1" + "234" + "." + "56")
  {
    SourceExamples();
  }

  /** A separator at the end is dropped with the empty fractional part:
      "12." reaches `Number(...)` as "12". */
  lemma TrailingSeparatorDropped(a: string, d: char)
    requires a != "" && PlainDigits(a) && IsSeparator(d)
    ensures AmountText(a + [d]) == Some(a)
  {
    var s := a + [d];
    forall i | 0 <= i < |s| ensures !IsWhiteSpace(s[i]) && s[i] != '+' && s[i] != '-' {
      if i < |a| { assert s[i] == a[i]; }
    }
    DecimalIndexAt(s, |a|);
    TrailingSeparatorNormalized(a, d);
    UnsignedAmountText(s);
  }

  lemma TrailingSeparatorNormalized(a: string, d: char)
    requires PlainDigits(a) && IsSeparator(d)
    ensures NormalizeNumberString(a + [d], Some(|a|)) == a
  {
    var s := a + [d];
    assert s[..|a|] == a && s[|a| + 1..] == [];
    NoSeparatorsKept(a);
  }

  /** Text made only of separators, such as "." or ",,", normalises to the
      empty string and gives NaN. */
  lemma SeparatorsOnlyIsNaN(s: string)
    requires s != [] && forall i :: 0 <= i < |s| ==> IsSeparator(s[i])
    ensures AmountText(s) == None
  {
    TrimNothing(s);
    SeparatorsOnlySignedText(s);
  }

  lemma SeparatorsOnlySignedText(s: string)
    requires s != [] && forall i :: 0 <= i < |s| ==> IsSeparator(s[i])
    ensures SignedText(s) == None
  {
    SeparatorsOnlyNormalizeToEmpty(s);
    assert SignOf(s) == "";
    assert s[|SignOf(s)|..] == s;
  }

  lemma SeparatorsOnlyNormalizeToEmpty(s: string)
    requires forall i :: 0 <= i < |s| ==> IsSeparator(s[i])
    ensures NormalizeNumberString(s, DecimalIndex(s)) == ""
  {
    KeepMembers(s, NotSeparator);
    var k := DecimalIndex(s);
    if k.Some? {
      KeepMembers(s[k.value + 1..], NotSeparator);
    }
    var r := NormalizeNumberString(s, k);
    KeepMembers(r, NotSeparator);
  }

  /** A `+` or `-` anywhere but in front of the white-space-free text gives NaN. */
  lemma StraySignIsNaN(input: string, i: nat)
    requires Trim(input) != ""
    requires var w := StripSpaces(Trim(input));
      1 <= i < |w| && (w[i] == '+' || w[i] == '-')
    ensures AmountText(input) == None
  {
    var w := StripSpaces(Trim(input));
    var sign := SignOf(w);
    assert w[i] == w[|sign|..][i - |sign|];
  }

  /** A sign with nothing after it gives NaN. */
  lemma LoneSignIsNaN(input: string)
    requires Trim(input) != ""
    requires StripSpaces(Trim(input)) == "+" || StripSpaces(Trim(input)) == "-"
    ensures AmountText(input) == None
  {
  }
}
