/**
 * The amount helpers of src/lib/money.ts: `normalizeAmountInput`, which
 * reduces typed text to digits and decimal points, and a `parseAmount`
 * that answers 0 instead of NaN. `Number.parseFloat` is the parameter
 * `parseFloat`.
 */
module Money {
  import opened JsString
  import opened JsNumber

  predicate IsDigit(c: char) {
    '0' <= c <= '9'
  }

  /** The characters `/[^0-9.,]/g` leaves alone. */
  predicate IsAmountChar(c: char) {
    IsDigit(c) || c == '.' || c == ','
  }

  predicate NotComma(c: char) {
    c != ','
  }

  /** `replace(/[^0-9.,]/g, '')`. */
  function AmountChars(value: string): (r: string)
    ensures |r| <= |value|
    ensures forall i :: 0 <= i < |r| ==> IsAmountChar(r[i])
  {
    Keep(value, IsAmountChar)
  }

  /** What the replacement callback answers for the character at `offset` of
      the filtered text `full`: a `,` vanishes when a `.` occurs earlier in
      `full` and becomes `.` otherwise; a `.` stays. */
  function Replacement(full: string, offset: nat): string
    requires offset < |full|
  {
    if full[offset] == ',' then (if '.' in full[..offset] then "" else ".")
    else [full[offset]]
  }

  /** The global replace of `/[.,]/g`, from `offset` to the end of `full`. */
  function RewriteFrom(full: string, offset: nat): (r: string)
    requires offset <= |full|
    ensures |r| <= |full| - offset
    decreases |full| - offset
  {
    if offset == |full| then ""
    else Replacement(full, offset) + RewriteFrom(full, offset + 1)
  }

  /** `normalizeAmountInput`. */
  function NormalizeAmountInput(value: string): (r: string)
    ensures |r| <= |value|
    ensures forall i :: 0 <= i < |r| ==> IsDigit(r[i]) || r[i] == '.'
  {
    var full := AmountChars(value);
    RewriteCharset(full, 0);
    RewriteFrom(full, 0)
  }

  lemma {:induction false} RewriteCharset(full: string, offset: nat)
    requires offset <= |full|
    requires forall i :: 0 <= i < |full| ==> IsAmountChar(full[i])
    ensures forall i :: 0 <= i < |RewriteFrom(full, offset)| ==>
      IsDigit(RewriteFrom(full, offset)[i]) || RewriteFrom(full, offset)[i] == '.'
    decreases |full| - offset
  {
    if offset < |full| {
      RewriteCharset(full, offset + 1);
    }
  }

  /** Every `,` replaced by `.`. */
  function CommasToDots(s: string): (r: string)
    ensures |r| == |s|
  {
    if s == [] then [] else [if s[0] == ',' then '.' else s[0]] + CommasToDots(s[1..])
  }

  /** The position of the first `c` in `s`. */
  function FirstIndexOf(s: string, c: char): (k: nat)
    requires c in s
    ensures k < |s| && s[k] == c && c !in s[..k]
  {
    if s[0] == c then 0
    else
      assert c in s[1..] by { assert s == [s[0]] + s[1..]; }
      var k := FirstIndexOf(s[1..], c);
      assert s[..k + 1] == [s[0]] + s[1..][..k];
      k + 1
  }

  /** The rewrite described without the offset callback: every `,` before
      the first `.` becomes `.`, every `,` after it vanishes, and all digits
      and dots stay where they are. */
  function ExpectedNormalization(full: string): string {
    if '.' in full then
      var p := FirstIndexOf(full, '.');
      CommasToDots(full[..p]) + Keep(full[p..], NotComma)
    else CommasToDots(full)
  }

  /** `normalizeAmountInput` agrees with the description above. */
  lemma NormalizeAmountInputSpec(value: string)
    ensures NormalizeAmountInput(value) == ExpectedNormalization(AmountChars(value))
  {
    var full := AmountChars(value);
    if '.' in full {
      var p := FirstIndexOf(full, '.');
      BeforeFirstDot(full, 0, p);
      AfterFirstDot(full, p);
      assert full[0..p] == full[..p];
      assert full[p..] == full[p..];
    } else {
      BeforeFirstDot(full, 0, |full|);
      assert full[0..|full|] == full;
      assert full[|full|..] == [];
    }
  }

  /** Up to the first `.` (or the end, `p == |full|`), commas turn into dots. */
  lemma {:induction false} BeforeFirstDot(full: string, offset: nat, p: nat)
    requires offset <= p <= |full|
    requires '.' !in full[..p]
    requires p < |full| ==> full[p] == '.'
    ensures RewriteFrom(full, offset) == CommasToDots(full[offset..p]) + RewriteFrom(full, p)
    decreases p - offset
  {
    if offset < p {
      BeforeFirstDot(full, offset + 1, p);
      assert full[..offset] == full[..p][..offset];
      assert '.' !in full[..offset];
      assert full[offset] != '.' by { assert full[offset] == full[..p][offset]; }
      assert full[offset..p][1..] == full[offset + 1..p];
    } else {
      assert full[offset..p] == [];
    }
  }

  /** From the first `.` on, commas vanish and everything else stays. */
  lemma {:induction false} AfterFirstDot(full: string, offset: nat)
    requires offset < |full| && full[offset] == '.'
    ensures RewriteFrom(full, offset) == Keep(full[offset..], NotComma)
  {
    assert full[offset..][1..] == full[offset + 1..];
    AfterDot(full, offset + 1, offset);
  }

  lemma {:induction false} AfterDot(full: string, offset: nat, p: nat)
    requires p < offset <= |full| && full[p] == '.'
    ensures RewriteFrom(full, offset) == Keep(full[offset..], NotComma)
    decreases |full| - offset
  {
    if offset < |full| {
      AfterDot(full, offset + 1, p);
      assert full[..offset][p] == '.';
      assert full[offset..][1..] == full[offset + 1..];
    }
  }

  /** The result never contains a `,`. */
  lemma NoCommaLeft(value: string)
    ensures ',' !in NormalizeAmountInput(value)
  {
  }

  /** Text that is already normalised is left as it is, so normalising twice
      is normalising once. */
  lemma NormalizeAmountInputIdempotent(value: string)
    ensures NormalizeAmountInput(NormalizeAmountInput(value)) == NormalizeAmountInput(value)
  {
    var once := NormalizeAmountInput(value);
    KeepAll(once, IsAmountChar);
    NoCommaUnchanged(once);
  }

  lemma NoCommaUnchanged(full: string)
    requires forall i :: 0 <= i < |full| ==> full[i] != ','
    ensures RewriteFrom(full, 0) == full
  {
    NoCommaFrom(full, 0);
    assert full[0..] == full;
  }

  lemma {:induction false} NoCommaFrom(full: string, offset: nat)
    requires offset <= |full|
    requires forall i :: 0 <= i < |full| ==> full[i] != ','
    ensures RewriteFrom(full, offset) == full[offset..]
    decreases |full| - offset
  {
    if offset < |full| {
      NoCommaFrom(full, offset + 1);
      assert full[offset..] == [full[offset]] + full[offset + 1..];
    }
  }

  /** Every digit of the filtered text survives, in order. */
  lemma DigitsKept(value: string)
    ensures Keep(NormalizeAmountInput(value), IsDigit) == Keep(AmountChars(value), IsDigit)
  {
    DigitsKeptFrom(AmountChars(value), 0);
    assert AmountChars(value)[0..] == AmountChars(value);
  }

  lemma {:induction false} DigitsKeptFrom(full: string, offset: nat)
    requires offset <= |full|
    ensures Keep(RewriteFrom(full, offset), IsDigit) == Keep(full[offset..], IsDigit)
    decreases |full| - offset
  {
    if offset < |full| {
      DigitsKeptFrom(full, offset + 1);
      KeepAppend(Replacement(full, offset), RewriteFrom(full, offset + 1), IsDigit);
      assert full[offset..] == [full[offset]] + full[offset + 1..];
      KeepAppend([full[offset]], full[offset + 1..], IsDigit);
    }
  }

  /** `String.prototype.replace` with a string pattern: only the first
      occurrence of `from` is replaced. */
  function ReplaceFirst(s: string, from: char, to: char): (r: string)
    ensures from !in s ==> r == s
    ensures from in s ==> r == s[FirstIndexOf(s, from) := to]
  {
    if s == [] then []
    else if s[0] == from then [to] + s[1..]
    else
      var rest := ReplaceFirst(s[1..], from, to);
      assert s == [s[0]] + s[1..];
      assert from in s ==> FirstIndexOf(s, from) == FirstIndexOf(s[1..], from) + 1;
      [s[0]] + rest
  }

  /** `parseAmount` of money.ts: 0 for the empty string, otherwise the parse
      of the text with its first `,` read as `.`, and 0 where that parse is
      NaN or infinite. */
  function ParseAmount(value: string, parseFloat: string -> Num): (r: Num)
    ensures r.Finite?
    ensures value == "" ==> r == Finite(0.0)
    ensures value != "" && parseFloat(ReplaceFirst(value, ',', '.')).Finite? ==>
      r == parseFloat(ReplaceFirst(value, ',', '.'))
    ensures value != "" && !parseFloat(ReplaceFirst(value, ',', '.')).Finite? ==> r == Finite(0.0)
  {
    if value == "" then Finite(0.0)
    else
      var parsed := parseFloat(ReplaceFirst(value, ',', '.'));
      if IsFinite(parsed) then parsed else Finite(0.0)
  }
}
