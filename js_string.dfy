/**
 * The few JavaScript string operations the converter relies on:
 * `trim`, the `\s` class, `toLowerCase`, `includes`, `lastIndexOf`
 * and the decimal rendering of a non-negative integer.
 */
module JsString {

  /** The characters JavaScript's `\s` and `String.prototype.trim` treat as
      white space: WhiteSpace and LineTerminator of ECMAScript, which include
      the no-break space U+00A0 and the byte order mark U+FEFF. */
  predicate IsWhiteSpace(c: char) {
    c == '\t' || c == '\n' || c == '\U{B}' || c == '\U{C}' || c == '\r' || c == ' '
    || c == '\U{A0}' || c == '\U{1680}' || ('\U{2000}' <= c <= '\U{200A}')
    || c == '\U{2028}' || c == '\U{2029}' || c == '\U{202F}' || c == '\U{205F}'
    || c == '\U{3000}' || c == '\U{FEFF}'
  }

  predicate AllWhiteSpace(s: string) {
    forall i :: 0 <= i < |s| ==> IsWhiteSpace(s[i])
  }

  /** `String.prototype.trimStart`. */
  function TrimStart(s: string): string {
    if s != [] && IsWhiteSpace(s[0]) then TrimStart(s[1..]) else s
  }

  /** `String.prototype.trimEnd`. */
  function TrimEnd(s: string): string {
    if s != [] && IsWhiteSpace(s[|s| - 1]) then TrimEnd(s[..|s| - 1]) else s
  }

  /** `trimStart` drops a white-space prefix and stops at the first other character. */
  lemma {:induction false} TrimStartShape(s: string)
    ensures |TrimStart(s)| <= |s| && TrimStart(s) == s[|s| - |TrimStart(s)|..]
    ensures TrimStart(s) == [] || !IsWhiteSpace(TrimStart(s)[0])
    ensures AllWhiteSpace(s[..|s| - |TrimStart(s)|])
  {
    if s != [] && IsWhiteSpace(s[0]) {
      var r := TrimStart(s[1..]);
      TrimStartShape(s[1..]);
      assert s[1..][..|s[1..]| - |r|] == s[1..|s| - |r|];
      assert s[1..][|s[1..]| - |r|..] == s[|s| - |r|..];
    }
  }

  /** `trimEnd` drops a white-space suffix and stops at the last other character. */
  lemma {:induction false} TrimEndShape(s: string)
    ensures |TrimEnd(s)| <= |s| && TrimEnd(s) == s[..|TrimEnd(s)|]
    ensures TrimEnd(s) == [] || !IsWhiteSpace(TrimEnd(s)[|TrimEnd(s)| - 1])
    ensures AllWhiteSpace(s[|TrimEnd(s)|..])
  {
    if s != [] && IsWhiteSpace(s[|s| - 1]) {
      var r := TrimEnd(s[..|s| - 1]);
      TrimEndShape(s[..|s| - 1]);
      assert s[..|s| - 1][|r|..] + [s[|s| - 1]] == s[|r|..];
      assert s[..|s| - 1][..|r|] == s[..|r|];
    }
  }

  /** `String.prototype.trim`: drops leading and trailing white space. */
  function Trim(s: string): (r: string)
    ensures |r| <= |s|
    ensures r == [] <==> AllWhiteSpace(s)
    ensures r != [] ==> !IsWhiteSpace(r[0]) && !IsWhiteSpace(r[|r| - 1])
  {
    var t := TrimStart(s);
    TrimStartShape(s);
    var r := TrimEnd(t);
    TrimEndShape(t);
    assert r == [] ==> s == s[..|s| - |t|] + t[|r|..];
    r
  }

  lemma {:induction false} TrimStartPadded(pad: string, s: string)
    requires AllWhiteSpace(pad)
    ensures TrimStart(pad + s) == TrimStart(s)
  {
    if pad != [] {
      assert (pad + s)[1..] == pad[1..] + s;
      TrimStartPadded(pad[1..], s);
    } else {
      assert pad + s == s;
    }
  }

  lemma {:induction false} TrimEndPadded(s: string, pad: string)
    requires AllWhiteSpace(pad)
    ensures TrimEnd(s + pad) == TrimEnd(s)
  {
    if pad != [] {
      assert (s + pad)[..|s + pad| - 1] == s + pad[..|pad| - 1];
      TrimEndPadded(s, pad[..|pad| - 1]);
    } else {
      assert s + pad == s;
    }
  }

  /** Text that keeps a non-white character after trimming its start has
      its end untouched by that trim. */
  lemma {:induction false} TrimStartAppend(s: string, t: string)
    requires TrimStart(s) != []
    ensures TrimStart(s + t) == TrimStart(s) + t
  {
    assert (s + t)[0] == s[0];
    if IsWhiteSpace(s[0]) {
      assert (s + t)[1..] == s[1..] + t;
      TrimStartAppend(s[1..], t);
      calc {
        TrimStart(s + t);
        TrimStart(s[1..] + t);
        TrimStart(s[1..]) + t;
        TrimStart(s) + t;
      }
    } else {
      assert TrimStart(s + t) == s + t;
      assert TrimStart(s) == s;
    }
  }

  /** White space around the text does not change what `trim` returns. */
  lemma TrimPadded(before: string, s: string, after: string)
    requires AllWhiteSpace(before) && AllWhiteSpace(after)
    ensures Trim(before + s + after) == Trim(s)
  {
    if TrimStart(s) != [] {
      TrimPaddedText(before, s, after);
    } else {
      TrimPaddedBlank(before, s, after);
    }
  }

  lemma TrimPaddedText(before: string, s: string, after: string)
    requires AllWhiteSpace(before) && AllWhiteSpace(after) && TrimStart(s) != []
    ensures Trim(before + s + after) == Trim(s)
  {
    var y := s + after;
    var x := before + y;
    assert before + s + after == x;
    var a := TrimStart(s);
    TrimStartPadded(before, y);
    TrimStartAppend(s, after);
    TrimEndPadded(a, after);
    calc {
      Trim(x);
      TrimEnd(TrimStart(x));
      TrimEnd(TrimStart(y));
      TrimEnd(a + after);
      TrimEnd(a);
      Trim(s);
    }
  }

  lemma TrimPaddedBlank(before: string, s: string, after: string)
    requires AllWhiteSpace(before) && AllWhiteSpace(after) && TrimStart(s) == []
    ensures Trim(before + s + after) == Trim(s)
  {
    assert AllWhiteSpace(s) by { TrimStartShape(s); assert s[..|s| - 0] == s; }
    var x := before + s + after;
    assert AllWhiteSpace(x) by {
      forall i | 0 <= i < |x| ensures IsWhiteSpace(x[i]) {
        if i < |before| { assert x[i] == before[i]; }
        else if i < |before| + |s| { assert x[i] == s[i - |before|]; }
        else { assert x[i] == after[i - |before| - |s|]; }
      }
    }
  }

  /** Every character of `s` for which `keep` holds, in order (the effect of a
      global `replace` of the other characters by the empty string). */
  function Keep(s: string, keep: char -> bool): (r: string)
    ensures |r| <= |s|
    ensures forall i :: 0 <= i < |r| ==> keep(r[i])
  {
    if s == [] then []
    else if keep(s[0]) then [s[0]] + Keep(s[1..], keep)
    else Keep(s[1..], keep)
  }

  lemma {:induction false} KeepAppend(a: string, b: string, keep: char -> bool)
    ensures Keep(a + b, keep) == Keep(a, keep) + Keep(b, keep)
  {
    if a != [] {
      assert (a + b)[1..] == a[1..] + b;
      KeepAppend(a[1..], b, keep);
    } else {
      assert a + b == b;
    }
  }

  /** Keeping every character keeps the text as it is. */
  lemma {:induction false} KeepAll(s: string, keep: char -> bool)
    requires forall i :: 0 <= i < |s| ==> keep(s[i])
    ensures Keep(s, keep) == s
  {
    if s != [] { KeepAll(s[1..], keep); }
  }

  /** `toLowerCase`, restricted to the ASCII letters A-Z. */
  function LowerChar(c: char): (r: char)
    ensures 'A' <= c <= 'Z' ==> r != c && 'a' <= r <= 'z'
    ensures !('A' <= c <= 'Z') ==> r == c
  {
    if 'A' <= c <= 'Z' then (c as int + 32) as char else c
  }

  function ToLower(s: string): (r: string)
    ensures |r| == |s|
  {
    if s == [] then [] else [LowerChar(s[0])] + ToLower(s[1..])
  }

  /** `toLowerCase` maps each character on its own. */
  lemma {:induction false} ToLowerAt(s: string, i: nat)
    requires i < |s|
    ensures ToLower(s)[i] == LowerChar(s[i])
  {
    if i > 0 { ToLowerAt(s[1..], i - 1); }
  }

  lemma {:induction false} ToLowerIdempotent(s: string)
    ensures ToLower(ToLower(s)) == ToLower(s)
  {
    if s != [] {
      ToLowerIdempotent(s[1..]);
      assert ToLower(s)[1..] == ToLower(s[1..]);
    }
  }

  lemma LowerWhiteSpace(c: char)
    ensures IsWhiteSpace(LowerChar(c)) == IsWhiteSpace(c)
  {
    if 'A' <= c <= 'Z' {
      assert 'a' <= LowerChar(c) <= 'z';
    }
  }

  lemma {:induction false} TrimStartLower(s: string)
    ensures TrimStart(ToLower(s)) == ToLower(TrimStart(s))
  {
    if s != [] {
      var u := ToLower(s);
      assert u[0] == LowerChar(s[0]);
      LowerWhiteSpace(s[0]);
      if IsWhiteSpace(s[0]) {
        assert u[1..] == ToLower(s[1..]);
        TrimStartLower(s[1..]);
        calc {
          TrimStart(u);
          TrimStart(ToLower(s[1..]));
          ToLower(TrimStart(s[1..]));
          ToLower(TrimStart(s));
        }
      } else {
        assert TrimStart(u) == u;
      }
    }
  }

  lemma ToLowerInit(s: string)
    requires s != []
    ensures ToLower(s)[..|s| - 1] == ToLower(s[..|s| - 1])
  {
    var init := s[..|s| - 1];
    var lowered := ToLower(s)[..|s| - 1];
    forall i | 0 <= i < |init|
      ensures lowered[i] == ToLower(init)[i]
    {
      ToLowerAt(s, i);
      ToLowerAt(init, i);
    }
  }

  lemma {:induction false} TrimEndLower(s: string)
    ensures TrimEnd(ToLower(s)) == ToLower(TrimEnd(s))
  {
    if s != [] {
      LowerWhiteSpace(s[|s| - 1]);
      if IsWhiteSpace(s[|s| - 1]) {
        TrimEndLower(s[..|s| - 1]);
        TrimEndLowerStep(s);
      } else {
        ToLowerAt(s, |s| - 1);
      }
    }
  }

  /** One white-space character at the end, given the rest commutes. */
  lemma TrimEndLowerStep(s: string)
    requires s != [] && IsWhiteSpace(s[|s| - 1])
    requires TrimEnd(ToLower(s[..|s| - 1])) == ToLower(TrimEnd(s[..|s| - 1]))
    ensures TrimEnd(ToLower(s)) == ToLower(TrimEnd(s))
  {
    var u := ToLower(s);
    LowerWhiteSpace(s[|s| - 1]);
    ToLowerAt(s, |s| - 1);
    ToLowerInit(s);
    assert TrimEnd(u) == TrimEnd(u[..|u| - 1]);
  }

  /** Lower-casing never turns white space into text or text into white
      space, so it commutes with `trim`. */
  lemma TrimLower(s: string)
    ensures Trim(ToLower(s)) == ToLower(Trim(s))
  {
    TrimStartLower(s);
    TrimEndLower(TrimStart(s));
  }

  /** `s.startsWith(prefix)`. */
  predicate StartsWith(s: string, prefix: string) {
    |prefix| <= |s| && s[..|prefix|] == prefix
  }

  /** `s.includes(sub)`: `sub` occurs in `s` at some position. */
  predicate Includes(s: string, sub: string)
    decreases |s|
  {
    StartsWith(s, sub) || (s != [] && Includes(s[1..], sub))
  }

  lemma {:induction false} IncludesAt(s: string, sub: string, k: nat)
    requires k + |sub| <= |s| && s[k..k + |sub|] == sub
    ensures Includes(s, sub)
    decreases k
  {
    if k > 0 {
      assert s[1..][k - 1..k - 1 + |sub|] == s[k..k + |sub|];
      IncludesAt(s[1..], sub, k - 1);
    }
  }

  /** `s.lastIndexOf(c)` for a one-character argument: -1 when absent. */
  function LastIndexOf(s: string, c: char): (r: int)
    ensures -1 <= r < |s|
    ensures r == -1 <==> c !in s
    ensures r >= 0 ==> s[r] == c && c !in s[r + 1..]
  {
    if s == [] then -1
    else if s[|s| - 1] == c then |s| - 1
    else
      var init := s[..|s| - 1];
      var r := LastIndexOf(init, c);
      assert s == init + [s[|s| - 1]];
      assert c in s <==> c in init;
      assert r >= 0 ==> s[r + 1..] == init[r + 1..] + [s[|s| - 1]];
      r
  }

  function DigitChar(d: nat): (c: char)
    requires d < 10
    ensures '0' <= c <= '9'
  {
    ('0' as int + d) as char
  }

  /** The decimal rendering `${n}` of a non-negative integer. */
  function NatToDecimal(n: nat): (s: string)
    ensures 1 <= |s|
    ensures forall i :: 0 <= i < |s| ==> '0' <= s[i] <= '9'
  {
    if n < 10 then [DigitChar(n)] else NatToDecimal(n / 10) + [DigitChar(n % 10)]
  }

  /** Reads back a string of decimal digits. */
  function DecimalToNat(s: string): nat
    requires forall i :: 0 <= i < |s| ==> '0' <= s[i] <= '9'
  {
    if s == [] then 0 else 10 * DecimalToNat(s[..|s| - 1]) + (s[|s| - 1] as int - '0' as int)
  }

  /** Rendering a number and reading it back gives the number: two distinct
      numbers never render alike. */
  lemma {:induction false} DecimalRoundTrip(n: nat)
    ensures DecimalToNat(NatToDecimal(n)) == n
  {
    if n >= 10 {
      var s := NatToDecimal(n);
      assert s[..|s| - 1] == NatToDecimal(n / 10);
      DecimalRoundTrip(n / 10);
    }
  }
}
