/** The JavaScript string built-ins the storefront relies on: `trim`, `toLowerCase`
    (ASCII letters only), `includes`, `parseInt(s, 10)` and the decimal rendering of a
    non-negative integer. */
module JsStrings {

  datatype Option<T> = None | Some(value: T)

  /** The characters ECMAScript counts as WhiteSpace or LineTerminator, which both
      `String.prototype.trim` and `parseInt` strip. */
  predicate IsWhitespace(c: char) {
    || c == ' ' || c == '\t' || c == '\n' || c == '\r'
    || c == '\U{000B}' || c == '\U{000C}' || c == '\U{00A0}' || c == '\U{1680}'
    || ('\U{2000}' <= c <= '\U{200A}')
    || c == '\U{2028}' || c == '\U{2029}' || c == '\U{202F}' || c == '\U{205F}'
    || c == '\U{3000}' || c == '\U{FEFF}'
  }

  predicate AllWhitespace(s: string) {
    forall i :: 0 <= i < |s| ==> IsWhitespace(s[i])
  }

  /** Drops the leading white space (see TrimStartSpec). */
  function TrimStart(s: string): string {
    if s != [] && IsWhitespace(s[0]) then TrimStart(s[1..]) else s
  }

  /** TrimStart gives the longest suffix of `s` that does not start with white space. */
  lemma {:induction false} TrimStartSpec(s: string)
    ensures |TrimStart(s)| <= |s| && TrimStart(s) == s[|s| - |TrimStart(s)|..]
    ensures TrimStart(s) == [] || !IsWhitespace(TrimStart(s)[0])
    ensures forall i :: 0 <= i < |s| - |TrimStart(s)| ==> IsWhitespace(s[i])
  {
    if s != [] && IsWhitespace(s[0]) {
      var t := s[1..];
      TrimStartSpec(t);
      var r := TrimStart(t);
      assert TrimStart(s) == r;
      assert s[|s| - |r|..] == t[|t| - |r|..];
      forall i | 0 <= i < |s| - |r| ensures IsWhitespace(s[i]) {
        if i > 0 {
          assert s[i] == t[i - 1];
        }
      }
    }
  }

  /** Drops the trailing white space (see TrimEndSpec). */
  function TrimEnd(s: string): string {
    if s != [] && IsWhitespace(s[|s| - 1]) then TrimEnd(s[..|s| - 1]) else s
  }

  /** TrimEnd gives the longest prefix of `s` that does not end with white space. */
  lemma {:induction false} TrimEndSpec(s: string)
    ensures |TrimEnd(s)| <= |s| && TrimEnd(s) == s[..|TrimEnd(s)|]
    ensures TrimEnd(s) == [] || !IsWhitespace(TrimEnd(s)[|TrimEnd(s)| - 1])
    ensures forall i :: |TrimEnd(s)| <= i < |s| ==> IsWhitespace(s[i])
  {
    if s != [] && IsWhitespace(s[|s| - 1]) {
      var t := s[..|s| - 1];
      TrimEndSpec(t);
      var r := TrimEnd(t);
      assert TrimEnd(s) == r;
      assert s[..|r|] == t[..|r|];
      forall i | |r| <= i < |s| ensures IsWhitespace(s[i]) {
        if i < |s| - 1 {
          assert s[i] == t[i];
        }
      }
    }
  }

  /** `s.trim()`. */
  function Trim(s: string): (r: string)
    ensures r == [] || (!IsWhitespace(r[0]) && !IsWhitespace(r[|r| - 1]))
    ensures r == [] <==> AllWhitespace(s)
    ensures exists a, b :: 0 <= a <= b <= |s| && r == s[a..b] && AllWhitespace(s[..a]) && AllWhitespace(s[b..])
  {
    var t := TrimStart(s);
    var r := TrimEnd(t);
    TrimStartSpec(s);
    TrimEndSpec(t);
    assert r != [] ==> r[0] == t[0];
    assert r == [] ==> t == [];
    var a := |s| - |t|;
    var b := a + |r|;
    assert r == s[a..b];
    assert AllWhitespace(s[..a]) by {
      forall i | 0 <= i < a ensures IsWhitespace(s[..a][i]) {
        assert s[..a][i] == s[i];
      }
    }
    assert AllWhitespace(s[b..]) by {
      forall i | 0 <= i < |s| - b ensures IsWhitespace(s[b..][i]) {
        assert s[b..][i] == t[|r| + i];
      }
    }
    r
  }

  /** ASCII model of lower-casing one character. */
  function LowerChar(c: char): (r: char)
    ensures !('A' <= r <= 'Z')
    ensures !('A' <= c <= 'Z') ==> r == c
    ensures 'A' <= c <= 'Z' ==> 'a' <= r <= 'z' && r as int - 'a' as int == c as int - 'A' as int
  {
    if 'A' <= c <= 'Z' then (c as int - 'A' as int + 'a' as int) as char else c
  }

  /** `s.toLowerCase()`, for ASCII letters. */
  function ToLower(s: string): (r: string)
    ensures |r| == |s| && forall i :: 0 <= i < |s| ==> r[i] == LowerChar(s[i])
  {
    seq(|s|, i requires 0 <= i < |s| => LowerChar(s[i]))
  }

  /** `t.startsWith(p)`. */
  predicate StartsWith(t: string, p: string) {
    |p| <= |t| && t[..|p|] == p
  }

  /** `s.includes(sub)`: `sub` occurs in `s` as a contiguous block. */
  predicate IsSubstring(s: string, sub: string) {
    exists i :: 0 <= i <= |s| && StartsWith(s[i..], sub)
  }

  /** The empty string is contained in every string. */
  lemma EmptyIsSubstring(s: string)
    ensures IsSubstring(s, "")
  {
    assert StartsWith(s[0..], "");
  }

  // ---------------------------------------------------------------- decimal digits

  predicate IsDigit(c: char) {
    '0' <= c <= '9'
  }

  predicate AllDigits(s: string) {
    forall i :: 0 <= i < |s| ==> IsDigit(s[i])
  }

  function DigitValue(c: char): (d: nat)
    requires IsDigit(c)
    ensures d < 10
  {
    c as int - '0' as int
  }

  function DigitChar(d: nat): (c: char)
    requires d < 10
    ensures IsDigit(c) && DigitValue(c) == d
  {
    ('0' as int + d) as char
  }

  /** The value of a string of decimal digits, most significant digit first. */
  function DigitsValue(s: string): nat
    requires AllDigits(s)
  {
    if s == [] then 0 else DigitsValue(s[..|s| - 1]) * 10 + DigitValue(s[|s| - 1])
  }

  /** Length of the longest prefix of `s` made of decimal digits. */
  function DigitPrefixLength(s: string): (n: nat)
    ensures n <= |s| && AllDigits(s[..n])
    ensures n == |s| || !IsDigit(s[n])
  {
    if s != [] && IsDigit(s[0]) then
      var m := DigitPrefixLength(s[1..]);
      assert s[..m + 1] == [s[0]] + s[1..][..m];
      m + 1
    else 0
  }

  /** `parseInt(s, 10)`: skip leading white space, read an optional sign and then the
      longest run of decimal digits; `None` stands for NaN (no digit found). */
  function ParseInt(s: string): Option<int> {
    ParseSigned(TrimStart(s))
  }

  /** What `parseInt` reads once the leading white space is gone. */
  function ParseSigned(t: string): Option<int> {
    var negative := t != [] && t[0] == '-';
    var u := if t != [] && (t[0] == '-' || t[0] == '+') then t[1..] else t;
    var n := DigitPrefixLength(u);
    if n == 0 then None
    else if negative then Some(-(DigitsValue(u[..n]) as int))
    else Some(DigitsValue(u[..n]))
  }

  /** `String(n)` for a non-negative integer: its decimal digits without leading zeros. */
  function FormatDecimal(n: nat): (s: string)
    ensures s != [] && AllDigits(s)
    ensures |s| == 1 || s[0] != '0'
    ensures n > 0 ==> s[0] != '0'
  {
    if n < 10 then [DigitChar(n)] else FormatDecimal(n / 10) + [DigitChar(n % 10)]
  }

  /** Reading the decimal rendering of `n` back gives `n`. */
  lemma {:induction false} DigitsValueOfFormat(n: nat)
    ensures DigitsValue(FormatDecimal(n)) == n
  {
    var s := FormatDecimal(n);
    if n >= 10 {
      DigitsValueOfFormat(n / 10);
      assert s[..|s| - 1] == FormatDecimal(n / 10);
    }
  }

  /** The digit run of `d + rest` is exactly `d` when `rest` does not go on with a digit. */
  lemma {:induction false} DigitPrefixOfDigits(d: string, rest: string)
    requires AllDigits(d)
    requires rest == [] || !IsDigit(rest[0])
    ensures DigitPrefixLength(d + rest) == |d|
    ensures (d + rest)[..|d|] == d
    decreases |d|
  {
    if d != [] {
      assert (d + rest)[1..] == d[1..] + rest;
      DigitPrefixOfDigits(d[1..], rest);
    }
  }

  /** `parseInt` reads the decimal rendering of `n` back as `n`, whatever non-digit text
      follows it (so `"12abc"` and `"1.5"` read as 12 and 1). */
  lemma ParseIntOfDecimal(n: nat, rest: string)
    requires rest == [] || !IsDigit(rest[0])
    ensures ParseInt(FormatDecimal(n) + rest) == Some(n)
  {
    var d := FormatDecimal(n);
    var s := d + rest;
    assert s[0] == d[0] && !IsWhitespace(s[0]);
    assert TrimStart(s) == s;
    DigitPrefixOfDigits(d, rest);
    DigitsValueOfFormat(n);
  }

  /** A minus sign in front of the digits negates the value (`"-5"` reads as -5). */
  lemma ParseIntOfNegativeDecimal(n: nat, rest: string)
    requires rest == [] || !IsDigit(rest[0])
    ensures ParseInt("-" + (FormatDecimal(n) + rest)) == Some(-(n as int))
  {
    var t := FormatDecimal(n) + rest;
    var s := "-" + t;
    assert s[0] == '-' && !IsWhitespace(s[0]);
    assert TrimStart(s) == s;
    assert s[1..] == t;
    DigitPrefixOfDigits(FormatDecimal(n), rest);
    DigitsValueOfFormat(n);
  }

  /** Leading white space is all that `trim` and `parseInt` skip at the front. */
  lemma {:induction false} TrimStartSkipsWhitespace(ws: string, s: string)
    requires AllWhitespace(ws)
    ensures TrimStart(ws + s) == TrimStart(s)
    decreases |ws|
  {
    if ws != [] {
      assert (ws + s)[0] == ws[0] && IsWhitespace(ws[0]);
      assert TrimStart(ws + s) == TrimStart((ws + s)[1..]);
      assert (ws + s)[1..] == ws[1..] + s;
      TrimStartSkipsWhitespace(ws[1..], s);
    } else {
      assert ws + s == s;
    }
  }

  /** Leading white space does not change what `parseInt` reads. */
  lemma ParseIntSkipsWhitespace(ws: string, s: string)
    requires AllWhitespace(ws)
    ensures ParseInt(ws + s) == ParseInt(s)
  {
    TrimStartSkipsWhitespace(ws, s);
  }

  /** Text that holds no digit at all reads as NaN, the empty string among it. */
  lemma ParseIntWithoutDigits(s: string)
    requires forall i :: 0 <= i < |s| ==> !IsDigit(s[i])
    ensures ParseInt(s) == None
  {
    var t := TrimStart(s);
    TrimStartSpec(s);
    if t != [] && (t[0] == '-' || t[0] == '+') {
      var u := t[1..];
      if u != [] {
        assert u[0] == s[|s| - |t| + 1];
      }
    } else if t != [] {
      assert t[0] == s[|s| - |t|];
    }
  }
}
