/** Decimal numerals: the integer-to-string conversion behind the generated
    names (`CodapFlow_3`, `name_(2)`) and "at case N" messages, and the
    decimal-literal reading that stands in for JavaScript's `Number()` and
    `parseFloat` on strings. */
module Numerals {
  import opened Wrappers

  predicate IsDigit(c: char) { '0' <= c <= '9' }

  function DigitValue(c: char): nat
    requires IsDigit(c)
  {
    (c as int - '0' as int) as nat
  }

  function DigitChar(d: nat): (c: char)
    requires d < 10
    ensures IsDigit(c) && DigitValue(c) == d
  {
    ('0' as int + d) as char
  }

  predicate AllDigits(s: string) {
    forall i :: 0 <= i < |s| ==> IsDigit(s[i])
  }

  /** The value of a string of decimal digits, most significant first ("" is 0). */
  function DigitsValue(s: string): nat
    requires AllDigits(s)
  {
    if s == [] then 0 else DigitsValue(s[..|s| - 1]) * 10 + DigitValue(s[|s| - 1])
  }

  /** The shortest decimal numeral of `n`, as `${n}` prints a non-negative integer. */
  function NatToString(n: nat): (s: string)
    ensures |s| > 0 && AllDigits(s)
  {
    if n < 10 then [DigitChar(n)] else NatToString(n / 10) + [DigitChar(n % 10)]
  }

  /** Reading back a printed numeral gives the number: the printing loses nothing. */
  lemma {:induction false} NatToStringRoundTrip(n: nat)
    ensures DigitsValue(NatToString(n)) == n
  {
    if n >= 10 {
      var s := NatToString(n);
      var init := NatToString(n / 10);
      assert s == init + [DigitChar(n % 10)];
      assert s[..|s| - 1] == init;
      NatToStringRoundTrip(n / 10);
    }
  }

  /** Distinct numbers print differently, so a counter never repeats a name. */
  lemma NatToStringInjective(m: nat, n: nat)
    requires m != n
    ensures NatToString(m) != NatToString(n)
  {
    NatToStringRoundTrip(m);
    NatToStringRoundTrip(n);
  }

  /** `${i}` for an integer. */
  function IntToString(i: int): (s: string)
    ensures |s| > 0
  {
    if i < 0 then "-" + NatToString(-i) else NatToString(i)
  }

  function Pow10(k: nat): (p: nat)
    ensures p > 0
  {
    if k == 0 then 1 else 10 * Pow10(k - 1)
  }

  /** Index of the first '.' in `s`, or |s| when there is none. */
  function DotIndex(s: string): (k: nat)
    ensures k <= |s|
    ensures k < |s| ==> s[k] == '.'
    ensures forall j :: 0 <= j < k ==> s[j] != '.'
  {
    if s == [] then 0 else if s[0] == '.' then 0 else 1 + DotIndex(s[1..])
  }

  /** An unsigned decimal literal: digits, optionally a '.' and more digits,
      with at least one digit in all ("12", "1.5", ".5", "3."). */
  function UnsignedDecimal(s: string): Option<real> {
    var k := DotIndex(s);
    var whole := s[..k];
    var frac := if k < |s| then s[k + 1..] else "";
    if AllDigits(whole) && AllDigits(frac) && |whole| + |frac| > 0 then
      Some(DigitsValue(whole) as real + DigitsValue(frac) as real / Pow10(|frac|) as real)
    else
      None
  }

  /** A signed decimal literal; `None` plays the part of `NaN`. */
  function DecimalValue(s: string): Option<real> {
    if |s| > 0 && s[0] == '-' then
      match UnsignedDecimal(s[1..])
      case Some(v) => Some(-v)
      case None => None
    else if |s| > 0 && s[0] == '+' then UnsignedDecimal(s[1..])
    else UnsignedDecimal(s)
  }

  /** JavaScript's white space and line terminators, as ECMA-262 defines
      WhiteSpace and LineTerminator: tab, vertical tab, form feed, the byte
      order mark, the Unicode space separators, line feed, carriage return,
      and the line and paragraph separators. */
  predicate IsSpace(c: char) {
    c == '\t' || c == '\U{000B}' || c == '\U{000C}' || c == '\U{FEFF}' ||
    c == ' ' || c == '\U{00A0}' || c == '\U{1680}' || ('\U{2000}' <= c <= '\U{200A}') ||
    c == '\U{202F}' || c == '\U{205F}' || c == '\U{3000}' ||
    c == '\n' || c == '\r' || c == '\U{2028}' || c == '\U{2029}'
  }

  /** `s.trimStart()`: `s` without its leading white space. */
  function TrimStart(s: string): (r: string)
    ensures |r| <= |s|
  {
    if s != "" && IsSpace(s[0]) then TrimStart(s[1..]) else s
  }

  /** `trimStart` leaves a suffix, drops only white space, and stops at the
      first character that is not white space. */
  lemma {:induction false} TrimStartSpec(s: string)
    ensures var r := TrimStart(s);
            r == s[|s| - |r|..] &&
            (forall i :: 0 <= i < |s| - |r| ==> IsSpace(s[i])) &&
            (r != "" ==> !IsSpace(r[0]))
  {
    if s != "" && IsSpace(s[0]) {
      var r := TrimStart(s[1..]);
      TrimStartSpec(s[1..]);
      assert s[1..][|s| - 1 - |r|..] == s[|s| - |r|..];
      forall i | 0 <= i < |s| - |r|
        ensures IsSpace(s[i])
      {
        if i > 0 {
          assert s[i] == s[1..][i - 1];
        }
      }
    }
  }

  /** `s.trimEnd()`: `s` without its trailing white space. */
  function TrimEnd(s: string): (r: string)
    ensures |r| <= |s|
  {
    if s != "" && IsSpace(s[|s| - 1]) then TrimEnd(s[..|s| - 1]) else s
  }

  /** `trimEnd` leaves a prefix, drops only white space, and stops at the
      last character that is not white space. */
  lemma {:induction false} TrimEndSpec(s: string)
    ensures var r := TrimEnd(s);
            r == s[..|r|] &&
            (forall i :: |r| <= i < |s| ==> IsSpace(s[i])) &&
            (r != "" ==> !IsSpace(r[|r| - 1]))
  {
    if s != "" && IsSpace(s[|s| - 1]) {
      var r := TrimEnd(s[..|s| - 1]);
      TrimEndSpec(s[..|s| - 1]);
      assert s[..|s| - 1][..|r|] == s[..|r|];
      forall i | |r| <= i < |s|
        ensures IsSpace(s[i])
      {
        if i < |s| - 1 {
          assert s[i] == s[..|s| - 1][i];
        }
      }
    }
  }

  /** `s.trim()`. */
  function Trim(s: string): string {
    TrimEnd(TrimStart(s))
  }

  /** A string that neither starts nor ends with white space is its own trim. */
  lemma TrimmedIsTrim(s: string)
    requires s == "" || (!IsSpace(s[0]) && !IsSpace(s[|s| - 1]))
    ensures TrimStart(s) == s && Trim(s) == s
  {
  }

  /** Leading white space does not change what `trimStart` leaves. */
  lemma {:induction false} TrimStartSkips(pre: string, s: string)
    requires forall i :: 0 <= i < |pre| ==> IsSpace(pre[i])
    ensures TrimStart(pre + s) == TrimStart(s)
    decreases |pre|
  {
    if pre == [] {
      assert pre + s == s;
    } else {
      assert (pre + s)[1..] == pre[1..] + s;
      TrimStartSkips(pre[1..], s);
    }
  }

  /** Trailing white space does not change what `trimEnd` leaves. */
  lemma {:induction false} TrimEndSkips(s: string, post: string)
    requires forall i :: 0 <= i < |post| ==> IsSpace(post[i])
    ensures TrimEnd(s + post) == TrimEnd(s)
    decreases |post|
  {
    if post == [] {
      assert s + post == s;
    } else {
      var n := |post| - 1;
      assert (s + post)[..|s + post| - 1] == s + post[..n];
      TrimEndSkips(s, post[..n]);
    }
  }

  /** Text after a string is kept by `trimStart` unless the string is all
      white space. */
  lemma TrimStartAppend(s: string, post: string)
    ensures TrimStart(s) == "" ==> TrimStart(s + post) == TrimStart(post)
    ensures TrimStart(s) != "" ==> TrimStart(s + post) == TrimStart(s) + post
  {
    var t := TrimStart(s);
    TrimStartSpec(s);
    var lead := s[..|s| - |t|];
    assert s + post == lead + (t + post);
    TrimStartSkips(lead, t + post);
    if t == "" {
      assert t + post == post;
    } else {
      assert (t + post)[0] == t[0];
    }
  }

  /** White space around a string does not change its trim. */
  lemma TrimSkips(pre: string, s: string, post: string)
    requires forall i :: 0 <= i < |pre| ==> IsSpace(pre[i])
    requires forall i :: 0 <= i < |post| ==> IsSpace(post[i])
    ensures Trim(pre + s + post) == Trim(s)
  {
    assert pre + s + post == pre + (s + post);
    TrimStartSkips(pre, s + post);
    TrimStartAppend(s, post);
    if TrimStart(s) == "" {
      TrimStartSkips(post, "");
      assert post + "" == post;
    } else {
      TrimEndSkips(TrimStart(s), post);
    }
  }

  /** Text whose first character is neither a digit, a sign nor a '.' is no
      number. */
  lemma NotDecimal(t: string)
    requires t != "" && !IsDigit(t[0]) && t[0] != '.' && t[0] != '-' && t[0] != '+'
    ensures DecimalValue(t).None?
  {
    assert DotIndex(t) > 0;
    assert t[..DotIndex(t)][0] == t[0];
  }

  /** Text whose first character is neither white space, a digit, a sign nor
      a '.' is no number, trimmed at one end or at both. */
  lemma NotNumeral(s: string)
    requires s != "" && !IsSpace(s[0]) && !IsDigit(s[0])
    requires s[0] != '.' && s[0] != '-' && s[0] != '+'
    ensures DecimalValue(TrimStart(s)).None? && Trim(s) != "" && DecimalValue(Trim(s)).None?
  {
    assert TrimStart(s) == s;
    NotDecimal(s);
    var t := TrimEnd(s);
    TrimEndSpec(s);
    assert t != "" && t[0] == s[0];
    NotDecimal(t);
  }

  /** A printed non-negative integer reads back as itself. */
  lemma DecimalValueOfNat(n: nat)
    ensures DecimalValue(NatToString(n)) == Some(n as real)
  {
    var s := NatToString(n);
    assert s[0] != '-' && s[0] != '+' by { assert IsDigit(s[0]); }
    var k := DotIndex(s);
    assert k == |s|;
    assert s[..k] == s;
    NatToStringRoundTrip(n);
  }

  /** The empty string is not a number literal (`parseFloat("")` is NaN). */
  lemma EmptyIsNotDecimal()
    ensures DecimalValue("") == None
  {
  }

  /** The first `k` decimal digits of a fraction `0 <= f < 1`. */
  function FractionDigits(f: real, k: nat): (s: string)
    requires 0.0 <= f < 1.0
    ensures |s| == k && AllDigits(s)
    decreases k
  {
    if k == 0 then ""
    else
      var d := (f * 10.0).Floor;
      assert 0 <= d < 10;
      [DigitChar(d)] + FractionDigits(f * 10.0 - d as real, k - 1)
  }

  function DropTrailingZeros(s: string): (t: string)
    ensures |t| <= |s| && t == s[..|t|]
    ensures t == [] || t[|t| - 1] != '0'
  {
    if s == [] || s[|s| - 1] != '0' then s else DropTrailingZeros(s[..|s| - 1])
  }

  /** `${x}` for a number, in positional notation. Integers print exactly as
      JavaScript prints them; other numbers print with at most 20 fraction
      digits. */
  function RealToString(x: real): (s: string)
    ensures |s| > 0
  {
    var y := if x < 0.0 then -x else x;
    var w := y.Floor;
    var digits := if y == w as real then "" else DropTrailingZeros(FractionDigits(y - w as real, 20));
    var unsigned := if digits == "" then NatToString(w) else NatToString(w) + "." + digits;
    if x < 0.0 then "-" + unsigned else unsigned
  }

  /** An integer prints as its numeral. */
  lemma RealToStringOfInt(i: int)
    ensures RealToString(i as real) == IntToString(i)
  {
    var y := if i < 0 then -i else i;
    assert (y as real).Floor == y;
  }
}
