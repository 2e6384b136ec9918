/**
 * ECMAScript's global `parseInt(string)` called without a radix, which the
 * repository uses to turn an id argument (a query-parameter text, or a number
 * printed into an inline handler) back into a record id. `None` stands for NaN,
 * which is equal to no number.
 */
module JsNumber {
  import opened Wrappers

  /** StrWhiteSpaceChar of ECMAScript: WhiteSpace (with every Zs space) and LineTerminator. */
  predicate IsStrWhiteSpace(c: char) {
    || c == '\t' || c == '\U{000B}' || c == '\U{000C}' || c == '\U{FEFF}'
    || c == '\n' || c == '\r' || c == '\U{2028}' || c == '\U{2029}'
    || c == ' ' || c == '\U{00A0}' || c == '\U{1680}' || ('\U{2000}' <= c <= '\U{200A}')
    || c == '\U{202F}' || c == '\U{205F}' || c == '\U{3000}'
  }

  /** The string with its leading white space removed. */
  function TrimStart(s: string): (r: string)
    ensures |r| <= |s| && r == s[|s| - |r|..]
    ensures forall i :: 0 <= i < |s| - |r| ==> IsStrWhiteSpace(s[i])
    ensures r == [] || !IsStrWhiteSpace(r[0])
  {
    if s != [] && IsStrWhiteSpace(s[0]) then TrimStart(s[1..]) else s
  }

  /** The value of a character as a digit of radix up to 36, or -1 when it is none. */
  function DigitValue(c: char): (d: int)
    ensures -1 <= d < 36
    ensures '0' <= c <= '9' ==> d == c as int - '0' as int
  {
    if '0' <= c <= '9' then c as int - '0' as int
    else if 'a' <= c <= 'z' then c as int - 'a' as int + 10
    else if 'A' <= c <= 'Z' then c as int - 'A' as int + 10
    else -1
  }

  predicate IsDigit(c: char, radix: nat) {
    0 <= DigitValue(c) < radix
  }

  /** The length of the longest prefix of `s` made of radix digits. */
  function LeadingDigits(s: string, radix: nat): (n: nat)
    ensures n <= |s|
    ensures forall i :: 0 <= i < n ==> IsDigit(s[i], radix)
    ensures n < |s| ==> !IsDigit(s[n], radix)
  {
    if s != [] && IsDigit(s[0], radix) then 1 + LeadingDigits(s[1..], radix) else 0
  }

  /** The number a run of digits denotes, most significant first. */
  function DigitsValue(ds: string, radix: nat): nat
    requires forall i :: 0 <= i < |ds| ==> IsDigit(ds[i], radix)
  {
    if ds == [] then 0
    else
      var high := DigitsValue(ds[..|ds| - 1], radix);
      assert IsDigit(ds[|ds| - 1], radix);
      MulNonNegative(high, radix);
      high * radix + DigitValue(ds[|ds| - 1])
  }

  lemma MulNonNegative(a: nat, b: nat)
    ensures a * b >= 0
  {
  }

  /**
   * The magnitude parseInt reads after the sign: an optional "0x"/"0X" selects
   * radix 16 (radix 10 otherwise), then the longest run of digits counts; no
   * digit at all gives NaN.
   */
  function ParseMagnitude(u: string): Option<nat> {
    var hex := |u| >= 2 && u[0] == '0' && (u[1] == 'x' || u[1] == 'X');
    var radix := if hex then 16 else 10;
    var body := if hex then u[2..] else u;
    var n := LeadingDigits(body, radix);
    if n == 0 then None else Some(DigitsValue(body[..n], radix))
  }

  /** parseInt after white space: an optional sign, then the magnitude. */
  function ParseSigned(t: string): Option<int> {
    if t != [] && (t[0] == '-' || t[0] == '+') then
      match ParseMagnitude(t[1..])
      case None => None
      case Some(m) =>
        var value := if t[0] == '-' then -(m as int) else m as int;
        Some(value)
    else
      match ParseMagnitude(t)
      case None => None
      case Some(m) => Some(m)
  }

  /**
   * parseInt(s): skip leading white space, then read a signed magnitude. The
   * sign of a zero is dropped: -0 and 0 compare equal.
   */
  function ParseInt(s: string): (r: Option<int>)
    ensures r.Some? ==>
      var t := TrimStart(s);
      && t != []
      && (t[0] == '-' || t[0] == '+' || IsDigit(t[0], 10))
      && (r.value < 0 ==> t[0] == '-')
  {
    ParseSigned(TrimStart(s))
  }

  function DigitChar(d: nat): (c: char)
    requires d < 10
    ensures IsDigit(c, 10) && DigitValue(c) == d
  {
    ('0' as int + d) as char
  }

  /** The decimal text of a natural number, as Number-to-String prints it. */
  function NatText(n: nat): (s: string)
    ensures |s| >= 1
    ensures forall i :: 0 <= i < |s| ==> IsDigit(s[i], 10)
    ensures n >= 10 <==> |s| >= 2
    ensures n > 0 ==> s[0] != '0'
  {
    if n < 10 then [DigitChar(n)] else NatText(n / 10) + [DigitChar(n % 10)]
  }

  /** The decimal text of an integer: a '-' for negatives, then the digits. */
  function DecimalText(n: int): (s: string)
    ensures s != [] && !IsStrWhiteSpace(s[0])
    ensures s[0] == '-' <==> n < 0
    ensures forall i :: (if n < 0 then 1 else 0) <= i < |s| ==> IsDigit(s[i], 10)
  {
    if n < 0 then "-" + NatText(-n) else NatText(n)
  }

  lemma {:induction false} NatTextValue(n: nat)
    ensures DigitsValue(NatText(n), 10) == n
  {
    var s := NatText(n);
    if n >= 10 {
      assert s[..|s| - 1] == NatText(n / 10);
      NatTextValue(n / 10);
    }
  }

  lemma {:induction false} LeadingDigitsOfRun(ds: string, rest: string, radix: nat)
    requires forall i :: 0 <= i < |ds| ==> IsDigit(ds[i], radix)
    requires rest == [] || !IsDigit(rest[0], radix)
    ensures LeadingDigits(ds + rest, radix) == |ds|
  {
    if ds != [] {
      assert (ds + rest)[1..] == ds[1..] + rest;
      LeadingDigitsOfRun(ds[1..], rest, radix);
    }
  }

  lemma {:induction false} TrimStartSkips(ws: string, s: string)
    requires forall i :: 0 <= i < |ws| ==> IsStrWhiteSpace(ws[i])
    requires s == [] || !IsStrWhiteSpace(s[0])
    ensures TrimStart(ws + s) == s
  {
    if ws != [] {
      assert (ws + s)[1..] == ws[1..] + s;
      TrimStartSkips(ws[1..], s);
    }
  }

  lemma ParseMagnitudeOfDigits(digits: string, rest: string)
    requires |digits| >= 1 && forall i :: 0 <= i < |digits| ==> IsDigit(digits[i], 10)
    requires rest == [] || !IsDigit(rest[0], 10)
    requires |digits| == 1 && digits[0] == '0' && rest != [] ==> rest[0] != 'x' && rest[0] != 'X'
    requires |digits| >= 2 ==> digits[0] != '0'
    ensures ParseMagnitude(digits + rest) == Some(DigitsValue(digits, 10))
  {
    var u := digits + rest;
    assert !(|u| >= 2 && u[0] == '0' && (u[1] == 'x' || u[1] == 'X')) by {
      if |u| >= 2 && u[0] == '0' {
        assert |digits| == 1;
        assert u[1] == rest[0];
      }
    }
    LeadingDigitsOfRun(digits, rest, 10);
    assert u[..|digits|] == digits;
  }

  lemma ParseSignedMinus(t: string, m: nat)
    requires t != [] && t[0] == '-' && ParseMagnitude(t[1..]) == Some(m)
    ensures ParseSigned(t) == Some(-(m as int))
  {
  }

  lemma ParseSignedUnsigned(u: string, m: nat)
    requires u != [] && IsDigit(u[0], 10)
    requires ParseMagnitude(u) == Some(m)
    ensures ParseSigned(u) == Some(m)
  {
  }

  lemma ParseSignedDecimalText(n: int, rest: string)
    requires rest == [] || !IsDigit(rest[0], 10)
    requires n == 0 && rest != [] ==> rest[0] != 'x' && rest[0] != 'X'
    ensures ParseSigned(DecimalText(n) + rest) == Some(n)
  {
    if n < 0 {
      ParseSignedNegativeText(-n, rest);
    } else {
      ParseSignedNatText(n, rest);
    }
  }

  lemma ParseSignedNegativeText(m: nat, rest: string)
    requires m > 0
    requires rest == [] || !IsDigit(rest[0], 10)
    ensures ParseSigned(DecimalText(-(m as int)) + rest) == Some(-(m as int))
  {
    var d := NatText(m);
    NatTextParses(m, rest);
    NegativeText(m);
    DropSign(d, rest);
    ParseSignedMinus(DecimalText(-(m as int)) + rest, m);
  }

  lemma DropSign(d: string, rest: string)
    ensures ("-" + d + rest)[0] == '-' && ("-" + d + rest)[1..] == d + rest
  {
  }

  lemma NegativeText(m: nat)
    requires m > 0
    ensures DecimalText(-(m as int)) == "-" + NatText(m)
  {
  }

  lemma ParseSignedNatText(n: nat, rest: string)
    requires rest == [] || !IsDigit(rest[0], 10)
    requires n == 0 && rest != [] ==> rest[0] != 'x' && rest[0] != 'X'
    ensures ParseSigned(DecimalText(n) + rest) == Some(n)
  {
    NatTextParses(n, rest);
    assert DecimalText(n) == NatText(n);
    ParseSignedUnsigned(NatText(n) + rest, n);
  }

  /** parseInt's magnitude step reads the decimal digits of `n` back as `n`. */
  lemma NatTextParses(n: nat, rest: string)
    requires rest == [] || !IsDigit(rest[0], 10)
    requires n == 0 && rest != [] ==> rest[0] != 'x' && rest[0] != 'X'
    ensures ParseMagnitude(NatText(n) + rest) == Some(n)
  {
    ParseMagnitudeOfDigits(NatText(n), rest);
    NatTextValue(n);
  }

  /**
   * Reading back the decimal text of an integer, after any leading white space
   * and before any text that does not continue the number, yields that integer.
   * A text after a lone "0" must not start with 'x' or 'X', which would make
   * "0x" a hexadecimal prefix.
   */
  lemma ParseIntDecimalText(ws: string, n: int, rest: string)
    requires forall i :: 0 <= i < |ws| ==> IsStrWhiteSpace(ws[i])
    requires rest == [] || !IsDigit(rest[0], 10)
    requires n == 0 && rest != [] ==> rest[0] != 'x' && rest[0] != 'X'
    ensures ParseInt(ws + DecimalText(n) + rest) == Some(n)
  {
    var text := DecimalText(n) + rest;
    assert ws + DecimalText(n) + rest == ws + text;
    TrimStartSkips(ws, text);
    ParseSignedDecimalText(n, rest);
  }

  /** Text with no digit where the number should start reads as NaN. */
  lemma NoDigitsIsNaN(s: string)
    requires var t := TrimStart(s); t == [] || (!IsDigit(t[0], 10) && t[0] != '-' && t[0] != '+')
    ensures ParseInt(s) == None
  {
    var t := TrimStart(s);
    ParseMagnitudeNoDigit(t);
  }

  lemma ParseMagnitudeNoDigit(u: string)
    requires u == [] || !IsDigit(u[0], 10)
    ensures ParseMagnitude(u) == None
  {
    if u != [] {
      assert IsDigit('0', 10);
      assert u[0] != '0';
      assert LeadingDigits(u, 10) == 0;
    }
  }
}
