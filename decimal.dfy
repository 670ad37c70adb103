/**
 * Decimal text for integral numbers as JavaScript produces and reads it:
 * `String(n)` for an integral number, and `parseInt(s, 10)`.
 * `parseInt` answers NaN when no digit follows the optional sign; that is `None` here.
 */
module Decimal {
  import opened Wrappers

  predicate IsDigit(c: char) {
    '0' <= c <= '9'
  }

  function DigitChar(d: nat): (c: char)
    requires d < 10
    ensures IsDigit(c)
  {
    (('0' as int) + d) as char
  }

  function DigitValue(c: char): (d: nat)
    requires IsDigit(c)
    ensures d < 10
  {
    (c as int) - ('0' as int)
  }

  predicate AllDigits(s: string) {
    forall i :: 0 <= i < |s| ==> IsDigit(s[i])
  }

  /** The shortest decimal numeral of `n`, without leading zeros. */
  function NatDigits(n: nat): (s: string)
    ensures |s| > 0 && AllDigits(s)
  {
    if n < 10 then [DigitChar(n)] else NatDigits(n / 10) + [DigitChar(n % 10)]
  }

  /**
   * `String(n)` for an integral number `n` of magnitude below 10^21; from there on `String`
   * switches to exponent form, which this plain numeral does not follow.
   */
  function ToDecimal(n: int): string {
    if n < 0 then "-" + NatDigits(-n) else NatDigits(n)
  }

  /** The value of a digit string read most significant digit first. */
  function DigitsValue(s: string): nat
    requires AllDigits(s)
  {
    if s == [] then 0 else DigitsValue(s[..|s| - 1]) * 10 + DigitValue(s[|s| - 1])
  }

  /** The characters `parseInt` skips before the number: ECMAScript's WhiteSpace and LineTerminator code points. */
  predicate IsJsWhitespace(c: char) {
    var u := c as int;
    u == 0x09 || u == 0x0A || u == 0x0B || u == 0x0C || u == 0x0D || u == 0x20 || u == 0xA0
    || u == 0x1680 || (0x2000 <= u <= 0x200A) || u == 0x2028 || u == 0x2029 || u == 0x202F
    || u == 0x205F || u == 0x3000 || u == 0xFEFF
  }

  function TrimStart(s: string): string {
    if s != [] && IsJsWhitespace(s[0]) then TrimStart(s[1..]) else s
  }

  /** The longest prefix of `s` made of decimal digits. */
  function DigitPrefix(s: string): (p: string)
    ensures AllDigits(p)
  {
    if s != [] && IsDigit(s[0]) then [s[0]] + DigitPrefix(s[1..]) else []
  }

  /** The digits `parseInt` reads once the sign is behind it: NaN when there are none. */
  function ReadDigits(body: string): Option<nat> {
    var digits := DigitPrefix(body);
    if digits == [] then None else Some(DigitsValue(digits))
  }

  /** `parseInt` after leading whitespace: an optional sign, then the longest run of digits. */
  function ParseSigned(t: string): Option<int> {
    if t != [] && t[0] == '-' then
      match ReadDigits(t[1..])
      case None => None
      case Some(v) => Some(-(v as int))
    else if t != [] && t[0] == '+' then ReadDigits(t[1..])
    else ReadDigits(t)
  }

  /** `parseInt(s, 10)`: skip leading whitespace, read an optional sign, then the longest run of digits. */
  function ParseInt(s: string): Option<int> {
    ParseSigned(TrimStart(s))
  }

  lemma {:induction false} DigitsValueOfNatDigits(n: nat)
    ensures DigitsValue(NatDigits(n)) == n
  {
    if n >= 10 {
      var s := NatDigits(n);
      assert s[..|s| - 1] == NatDigits(n / 10);
      DigitsValueOfNatDigits(n / 10);
    }
  }

  lemma {:induction false} DigitPrefixStopsAtNonDigit(d: string, tail: string)
    requires AllDigits(d)
    requires tail == [] || !IsDigit(tail[0])
    ensures DigitPrefix(d + tail) == d
  {
    if d != [] {
      assert (d + tail)[1..] == d[1..] + tail;
      DigitPrefixStopsAtNonDigit(d[1..], tail);
    }
  }

  lemma {:induction false} TrimStartSkipsWhitespace(ws: string, s: string)
    requires forall i :: 0 <= i < |ws| ==> IsJsWhitespace(ws[i])
    ensures TrimStart(ws + s) == TrimStart(s)
  {
    if ws != [] {
      assert (ws + s)[0] == ws[0];
      assert (ws + s)[1..] == ws[1..] + s;
      TrimStartSkipsWhitespace(ws[1..], s);
    } else {
      assert ws + s == s;
    }
  }

  lemma ReadDigitsOfNatDigits(m: nat, tail: string)
    requires tail == [] || !IsDigit(tail[0])
    ensures ReadDigits(NatDigits(m) + tail) == Some(m)
  {
    DigitPrefixStopsAtNonDigit(NatDigits(m), tail);
    DigitsValueOfNatDigits(m);
  }

  /** A numeral starts with a sign or a digit, so there is no whitespace to skip. */
  lemma TrimStartOfDecimal(n: int, tail: string)
    ensures TrimStart(ToDecimal(n) + tail) == ToDecimal(n) + tail
  {
  }

  lemma ParseSignedOfDecimal(n: int, tail: string)
    requires tail == [] || !IsDigit(tail[0])
    ensures ParseSigned(ToDecimal(n) + tail) == Some(n)
  {
    if n < 0 {
      var d := NatDigits(-n);
      assert ToDecimal(n) + tail == "-" + (d + tail);
      assert ("-" + (d + tail))[1..] == d + tail;
      ReadDigitsOfNatDigits(-n, tail);
    } else {
      ReadDigitsOfNatDigits(n, tail);
    }
  }

  /**
   * `parseInt` reads back what `String` writes, whatever whitespace precedes the numeral and
   * whatever follows it, as long as the text after it does not start with a digit.
   */
  lemma ParseIntReadsDecimal(ws: string, n: int, tail: string)
    requires forall i :: 0 <= i < |ws| ==> IsJsWhitespace(ws[i])
    requires tail == [] || !IsDigit(tail[0])
    ensures ParseInt(ws + ToDecimal(n) + tail) == Some(n)
  {
    assert ws + ToDecimal(n) + tail == ws + (ToDecimal(n) + tail);
    TrimStartSkipsWhitespace(ws, ToDecimal(n) + tail);
    TrimStartOfDecimal(n, tail);
    ParseSignedOfDecimal(n, tail);
  }

  /** The plain round trip: `parseInt(String(n), 10) == n`. */
  lemma ParseIntToDecimal(n: int)
    ensures ParseInt(ToDecimal(n)) == Some(n)
  {
    ParseIntReadsDecimal([], n, []);
    assert [] + ToDecimal(n) + [] == ToDecimal(n);
  }

  /** `parseInt` is NaN when no digit follows the optional sign. */
  lemma ParseIntRejects(s: string)
    requires TrimStart(s) == [] || (!IsDigit(TrimStart(s)[0]) && TrimStart(s)[0] != '-' && TrimStart(s)[0] != '+')
    ensures ParseInt(s).None?
  {
  }
}
