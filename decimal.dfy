/**
 * Decimal rendering and parsing of Java `int` values: `String.valueOf(int)`
 * and `Integer.parseInt(String)` (ASCII digits only).
 */
module Decimal {
  import opened Wrappers

  const INT_MIN: int := -0x8000_0000
  const INT_MAX: int := 0x7fff_ffff

  /** `n` fits in a Java `int`. */
  predicate IsJavaInt(n: int) { INT_MIN <= n <= INT_MAX }

  predicate IsDigit(c: char) { '0' <= c <= '9' }

  predicate AllDigits(s: string) { forall i :: 0 <= i < |s| ==> IsDigit(s[i]) }

  function DigitChar(d: nat): (c: char)
    requires d < 10
    ensures IsDigit(c) && c as int - '0' as int == d
  {
    ('0' as int + d) as char
  }

  /** The digits of `n` without leading zeros; "0" for zero. */
  function Digits(n: nat): (s: string)
    ensures |s| > 0 && AllDigits(s)
    ensures |s| > 1 ==> s[0] != '0'
  {
    if n < 10 then [DigitChar(n)] else Digits(n / 10) + [DigitChar(n % 10)]
  }

  /** `String.valueOf(n)`: a minus sign for negative values, then the digits of the magnitude. */
  function Render(n: int): (r: string)
    ensures |r| > 0 && (r[0] == '-' <==> n < 0)
    ensures AllDigits(if n < 0 then r[1..] else r)
    ensures |r| > 1 && r[0] != '-' ==> r[0] != '0'
  {
    if n < 0 then "-" + Digits(-n) else Digits(n)
  }

  /** The value of a non-empty string of digits. */
  function DigitsValue(s: string): nat
    requires AllDigits(s)
  {
    if s == [] then 0 else DigitsValue(s[..|s| - 1]) * 10 + (s[|s| - 1] as int - '0' as int)
  }

  /**
   * `Integer.parseInt(s)`: an optional '+' or '-' sign followed by at least one digit,
   * with the value inside the `int` range; anything else is a NumberFormatException (None).
   */
  function Parse(s: string): (r: Option<int>)
    ensures r.Some? ==> IsJavaInt(r.value)
  {
    if |s| == 0 then None
    else
      var negative := s[0] == '-';
      var body := if s[0] == '-' || s[0] == '+' then s[1..] else s;
      if |body| == 0 || !AllDigits(body) then None
      else
        var v := if negative then -(DigitsValue(body) as int) else DigitsValue(body) as int;
        if IsJavaInt(v) then Some(v) else None
  }

  lemma {:induction false} DigitsValueOfDigits(n: nat)
    ensures DigitsValue(Digits(n)) == n
  {
    if n >= 10 {
      DigitsValueOfDigits(n / 10);
      var s := Digits(n);
      assert s[..|s| - 1] == Digits(n / 10);
    }
  }

  /** Parsing the rendering of a Java `int` gives the `int` back. */
  lemma ParseRender(n: int)
    requires IsJavaInt(n)
    ensures Parse(Render(n)) == Some(n)
  {
    if n < 0 {
      DigitsValueOfDigits(-n);
      assert Render(n)[1..] == Digits(-n);
    } else {
      DigitsValueOfDigits(n);
    }
  }

  /** A rendering is never empty and never starts with '+': distinct ints render differently. */
  lemma RenderInjective(m: int, n: int)
    requires IsJavaInt(m) && IsJavaInt(n) && Render(m) == Render(n)
    ensures m == n
  {
    ParseRender(m);
    ParseRender(n);
  }
}
