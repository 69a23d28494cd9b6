/**
 * Decimal text <-> integers: the integer-only part of JavaScript's `Number(text)`
 * coercion, and the decimal printing done by a BigInt's `toString()` or by a
 * number input that shows an integer-valued number.
 */
module Decimal {

  predicate IsDigit(c: char) {
    '0' <= c <= '9'
  }

  predicate AllDigits(s: string) {
    forall i :: 0 <= i < |s| ==> IsDigit(s[i])
  }

  function DigitValue(c: char): (d: nat)
    requires IsDigit(c)
    ensures d < 10
  {
    c as int - '0' as int
  }

  function DigitChar(d: nat): (c: char)
    requires d < 10
    ensures IsDigit(c) && DigitValue(c) == d
  {
    ('0' as int + d) as char
  }

  /** The value of a string of decimal digits, most significant digit first. */
  function ParseDigits(s: string): nat
    requires AllDigits(s)
    decreases |s|
  {
    if s == [] then 0 else 10 * ParseDigits(s[..|s| - 1]) + DigitValue(s[|s| - 1])
  }

  /** Canonical decimal text of a natural number: digits only, no leading zero. */
  function NatText(n: nat): (s: string)
    ensures s != [] && AllDigits(s)
    ensures (s == "0") == (n == 0)
    ensures s[0] == '0' ==> s == "0"
    decreases n
  {
    if n < 10 then [DigitChar(n)] else NatText(n / 10) + [DigitChar(n % 10)]
  }

  /** Decimal text of an integer, with a leading '-' when negative. */
  function IntText(n: int): (s: string)
    ensures s != []
  {
    if n < 0 then "-" + NatText(-n) else NatText(n)
  }

  /**
   * `Number(raw)` for the value of a number input, on integers only. The
   * browser empties such an input's value unless its text is a valid
   * floating-point number, so `raw` is either empty, which `Number` makes 0,
   * or an optional '-' followed by digits, possibly with a fraction or an
   * exponent. Digits, with or without the '-', give that integer exactly.
   * Text with a fraction or an exponent is not modelled and gives 0.
   */
  function ToNumber(raw: string): (n: int)
    ensures raw == "" ==> n == 0
    ensures n < 0 ==> raw[0] == '-'
    ensures AllDigits(raw) ==> n >= 0
  {
    if raw == [] then 0
    else if raw[0] == '-' && |raw| > 1 && AllDigits(raw[1..]) then -(ParseDigits(raw[1..]) as int)
    else if AllDigits(raw) then ParseDigits(raw)
    else 0
  }

  lemma {:induction false} ParseNatText(n: nat)
    ensures ParseDigits(NatText(n)) == n
    decreases n
  {
    if n >= 10 {
      var s := NatText(n);
      assert s[..|s| - 1] == NatText(n / 10);
      ParseNatText(n / 10);
    }
  }

  /** Reading back the text of an integer gives that integer. */
  lemma ToNumberIntText(n: int)
    ensures ToNumber(IntText(n)) == n
  {
    if n < 0 {
      var s := IntText(n);
      assert s[1..] == NatText(-n);
      ParseNatText(-n);
    } else {
      ParseNatText(n);
    }
  }

  /** Re-printing a well-formed text reads back to the same number. */
  lemma ToNumberNatText(n: nat)
    ensures ToNumber(NatText(n)) == n
  {
    ParseNatText(n);
  }
}
