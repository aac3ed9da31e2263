/**
 * How a JavaScript template literal renders an integer: `${n}` gives its
 * decimal digits, preceded by `-` when it is negative, with no leading zeros.
 * `ParseInteger` reads such a rendering back and is its inverse.
 */
module JsText {
  import opened Wrappers

  predicate IsDigit(c: char) { '0' <= c <= '9' }

  predicate AllDigits(s: string) { forall i :: 0 <= i < |s| ==> IsDigit(s[i]) }

  function DigitChar(d: nat): (c: char)
    requires d < 10
    ensures IsDigit(c) && (c as int) - ('0' as int) == d
  {
    (('0' as int) + d) as char
  }

  function DigitValue(c: char): (d: nat)
    requires IsDigit(c)
    ensures d < 10 && DigitChar(d) == c
  {
    (c as int) - ('0' as int)
  }

  /** The decimal digits of `n`, most significant first. */
  function NatToDigits(n: nat): (s: string)
    ensures |s| > 0 && AllDigits(s)
    ensures s[0] == '0' ==> n == 0
    decreases n
  {
    if n < 10 then [DigitChar(n)] else NatToDigits(n / 10) + [DigitChar(n % 10)]
  }

  /** What `${n}` produces for an integer-valued number `n`. */
  function IntToString(n: int): (s: string)
    ensures |s| > 0
    ensures n < 0 <==> s[0] == '-'
    ensures n >= 0 ==> AllDigits(s)
    ensures n < 0 ==> AllDigits(s[1..])
  {
    if n < 0 then "-" + NatToDigits(-n) else NatToDigits(n)
  }

  /** The value of a string of decimal digits (the empty string reads as 0). */
  function DigitsValue(s: string): nat
    requires AllDigits(s)
  {
    if |s| == 0 then 0 else DigitsValue(s[..|s| - 1]) * 10 + DigitValue(s[|s| - 1])
  }

  /** Reads an optionally signed decimal integer; `None` for anything else. */
  function ParseInteger(s: string): Option<int> {
    if |s| > 1 && s[0] == '-' && AllDigits(s[1..]) then Some(-(DigitsValue(s[1..]) as int))
    else if |s| > 0 && AllDigits(s) then Some(DigitsValue(s))
    else None
  }

  lemma {:induction false} DigitsRoundTrip(n: nat)
    ensures DigitsValue(NatToDigits(n)) == n
    decreases n
  {
    if n >= 10 {
      var s := NatToDigits(n);
      DigitsRoundTrip(n / 10);
      assert s[..|s| - 1] == NatToDigits(n / 10);
      assert DigitValue(s[|s| - 1]) == n % 10;
    }
  }

  /** The rendering of every integer reads back as that integer, so distinct
      integers render differently. */
  lemma IntToStringRoundTrip(n: int)
    ensures ParseInteger(IntToString(n)) == Some(n)
  {
    if n < 0 {
      DigitsRoundTrip(-n);
      assert IntToString(n)[1..] == NatToDigits(-n);
    } else {
      DigitsRoundTrip(n);
    }
  }

  lemma IntToStringInjective(m: int, n: int)
    ensures IntToString(m) == IntToString(n) <==> m == n
  {
    IntToStringRoundTrip(m);
    IntToStringRoundTrip(n);
  }
}
