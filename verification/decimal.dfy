/**
  The decimal text that `Integer.toString` and `Long.toString` produce: an
  optional minus sign followed by the digits of the magnitude, with no
  leading zeros. Its partner is the parser `ParseDecimal`, and the round
  trip between the two shows that the text identifies the number.
 */
module Decimal {

  predicate IsDigit(c: char) {
    '0' <= c <= '9'
  }

  predicate AllDigits(s: string) {
    forall k :: 0 <= k < |s| ==> IsDigit(s[k])
  }

  function DigitValue(c: char): (d: nat)
    requires IsDigit(c)
    ensures d < 10
  {
    c as int - '0' as int
  }

  function DigitChar(d: nat): (c: char)
    requires d < 10
    ensures IsDigit(c) && DigitValue(c) == d
  {
    ('0' as int + d) as char
  }

  /** Digits of `n`, most significant first, without leading zeros. */
  function NatText(n: nat): (s: string)
    ensures 1 <= |s| && AllDigits(s)
    ensures s[0] == '0' <==> n == 0
    ensures n == 0 ==> s == "0"
    decreases n
  {
    if n < 10 then [DigitChar(n)] else NatText(n / 10) + [DigitChar(n % 10)]
  }

  /** The value of a string of digits, read most significant first. */
  function ParseNat(s: string): nat
    requires AllDigits(s)
    decreases |s|
  {
    if s == [] then 0
    else
      ParseNat(s[..|s| - 1]) * 10 + DigitValue(s[|s| - 1])
  }

  lemma {:induction false} ParseNatText(n: nat)
    ensures ParseNat(NatText(n)) == n
    decreases n
  {
    if n >= 10 {
      var s := NatText(n);
      assert s[..|s| - 1] == NatText(n / 10);
      ParseNatText(n / 10);
    }
  }

  /** What `Integer.toString(i)` / `Long.toString(i)` return. */
  function DecimalText(i: int): (s: string)
    ensures 1 <= |s|
    ensures s[0] == '-' <==> i < 0
    ensures i < 0 ==> 2 <= |s| && AllDigits(s[1..]) && s[1] != '0'
    ensures 0 <= i ==> AllDigits(s) && (s[0] == '0' <==> i == 0)
    ensures i == 0 ==> s == "0"
  {
    if i < 0 then "-" + NatText(-i) else NatText(i)
  }

  /** Decimal text: an optional minus sign followed by digits. */
  predicate IsDecimalText(s: string) {
    if 1 <= |s| && s[0] == '-' then 2 <= |s| && AllDigits(s[1..])
    else 1 <= |s| && AllDigits(s)
  }

  /** The decimal text `toString` writes: no leading zero, and no "-0". */
  predicate IsCanonicalText(s: string) {
    IsDecimalText(s)
    && (s[0] == '-' ==> s[1] != '0')
    && (s[0] == '0' ==> s == "0")
  }

  function ParseDecimal(s: string): int
    requires IsDecimalText(s)
  {
    if s[0] == '-' then -(ParseNat(s[1..]) as int) else ParseNat(s)
  }

  /** Reading back the text of `i` gives `i`. */
  lemma {:induction false} DecimalRoundTrip(i: int)
    ensures IsDecimalText(DecimalText(i))
    ensures IsCanonicalText(DecimalText(i))
    ensures ParseDecimal(DecimalText(i)) == i
  {
    var s := DecimalText(i);
    if i < 0 {
      assert s[1..] == NatText(-i);
      ParseNatText(-i);
    } else {
      ParseNatText(i);
    }
  }

  /** Different numbers never print the same. */
  lemma DecimalTextInjective(i: int, j: int)
    ensures DecimalText(i) == DecimalText(j) <==> i == j
  {
    DecimalRoundTrip(i);
    DecimalRoundTrip(j);
  }
}
