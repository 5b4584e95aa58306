/**
 Decimal text of integers as QString::number(int) writes it (base 10,
 a leading '-' for negative values, no padding), a reader for such text,
 and the truncating cast to a 32-bit `int`.
 */
module Decimal {

  predicate IsDigit(ch: char) {
    '0' <= ch <= '9'
  }

  predicate AllDigits(s: string) {
    forall j :: 0 <= j < |s| ==> IsDigit(s[j])
  }

  function DigitChar(d: nat): (ch: char)
    requires d < 10
    ensures IsDigit(ch)
  {
    "0123456789"[d]
  }

  function DigitValue(ch: char): (d: nat)
    requires IsDigit(ch)
    ensures d < 10
    ensures DigitChar(d) == ch
  {
    (ch as int - '0' as int) as nat
  }

  /** The base-10 digits of `n`, most significant first, without leading zeros. */
  function NatText(n: nat): (s: string)
    ensures |s| >= 1
    ensures AllDigits(s)
    ensures s[0] == '0' ==> n == 0
    decreases n
  {
    if n < 10 then [DigitChar(n)] else NatText(n / 10) + [DigitChar(n % 10)]
  }

  /** The text QString::number(int) produces for `n`. */
  function IntText(n: int): (s: string)
    ensures IsIntText(s)
    ensures n >= 0 ==> AllDigits(s)
    ensures n < 0 ==> s[0] == '-' && AllDigits(s[1..])
  {
    if n >= 0 then NatText(n) else "-" + NatText(-n)
  }

  /** The value of a string of digits. */
  function ParseNat(s: string): nat
    requires AllDigits(s)
    decreases |s|
  {
    if |s| == 0 then 0
    else ParseNat(s[..|s| - 1]) * 10 + DigitValue(s[|s| - 1])
  }

  /** Text of the form IntText produces: digits, possibly after one '-'. */
  predicate IsIntText(s: string) {
    |s| >= 1 && (AllDigits(s) || (s[0] == '-' && AllDigits(s[1..])))
  }

  /** The value of an optionally negated string of digits. */
  function ParseInt(s: string): int
    requires IsIntText(s)
  {
    if s[0] == '-' then 0 - ParseNat(s[1..]) else ParseNat(s)
  }

  lemma {:induction false} NatTextRoundTrip(n: nat)
    ensures ParseNat(NatText(n)) == n
    decreases n
  {
    if n >= 10 {
      var s := NatText(n);
      NatTextRoundTrip(n / 10);
      assert s[..|s| - 1] == NatText(n / 10);
      assert DigitValue(s[|s| - 1]) == n % 10;
    }
  }

  /** Reading back the text of any integer gives the integer. */
  lemma IntTextRoundTrip(n: int)
    ensures ParseInt(IntText(n)) == n
  {
    if n >= 0 {
      NatTextRoundTrip(n);
      var s := IntText(n);
      assert s[0] != '-';
    } else {
      NatTextRoundTrip(-n);
      assert IntText(n)[1..] == NatText(-n);
    }
  }

  /** Distinct integers have distinct texts. */
  lemma IntTextInjective(a: int, b: int)
    requires IntText(a) == IntText(b)
    ensures a == b
  {
    IntTextRoundTrip(a);
    IntTextRoundTrip(b);
  }

  const TwoTo32: int := 0x1_0000_0000
  const TwoTo31: int := 0x8000_0000

  /**
   The C++ cast `(int)w` of an unsigned window handle: the value modulo
   2^32, read as a two's-complement 32-bit number.
   */
  function Int32Of(w: nat): (r: int)
    ensures -TwoTo31 <= r < TwoTo31
    ensures (r - w) % TwoTo32 == 0
    ensures w < TwoTo31 ==> r == w
  {
    var m := w % TwoTo32;
    if m >= TwoTo31 then m - TwoTo32 else m
  }
}
