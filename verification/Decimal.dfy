/** Decimal text of numbers, as ostringstream writes it and istringstream reads it. */
module Decimal {

  predicate IsDigit(c: char) {
    '0' <= c <= '9'
  }

  predicate AllDigits(s: string) {
    forall i :: 0 <= i < |s| ==> IsDigit(s[i])
  }

  function DigitChar(d: nat): (c: char)
    requires d < 10
    ensures IsDigit(c)
  {
    ('0' as int + d) as char
  }

  function DigitValue(c: char): (d: nat)
    requires IsDigit(c)
    ensures d < 10
  {
    c as int - '0' as int
  }

  function Digits(n: nat): (s: string)
    ensures |s| > 0 && AllDigits(s)
  {
    if n < 10 then [DigitChar(n)] else Digits(n / 10) + [DigitChar(n % 10)]
  }

  /** The value of the digits at the front of the text. */
  function Number(s: string): nat {
    ValueOf(s[..Span(s)])
  }

  /** How many digits the text starts with. */
  function Span(s: string): (n: nat)
    ensures n <= |s| && AllDigits(s[..n]) && (n < |s| ==> !IsDigit(s[n]))
  {
    if s == [] || !IsDigit(s[0]) then 0
    else
      var n := Span(s[1..]);
      assert s[..n + 1] == [s[0]] + s[1..][..n];
      n + 1
  }

  function ValueOf(s: string): nat
    requires AllDigits(s)
  {
    if s == [] then 0 else 10 * ValueOf(s[..|s| - 1]) + DigitValue(s[|s| - 1])
  }

  lemma {:induction false} ValueOfDigits(n: nat)
    ensures ValueOf(Digits(n)) == n
    decreases n
  {
    if n >= 10 {
      ValueOfDigits(n / 10);
      assert Digits(n)[..|Digits(n)| - 1] == Digits(n / 10);
    }
  }

  lemma {:induction false} SpanOf(s: string, tail: string)
    requires AllDigits(s) && (tail != [] ==> !IsDigit(tail[0]))
    ensures Span(s + tail) == |s|
    decreases |s|
  {
    if s == [] {
      assert s + tail == tail;
    } else {
      SpanOf(s[1..], tail);
      assert (s + tail)[1..] == s[1..] + tail;
    }
  }

  /** A written number is read back, whatever text follows it. */
  lemma NumberOfDigits(n: nat, tail: string)
    requires tail != [] ==> !IsDigit(tail[0])
    ensures Number(Digits(n) + tail) == n
  {
    SpanOf(Digits(n), tail);
    ValueOfDigits(n);
    assert (Digits(n) + tail)[..|Digits(n)|] == Digits(n);
  }

  lemma DigitsDistinct(m: nat, n: nat)
    requires Digits(m) == Digits(n)
    ensures m == n
  {
    ValueOfDigits(m);
    ValueOfDigits(n);
  }

  /** The number of decimal digits. */
  lemma {:induction false} DigitsLength(n: nat, k: nat)
    requires 0 < k && n < Pow10(k)
    ensures |Digits(n)| <= k
    ensures n >= Pow10(k - 1) ==> |Digits(n)| == k
    decreases k
  {
    if n >= 10 {
      assert k > 1;
      DigitsLength(n / 10, k - 1);
    }
  }

  function Pow10(k: nat): (p: nat)
    ensures p > 0
  {
    if k == 0 then 1 else 10 * Pow10(k - 1)
  }
}
