/** Decimal numerals, as Python's int() and str() read and write them. */
module Decimals {

  predicate Digit(c: char) {
    '0' <= c <= '9'
  }

  predicate AllDigits(text: string) {
    forall i :: 0 <= i < |text| ==> Digit(text[i])
  }

  function DigitValue(c: char): nat
    requires Digit(c)
  {
    (c as int) - ('0' as int)
  }

  /** int() of a string of digits. */
  function Number(text: string): nat
    requires AllDigits(text)
  {
    if text == "" then 0 else 10 * Number(text[..|text| - 1]) + DigitValue(text[|text| - 1])
  }

  function DigitText(v: nat, n: nat): string {
    if n == 0 then "" else DigitText(v / 10, n - 1) + [(('0' as int) + v % 10) as char]
  }

  function Pow10(n: nat): (p: nat)
    ensures p >= 1
  {
    if n == 0 then 1 else 10 * Pow10(n - 1)
  }

  function Decimal(n: nat): (text: string)
    ensures |text| >= 1
  {
    (if n < 10 then "" else Decimal(n / 10)) + [(('0' as int) + n % 10) as char]
  }

  lemma {:induction false} NumberText(text: string)
    requires AllDigits(text)
    ensures Number(text) < Pow10(|text|) && DigitText(Number(text), |text|) == text
  {
    if text != "" {
      var n := |text| - 1;
      NumberText(text[..n]);
      LastDigit(Number(text[..n]), n, text[n]);
      assert text == text[..n] + [text[n]];
    }
  }

  lemma LastDigit(v: nat, n: nat, c: char)
    requires Digit(c) && v < Pow10(n)
    ensures 10 * v + DigitValue(c) < Pow10(n + 1)
    ensures DigitText(10 * v + DigitValue(c), n + 1) == DigitText(v, n) + [c]
  {
    assert ((('0' as int) + DigitValue(c)) as char) == c;
  }

  lemma {:induction false} DecimalBound(n: nat, k: nat)
    requires k >= 1 && n < Pow10(k)
    ensures |Decimal(n)| <= k
  {
    if n >= 10 { DecimalBound(n / 10, k - 1); }
  }

  lemma NumberLast(front: string, c: char)
    requires AllDigits(front) && Digit(c)
    ensures AllDigits(front + [c]) && Number(front + [c]) == 10 * Number(front) + DigitValue(c)
  {
    assert (front + [c])[..|front|] == front;
  }

  lemma DigitBack(d: nat)
    requires d < 10
    ensures var c := (('0' as int) + d) as char; Digit(c) && DigitValue(c) == d && (c == '0' <==> d == 0)
  {
  }

  lemma NoDigits()
    ensures AllDigits("") && Number("") == 0
  {
  }

  /** int() undoes str(), and str() writes no leading zero. */
  lemma {:induction false} DecimalReads(n: nat)
    ensures AllDigits(Decimal(n)) && Number(Decimal(n)) == n
    ensures Decimal(n)[0] == '0' ==> n == 0 && |Decimal(n)| == 1
  {
    hide Number, DigitValue, Digit, AllDigits;
    var last := (('0' as int) + n % 10) as char;
    DigitBack(n % 10);
    if n >= 10 {
      DecimalReads(n / 10);
      NumberLast(Decimal(n / 10), last);
    } else {
      NoDigits();
      NumberLast("", last);
      assert "" + [last] == [last];
    }
  }

  /** int() undoes zero-padded writing in n digits. */
  lemma {:induction false} PaddedReads(v: nat, n: nat)
    requires v < Pow10(n)
    ensures |DigitText(v, n)| == n && AllDigits(DigitText(v, n)) && Number(DigitText(v, n)) == v
  {
    if n > 0 {
      PaddedReads(v / 10, n - 1);
      assert DigitText(v, n)[..n - 1] == DigitText(v / 10, n - 1);
    }
  }
}
