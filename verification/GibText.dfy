/** Traffic amounts as text (hy2panel/budgets.py): byte counts are shown and entered as decimal
    numbers of GiB. */
module GibText {
  import opened Decimals
  import opened Wrappers

  const GIB: nat := 1024 * 1024 * 1024
  const MAX_SQLITE_INTEGER: nat := 0x7FFF_FFFF_FFFF_FFFF
  const PLACES: nat := 12

  datatype Refusal = WrongFormat | OutOfRange

  /** A nonnegative quotient rounded half up. */
  function HalfUp(n: nat, d: nat): (q: nat)
    requires d > 0
  {
    (2 * n + d) / (2 * d)
  }

  /** The place of the first point, or the length. */
  function Point(s: string): (k: nat)
    ensures k <= |s|
  {
    if s == "" || s[0] == '.' then 0 else 1 + Point(s[1..])
  }

  function Whole(raw: string): string {
    raw[..Point(raw)]
  }

  /** What follows the point; empty if there is none. */
  function Fraction(raw: string): string {
    if Point(raw) < |raw| then raw[Point(raw) + 1..] else ""
  }

  /** (?:0|[1-9][0-9]{0,9})(?:\.[0-9]{1,12})? */
  predicate Matches(raw: string) {
    var whole, fraction := Whole(raw), Fraction(raw);
    && AllDigits(whole) && 1 <= |whole| <= 10 && (whole[0] == '0' ==> |whole| == 1)
    && (Point(raw) < |raw| ==> AllDigits(fraction) && 1 <= |fraction| <= 12)
  }

  /** Python's whitespace, which strip() removes at both ends. */
  predicate Blank(c: char) {
    var code := c as int;
    || 9 <= code <= 13 || 28 <= code <= 32 || code == 0x85 || code == 0xA0 || code == 0x1680
    || 0x2000 <= code <= 0x200A || code == 0x2028 || code == 0x2029 || code == 0x202F || code == 0x205F || code == 0x3000
  }

  function Strip(s: string): string {
    if s != "" && Blank(s[0]) then Strip(s[1..])
    else if s != "" && Blank(s[|s| - 1]) then Strip(s[..|s| - 1])
    else s
  }

  /** The number that the digits of a text make, in units of the last place. */
  function NumberRead(text: string): nat
    requires AllDigits(Whole(text)) && AllDigits(Fraction(text))
  {
    Number(Whole(text)) * Pow10(|Fraction(text)|) + Number(Fraction(text))
  }

  function GibInputToBytes(value: string): Result<nat, Refusal> {
    var raw := Strip(value);
    if !Matches(raw) then Failure(WrongFormat)
    else
      var bytes := HalfUp(NumberRead(raw) * GIB, Pow10(|Fraction(raw)|));
      if bytes > MAX_SQLITE_INTEGER then Failure(OutOfRange) else Success(bytes)
  }

  /** rstrip of one character. */
  function RStrip(s: string, c: char): string {
    if s != "" && s[|s| - 1] == c then RStrip(s[..|s| - 1], c) else s
  }

  /** bytes / GIB, quantized to twelve places. */
  function Units(bytes: nat): nat {
    HalfUp(bytes * Pow10(PLACES), GIB)
  }

  function WholeUnits(units: nat): nat {
    units / Pow10(PLACES)
  }

  /** A count of units of 10^-12, as format(..., "f") writes it. */
  function Fixed(units: nat): string {
    Decimal(WholeUnits(units)) + "." + DigitText(units % Pow10(PLACES), PLACES)
  }

  function BytesToGibInput(value: int): string {
    var bytes := if value > 0 then value else 0;
    var text := RStrip(RStrip(Fixed(Units(bytes)), '0'), '.');
    if text == "" then "0" else text
  }

  // What is printed.

  /** Stripping removes a run of the character from the end, and nothing else. */
  lemma {:induction false} RStripSplits(s: string, c: char) returns (n: nat)
    ensures s == RStrip(s, c) + seq(n, i => c)
    ensures RStrip(s, c) != "" ==> RStrip(s, c)[|RStrip(s, c)| - 1] != c
  {
    if s != "" && s[|s| - 1] == c {
      n := RStripSplits(s[..|s| - 1], c);
      assert s == s[..|s| - 1] + [c];
      n := n + 1;
    } else {
      n := 0;
    }
  }

  /** Stripping stops at a part that ends in another character. */
  lemma {:induction false} RStripStops(x: string, y: string, c: char)
    requires x != "" && x[|x| - 1] != c
    ensures RStrip(x + y, c) == x + RStrip(y, c)
  {
    if y == "" {
      assert x + y == x;
    } else if y[|y| - 1] == c {
      RStripStops(x, y[..|y| - 1], c);
      assert (x + y)[..|x + y| - 1] == x + y[..|y| - 1];
    }
  }

  /** Trailing zeros scale a number. */
  lemma {:induction false} Zeros(text: string, n: nat)
    requires AllDigits(text)
    ensures AllDigits(text + seq(n, i => '0'))
    ensures Number(text + seq(n, i => '0')) == Number(text) * Pow10(n)
  {
    hide Number, AllDigits, Digit, DigitValue;
    if n == 0 {
      assert text + seq(0, i => '0') == text;
    } else {
      var before := text + seq(n - 1, i => '0');
      Zeros(text, n - 1);
      DigitBack(0);
      NumberLast(before, '0');
      assert text + seq(n, i => '0') == before + ['0'];
      assert 10 * (Number(text) * Pow10(n - 1)) == Number(text) * Pow10(n);
    }
  }

  lemma {:induction false} Powers(m: nat, n: nat)
    ensures Pow10(m + n) == Pow10(m) * Pow10(n)
  {
    if m > 0 { Powers(m - 1, n); }
  }

  /** The fraction that remains when the zeros are stripped. */
  function Shown(units: nat): string {
    RStrip(DigitText(units % Pow10(PLACES), PLACES), '0')
  }

  lemma ShownMeans(units: nat)
    ensures AllDigits(Shown(units)) && |Shown(units)| <= PLACES
    ensures Number(Shown(units)) * Pow10(PLACES - |Shown(units)|) == units % Pow10(PLACES)
    ensures Pow10(|Shown(units)|) * Pow10(PLACES - |Shown(units)|) == Pow10(PLACES)
    ensures Shown(units) != "" ==> Digit(Shown(units)[|Shown(units)| - 1]) && Shown(units)[|Shown(units)| - 1] != '0'
  {
    var v := units % Pow10(PLACES);
    PaddedReads(v, PLACES);
    var n := RStripSplits(DigitText(v, PLACES), '0');
    var shown := Shown(units);
    assert forall i :: 0 <= i < |shown| ==> shown[i] == DigitText(v, PLACES)[i];
    assert n == PLACES - |shown|;
    Zeros(shown, n);
    Powers(|shown|, n);
  }

  lemma DecimalEnds(n: nat, c: char)
    requires !Digit(c)
    ensures Decimal(n)[|Decimal(n)| - 1] != c
  {
    DecimalReads(n);
  }

  /** The text is the whole part and, after a point, the fraction without its zeros. */
  lemma Printed(value: nat)
    ensures var units := Units(value);
            BytesToGibInput(value) ==
              Decimal(WholeUnits(units)) + (if Shown(units) == "" then "" else "." + Shown(units))
  {
    hide HalfUp, Units, WholeUnits, Pow10, Decimal, DigitText;
    var units := Units(value);
    var whole, shown := Decimal(WholeUnits(units)), Shown(units);
    ShownMeans(units);
    RStripStops(whole + ".", DigitText(units % Pow10(PLACES), PLACES), '0');
    DecimalEnds(WholeUnits(units), '.');
    if shown == "" {
      assert whole + "." + "" == whole + ".";
      RStripStops(whole, ".", '.');
      assert RStrip(".", '.') == RStrip("", '.') by { assert "."[..0] == ""; }
    }
  }

  // What is read.

  lemma {:induction false} PointAt(whole: string, rest: string)
    requires AllDigits(whole) && (rest == "" || rest[0] == '.')
    ensures Point(whole + rest) == |whole|
  {
    if whole == "" {
      assert whole + rest == rest;
    } else {
      PointAt(whole[1..], rest);
      assert (whole + rest)[1..] == whole[1..] + rest;
    }
  }

  lemma NotBlank(s: string)
    requires s != "" && Digit(s[0]) && Digit(s[|s| - 1])
    ensures Strip(s) == s
  {
  }

  /** n / d rounds to q: the difference is more than -1/2 and at most 1/2. */
  predicate Rounds(n: nat, d: nat, q: nat) {
    0 < 2 * (q * d - n) + d <= 2 * d
  }

  lemma HalfUpNear(n: nat, d: nat)
    requires d > 0
    ensures Rounds(n, d, HalfUp(n, d))
  {
    var q := (2 * n + d) / (2 * d);
    assert 2 * n + d == q * (2 * d) + (2 * n + d) % (2 * d);
    assert q * (2 * d) == 2 * (q * d);
  }

  lemma Scaled(a: int, b: int, e: nat)
    requires a <= b
    ensures a * e <= b * e
  {
    assert (b - a) * e >= 0;
  }

  lemma HalfUpOnly(n: nat, d: nat, q: nat)
    requires d > 0 && Rounds(n, d, q)
    ensures HalfUp(n, d) == q
  {
    hide HalfUp;
    HalfUpNear(n, d);
    var p := HalfUp(n, d);
    if p < q {
      Scaled(p + 1, q, d);
    } else if p > q {
      Scaled(q + 1, p, d);
    }
  }

  lemma Constants()
    ensures Pow10(PLACES) == 1_000_000_000_000 && Pow10(10) == 10_000_000_000
    ensures GIB == 1_073_741_824 && MAX_SQLITE_INTEGER == 8_589_934_592 * GIB - 1
  {
    assert Pow10(4) == 10_000 && Pow10(8) == 100_000_000;
  }

  /** The text that is printed has the accepted form. */
  lemma PrintedMatches(value: nat)
    requires value <= MAX_SQLITE_INTEGER
    ensures var units := Units(value);
            var text := BytesToGibInput(value);
            && Matches(text) && Strip(text) == text
            && Whole(text) == Decimal(WholeUnits(units)) && Fraction(text) == Shown(units)
  {
    var units := Units(value);
    hide HalfUp, Units, WholeUnits, Pow10, Decimal, BytesToGibInput, Shown, Matches, Whole, Fraction, Strip;
    WholeFits(value);
    Printed(value);
    ShownMeans(units);
    DecimalReads(WholeUnits(units));
    Parts(Decimal(WholeUnits(units)), Shown(units));
  }

  lemma Parts(whole: string, fraction: string)
    requires AllDigits(whole) && 1 <= |whole| <= 10 && (whole[0] == '0' ==> |whole| == 1)
    requires AllDigits(fraction) && |fraction| <= 12
    ensures var text := whole + (if fraction == "" then "" else "." + fraction);
            Matches(text) && Strip(text) == text && Whole(text) == whole && Fraction(text) == fraction
  {
    hide Point, Strip;
    var rest := if fraction == "" then "" else "." + fraction;
    var text := whole + rest;
    PointAt(whole, rest);
    assert text[..|whole|] == whole && text[0] == whole[0];
    assert fraction != "" ==> text[|whole| + 1..] == fraction && text[|text| - 1] == fraction[|fraction| - 1];
    assert fraction == "" ==> text[|text| - 1] == whole[|whole| - 1];
    NotBlank(text);
  }

  lemma WholeFits(value: nat)
    requires value <= MAX_SQLITE_INTEGER
    ensures var whole := Decimal(WholeUnits(Units(value)));
            |whole| <= 10 && (whole[0] == '0' ==> |whole| == 1)
  {
    hide HalfUp, Pow10, Decimal;
    Constants();
    var units := Units(value);
    HalfUpNear(value * Pow10(PLACES), GIB);
    DecimalBound(WholeUnits(units), 10);
    DecimalReads(WholeUnits(units));
  }

  /** Both roundings together lose nothing: the printed number of GiB is closer to the byte count
      than half a byte. */
  lemma RoundsBack(value: nat, units: nat, number: nat, d: nat, e: nat)
    requires d > 0 && e > 0 && d * e == Pow10(PLACES) && number * e == units
    requires units == Units(value)
    ensures HalfUp(number * GIB, d) == value
  {
    hide HalfUp, Pow10;
    Constants();
    HalfUpNear(value * Pow10(PLACES), GIB);
    var x := value * d - number * GIB;
    assert x * e == value * (d * e) - (number * e) * GIB;
    Cancel(2 * x, d, e);
    HalfUpOnly(number * GIB, d, value);
  }

  lemma Cancel(x: int, d: nat, e: nat)
    requires e > 0 && 0 < x * e + d * e < 2 * (d * e)
    ensures 0 < x + d < 2 * d
  {
    if x >= d {
      Scaled(d, x, e);
    } else if x <= -(d as int) {
      Scaled(x, -(d as int), e);
    }
  }

  lemma Recombine(units: nat, ten: nat, d: nat, e: nat, fraction: nat)
    requires ten > 0 && d * e == ten && fraction * e == units % ten
    ensures (units / ten * d + fraction) * e == units
  {
    var q := units / ten;
    assert (q * d + fraction) * e == q * (d * e) + fraction * e;
    assert units == q * ten + units % ten;
  }

  /** GiB text round trip: every byte count the database can hold is printed in the accepted form
      and read back exactly. */
  lemma GibRoundTrip(value: nat)
    requires value <= MAX_SQLITE_INTEGER
    ensures GibInputToBytes(BytesToGibInput(value)) == Success(value)
  {
    var text := BytesToGibInput(value);
    hide HalfUp, Pow10, Units, WholeUnits, Decimal, BytesToGibInput, GibInputToBytes, Shown, Number, Strip, Matches, Whole,
         Fraction;
    PrintedMatches(value);
    ShownMeans(Units(value));
    DecimalReads(WholeUnits(Units(value)));
    assert NumberRead(text) == NumberShown(Units(value));
    ShownRoundsBack(value);
    ReadsAs(text, value);
  }

  function NumberShown(units: nat): nat
    requires AllDigits(Shown(units))
  {
    WholeUnits(units) * Pow10(|Shown(units)|) + Number(Shown(units))
  }

  lemma ShownRoundsBack(value: nat)
    requires AllDigits(Shown(Units(value)))
    ensures HalfUp(NumberShown(Units(value)) * GIB, Pow10(|Shown(Units(value))|)) == value
  {
    hide HalfUp, Pow10, Units, Shown, Number, NumberShown;
    var units := Units(value);
    ShownMeans(units);
    NumberOfUnits(units);
    RoundsBack(value, units, NumberShown(units), Pow10(|Shown(units)|), Pow10(PLACES - |Shown(units)|));
  }

  lemma NumberOfUnits(units: nat)
    requires AllDigits(Shown(units)) && |Shown(units)| <= PLACES
    ensures NumberShown(units) * Pow10(PLACES - |Shown(units)|) == units
  {
    hide Pow10, Shown, Number;
    ShownMeans(units);
    Recombine(units, Pow10(PLACES), Pow10(|Shown(units)|), Pow10(PLACES - |Shown(units)|), Number(Shown(units)));
  }

  lemma ReadsAs(text: string, value: nat)
    requires Matches(text) && Strip(text) == text && value <= MAX_SQLITE_INTEGER
    requires AllDigits(Whole(text)) && AllDigits(Fraction(text))
    requires HalfUp(NumberRead(text) * GIB, Pow10(|Fraction(text)|)) == value
    ensures GibInputToBytes(text) == Success(value)
  {
    hide HalfUp, Pow10, Number, Strip;
  }

  /** Whatever is accepted is within the range, and is within half a byte of the number read. */
  lemma ReadMeans(value: string)
    requires GibInputToBytes(value).Success?
    ensures var raw, bytes := Strip(value), GibInputToBytes(value).value;
            && Matches(raw) && bytes <= MAX_SQLITE_INTEGER
            && Rounds(NumberRead(raw) * GIB, Pow10(|Fraction(raw)|), bytes)
  {
    hide HalfUp, Strip;
    var raw := Strip(value);
    HalfUpNear(NumberRead(raw) * GIB, Pow10(|Fraction(raw)|));
  }

  /** Negative counts are shown as none. */
  lemma NegativeShownAsNone(value: int)
    requires value <= 0
    ensures GibInputToBytes(BytesToGibInput(value)) == Success(0)
  {
    GibRoundTrip(0);
  }
}
