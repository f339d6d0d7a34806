/** The segment bit stream of a QR code (section 7.4 of ISO/IEC 18004:2015): how qrcodegen.py
    writes segments, and the reader that the standard describes. */
module QrSegments {
  import opened Bits
  import opened BitStream
  import opened Decimals
  import opened Wrappers

  datatype Mode = Numeric | Alphanumeric | ByteMode | Kanji | Eci

  datatype Segment = Segment(mode: Mode, count: nat, bits: seq<bool>)

  /** What a segment says. */
  datatype Content = Digits(text: string) | Letters(text: string) | Raw(data: seq<Byte>) | Designator(value: nat)

  function ModeBits(mode: Mode): nat {
    match mode
    case Numeric => 1
    case Alphanumeric => 2
    case ByteMode => 4
    case Kanji => 8
    case Eci => 7
  }

  /** The width of the character count field: three ranges of versions. */
  function CountBits(mode: Mode, version: nat): nat
    requires 1 <= version <= 40
  {
    var range := (version + 7) / 17;
    match mode
    case Numeric => if range == 0 then 10 else if range == 1 then 12 else 14
    case Alphanumeric => if range == 0 then 9 else if range == 1 then 11 else 13
    case ByteMode => if range == 0 then 8 else 16
    case Kanji => if range == 0 then 8 else if range == 1 then 10 else 12
    case Eci => 0
  }

  // Writing.

  function Alphabet(): (letters: string)
    ensures |letters| == 45
  {
    "0123456789ABCDEFGHIJKLMNOPQRSTUVWXYZ $%*+-./:"
  }

  predicate Letter(c: char) {
    exists i :: 0 <= i < |Alphabet()| && Alphabet()[i] == c
  }

  predicate AllLetters(text: string) {
    forall i :: 0 <= i < |text| ==> Letter(text[i])
  }

  /** The encoding table: a letter's place in the alphabet. */
  function Place(c: char): (i: nat)
    requires Letter(c)
    ensures i < 45 && Alphabet()[i] == c
  {
    PlaceFrom(c, 0)
  }

  function PlaceFrom(c: char, k: nat): (i: nat)
    requires exists i :: k <= i < |Alphabet()| && Alphabet()[i] == c
    ensures i < 45 && Alphabet()[i] == c
    decreases |Alphabet()| - k
  {
    if Alphabet()[k] == c then k else PlaceFrom(c, k + 1)
  }

  function Chunk(n: nat): nat {
    if n < 3 then n else 3
  }

  function NumericBits(text: string): seq<bool>
    requires AllDigits(text)
  {
    if text == "" then []
    else
      var n := Chunk(|text|);
      ToBits(Number(text[..n]), 3 * n + 1) + NumericBits(text[n..])
  }

  function LetterBits(text: string): seq<bool>
    requires AllLetters(text)
  {
    if text == "" then []
    else if |text| == 1 then ToBits(Place(text[0]), 6)
    else ToBits(Place(text[0]) * 45 + Place(text[1]), 11) + LetterBits(text[2..])
  }

  function RawBits(data: seq<Byte>): seq<bool> {
    if data == [] then [] else ToBits(data[0], 8) + RawBits(data[1..])
  }

  function DesignatorBits(value: nat): seq<bool> {
    if value < 128 then ToBits(value, 8)
    else if value < 16384 then ToBits(2, 2) + ToBits(value, 14)
    else ToBits(6, 3) + ToBits(value, 21)
  }

  /** What make_numeric, make_alphanumeric, make_bytes and make_eci accept. */
  predicate Encodable(c: Content) {
    match c
    case Digits(text) => AllDigits(text)
    case Letters(text) => AllLetters(text)
    case Raw(data) => true
    case Designator(value) => value < 1000000
  }

  function Encode(c: Content): Segment
    requires Encodable(c)
  {
    match c
    case Digits(text) => Segment(Numeric, |text|, NumericBits(text))
    case Letters(text) => Segment(Alphanumeric, |text|, LetterBits(text))
    case Raw(data) => Segment(ByteMode, |data|, RawBits(data))
    case Designator(value) => Segment(Eci, 0, DesignatorBits(value))
  }

  /** The bit string that the constructor concatenates. */
  function Stream(segs: seq<Segment>, version: nat): seq<bool>
    requires 1 <= version <= 40
  {
    if segs == [] then []
    else
      ToBits(ModeBits(segs[0].mode), 4) + ToBits(segs[0].count, CountBits(segs[0].mode, version)) + segs[0].bits
      + Stream(segs[1..], version)
  }

  // Reading.

  function Value(bits: seq<bool>, n: nat): nat
    requires n <= |bits|
  {
    FromBits(bits[..n])
  }

  datatype Parsed = Parsed(content: Content, rest: seq<bool>)

  function ReadDigits(bits: seq<bool>, count: nat): Option<(string, seq<bool>)>
    decreases count
  {
    if count == 0 then Some(("", bits))
    else
      var n := Chunk(count);
      if |bits| < 3 * n + 1 || Value(bits, 3 * n + 1) >= Pow10(n) then None
      else
        var tail := ReadDigits(bits[3 * n + 1..], count - n);
        if tail.None? then None else Some((DigitText(Value(bits, 3 * n + 1), n) + tail.value.0, tail.value.1))
  }

  function ReadLetters(bits: seq<bool>, count: nat): Option<(string, seq<bool>)>
    decreases count
  {
    if count == 0 then Some(("", bits))
    else if count == 1 then
      if |bits| < 6 || Value(bits, 6) >= 45 then None else Some(([Alphabet()[Value(bits, 6)]], bits[6..]))
    else if |bits| < 11 || Value(bits, 11) >= 45 * 45 then None
    else
      var v := Value(bits, 11);
      var tail := ReadLetters(bits[11..], count - 2);
      if tail.None? then None else Some(([Alphabet()[v / 45], Alphabet()[v % 45]] + tail.value.0, tail.value.1))
  }

  function ReadRaw(bits: seq<bool>, count: nat): Option<(seq<Byte>, seq<bool>)>
    decreases count
  {
    if count == 0 then Some(([], bits))
    else if |bits| < 8 then None
    else
      ByteFits(bits[..8]);
      var tail := ReadRaw(bits[8..], count - 1);
      if tail.None? then None else Some(([Value(bits, 8)] + tail.value.0, tail.value.1))
  }

  function ReadDesignator(bits: seq<bool>): Option<(nat, seq<bool>)> {
    if |bits| < 8 then None
    else if !bits[0] then Some((Value(bits, 8), bits[8..]))
    else if !bits[1] then (if |bits| < 16 then None else Some((FromBits(bits[2..16]), bits[16..])))
    else if !bits[2] then (if |bits| < 24 then None else Some((FromBits(bits[3..24]), bits[24..])))
    else None
  }

  function ReadContent(mode: Mode, bits: seq<bool>, count: nat): Option<Parsed> {
    match mode
    case Numeric =>
      var r := ReadDigits(bits, count);
      if r.None? then None else Some(Parsed(Digits(r.value.0), r.value.1))
    case Alphanumeric =>
      var r := ReadLetters(bits, count);
      if r.None? then None else Some(Parsed(Letters(r.value.0), r.value.1))
    case ByteMode =>
      var r := ReadRaw(bits, count);
      if r.None? then None else Some(Parsed(Raw(r.value.0), r.value.1))
    case Eci =>
      var r := ReadDesignator(bits);
      if r.None? then None else Some(Parsed(Designator(r.value.0), r.value.1))
    case Kanji => None
  }

  function ModeOf(v: nat): Option<Mode> {
    if v == 1 then Some(Numeric) else if v == 2 then Some(Alphanumeric) else if v == 4 then Some(ByteMode)
    else if v == 7 then Some(Eci) else if v == 8 then Some(Kanji) else None
  }

  /** Segments until the terminator, or until fewer than four bits are left. */
  function Decode(bits: seq<bool>, version: nat): Option<seq<Content>>
    requires 1 <= version <= 40
    decreases |bits|
  {
    if |bits| < 4 || Value(bits, 4) == 0 then Some([])
    else
      var mode := ModeOf(Value(bits, 4));
      if mode.None? || |bits| < 4 + CountBits(mode.value, version) then None
      else
        var n := CountBits(mode.value, version);
        var first := ReadContent(mode.value, bits[4 + n..], FromBits(bits[4..4 + n]));
        if first.None? || |first.value.rest| >= |bits| then None
        else
          var others := Decode(first.value.rest, version);
          if others.None? then None else Some([first.value.content] + others.value)
  }

  // Reading undoes writing.

  lemma ValueFront(v: nat, n: nat, rest: seq<bool>)
    requires v < Pow2(n)
    ensures Value(ToBits(v, n) + rest, n) == v && (ToBits(v, n) + rest)[n..] == rest
  {
    ValueOfBits(v, n);
    assert (ToBits(v, n) + rest)[..n] == ToBits(v, n);
  }

  lemma Powers()
    ensures Pow10(1) <= Pow2(4) && Pow10(2) <= Pow2(7) && Pow10(3) <= Pow2(10) && 45 <= Pow2(6) && 45 * 45 <= Pow2(11)
  {
    assert Pow2(4) == 16 && Pow2(6) == 64 && Pow2(7) == 128 && Pow2(10) == 1024 && Pow2(11) == 2048;
    assert Pow10(1) == 10 && Pow10(2) == 100 && Pow10(3) == 1000;
  }

  lemma DigitsStep(v: nat, more: seq<bool>, count: nat)
    requires count > 0 && v < Pow10(Chunk(count)) && v < Pow2(3 * Chunk(count) + 1)
    ensures var n := Chunk(count);
            var tail := ReadDigits(more, count - n);
            ReadDigits(ToBits(v, 3 * n + 1) + more, count)
            == if tail.None? then None else Some((DigitText(v, n) + tail.value.0, tail.value.1))
  {
    ValueFront(v, 3 * Chunk(count) + 1, more);
  }

  lemma NumericUnfold(text: string, rest: seq<bool>)
    requires text != "" && AllDigits(text)
    ensures var n := Chunk(|text|);
            NumericBits(text) + rest == ToBits(Number(text[..n]), 3 * n + 1) + (NumericBits(text[n..]) + rest)
  {
    hide ToBits, Number;
  }

  lemma ChunkFits(n: nat)
    requires 1 <= n <= 3
    ensures Pow10(n) <= Pow2(3 * n + 1)
  {
    Powers();
    if n == 1 {} else if n == 2 {} else {}
  }

  lemma {:induction false} DigitsBack(text: string, rest: seq<bool>)
    requires AllDigits(text)
    ensures ReadDigits(NumericBits(text) + rest, |text|) == Some((text, rest))
  {
    if text == "" {
      assert NumericBits(text) + rest == rest;
    } else {
      DigitsBack(text[Chunk(|text|)..], rest);
      DigitsCombine(text, rest);
    }
  }

  lemma DigitsCombine(text: string, rest: seq<bool>)
    requires AllDigits(text) && text != ""
    requires var tail := text[Chunk(|text|)..]; ReadDigits(NumericBits(tail) + rest, |tail|) == Some((tail, rest))
    ensures ReadDigits(NumericBits(text) + rest, |text|) == Some((text, rest))
  {
    hide ReadDigits, Number, DigitText, ToBits, Pow2, Pow10, NumericBits;
    var n := Chunk(|text|);
    var head, tail := text[..n], text[n..];
    NumberText(head);
    ChunkFits(n);
    NumericUnfold(text, rest);
    DigitsStep(Number(head), NumericBits(tail) + rest, |text|);
    assert text == head + tail;
  }

  lemma PairBack(a: nat, b: nat)
    requires a < 45 && b < 45
    ensures a * 45 + b < 45 * 45 && (a * 45 + b) / 45 == a && (a * 45 + b) % 45 == b
  {
  }

  lemma LettersStep(a: nat, b: nat, more: seq<bool>, count: nat)
    requires count >= 2 && a < 45 && b < 45
    ensures var tail := ReadLetters(more, count - 2);
            ReadLetters(ToBits(a * 45 + b, 11) + more, count)
            == if tail.None? then None else Some(([Alphabet()[a], Alphabet()[b]] + tail.value.0, tail.value.1))
  {
    hide Alphabet, Pow2, ToBits, FromBits;
    Powers();
    PairBack(a, b);
    ValueFront(a * 45 + b, 11, more);
  }

  lemma LettersUnfold(text: string, rest: seq<bool>)
    requires |text| >= 2 && AllLetters(text)
    ensures LetterBits(text) + rest
         == ToBits(Place(text[0]) * 45 + Place(text[1]), 11) + (LetterBits(text[2..]) + rest)
  {
    hide ToBits, Letter, Alphabet;
  }

  lemma LastLetter(a: nat, rest: seq<bool>)
    requires a < 45
    ensures ReadLetters(ToBits(a, 6) + rest, 1) == Some(([Alphabet()[a]], rest))
  {
    Powers();
    ValueFront(a, 6, rest);
  }

  lemma {:induction false} LettersBack(text: string, rest: seq<bool>)
    requires AllLetters(text)
    ensures ReadLetters(LetterBits(text) + rest, |text|) == Some((text, rest))
  {
    hide Alphabet, Letter;
    if text == "" {
      assert LetterBits(text) + rest == rest;
    } else if |text| == 1 {
      LastLetter(Place(text[0]), rest);
      assert [Alphabet()[Place(text[0])]] == text;
    } else {
      LettersBack(text[2..], rest);
      LettersCombine(text, rest);
    }
  }

  lemma LettersCombine(text: string, rest: seq<bool>)
    requires AllLetters(text) && |text| >= 2
    requires ReadLetters(LetterBits(text[2..]) + rest, |text| - 2) == Some((text[2..], rest))
    ensures ReadLetters(LetterBits(text) + rest, |text|) == Some((text, rest))
  {
    hide ReadLetters, ToBits, LetterBits, Alphabet, Letter;
    var a, b := Place(text[0]), Place(text[1]);
    LettersUnfold(text, rest);
    LettersStep(a, b, LetterBits(text[2..]) + rest, |text|);
    assert [Alphabet()[a], Alphabet()[b]] + text[2..] == text;
  }

  lemma {:induction false} RawBack(data: seq<Byte>, rest: seq<bool>)
    ensures ReadRaw(RawBits(data) + rest, |data|) == Some((data, rest))
  {
    if data == [] {
      assert RawBits(data) + rest == rest;
    } else {
      assert Pow2(8) == 256;
      assert RawBits(data) + rest == ToBits(data[0], 8) + (RawBits(data[1..]) + rest);
      ValueFront(data[0], 8, RawBits(data[1..]) + rest);
      RawBack(data[1..], rest);
      assert [data[0]] + data[1..] == data;
    }
  }

  lemma DesignatorBack(value: nat, rest: seq<bool>)
    requires value < 1000000
    ensures ReadDesignator(DesignatorBits(value) + rest) == Some((value, rest))
  {
    assert Pow2(8) == 256 && Pow2(14) == 16384 && Pow2(21) == 2097152;
    var bits := DesignatorBits(value) + rest;
    if value < 128 {
      ValueFront(value, 8, rest);
      BitAt(value, 8, 0);
      SmallShift(value);
      assert bits[0] == ToBits(value, 8)[0];
    } else if value < 16384 {
      assert ToBits(2, 2) == [true, false] by { assert ToBits(1, 1) == [true]; }
      assert bits[2..16] == ToBits(value, 14) && bits[16..] == rest;
      ValueOfBits(value, 14);
    } else {
      assert ToBits(6, 3) == [true, true, false] by { assert ToBits(1, 1) == [true] && ToBits(3, 2) == [true, true]; }
      assert bits[3..24] == ToBits(value, 21) && bits[24..] == rest;
      ValueOfBits(value, 21);
    }
  }

  lemma SmallShift(v: nat)
    requires v < 128
    ensures Bit(v, 7) == 0
  {
    assert Pow2(7) == 128;
    ShiftBound(v, 7);
  }

  lemma ContentBack(c: Content, rest: seq<bool>)
    requires Encodable(c)
    ensures ReadContent(Encode(c).mode, Encode(c).bits + rest, Encode(c).count) == Some(Parsed(c, rest))
  {
    match c
    case Digits(text) => DigitsBack(text, rest);
    case Letters(text) => LettersBack(text, rest);
    case Raw(data) => RawBack(data, rest);
    case Designator(value) => DesignatorBack(value, rest);
  }

  /** What may follow the last segment: less than four bits, or a terminator. */
  predicate Ends(tail: seq<bool>) {
    |tail| < 4 || tail[..4] == [false, false, false, false]
  }

  /** The character counts fit their fields. */
  predicate Countable(contents: seq<Content>, version: nat)
    requires 1 <= version <= 40
  {
    forall c :: c in contents ==> Encodable(c) && Encode(c).count < Pow2(CountBits(Encode(c).mode, version))
  }

  function EncodeAll(contents: seq<Content>): seq<Segment>
    requires forall c :: c in contents ==> Encodable(c)
  {
    if contents == [] then [] else [Encode(contents[0])] + EncodeAll(contents[1..])
  }

  /** Segment stream round trip: reading a written stream returns the segments' contents. */
  lemma {:induction false} StreamRoundTrip(contents: seq<Content>, version: nat, tail: seq<bool>)
    requires 1 <= version <= 40 && Countable(contents, version) && Ends(tail)
    ensures Decode(Stream(EncodeAll(contents), version) + tail, version) == Some(contents)
  {
    if contents == [] {
      EndsRead(tail);
      assert Stream(EncodeAll(contents), version) + tail == tail;
    } else {
      CountableParts(contents, version);
      hide Encode, ToBits, Decode, ModeBits, CountBits, Stream, EncodeAll, Encodable, Countable, Ends, Pow2;
      var others := Stream(EncodeAll(contents[1..]), version) + tail;
      StreamRoundTrip(contents[1..], version, tail);
      StreamUnfold(contents, version, tail);
      SegmentBack(contents[0], version, others);
      assert Decode(others, version) == Some(contents[1..]);
      assert contents == [contents[0]] + contents[1..];
    }
  }

  lemma CountableParts(contents: seq<Content>, version: nat)
    requires 1 <= version <= 40 && Countable(contents, version) && contents != []
    ensures forall c :: c in contents ==> Encodable(c)
    ensures Encode(contents[0]).count < Pow2(CountBits(Encode(contents[0]).mode, version))
    ensures Countable(contents[1..], version)
  {
    hide Encode, Encodable, CountBits, Pow2;
    assert contents[0] in contents;
  }

  lemma StreamUnfold(contents: seq<Content>, version: nat, tail: seq<bool>)
    requires 1 <= version <= 40 && contents != [] && forall c :: c in contents ==> Encodable(c)
    ensures var s := Encode(contents[0]);
            Stream(EncodeAll(contents), version) + tail
            == ToBits(ModeBits(s.mode), 4) + ToBits(s.count, CountBits(s.mode, version)) + s.bits
               + (Stream(EncodeAll(contents[1..]), version) + tail)
  {
    hide Encode, ToBits, ModeBits, CountBits, Encodable;
    assert EncodeAll(contents)[1..] == EncodeAll(contents[1..]);
  }

  lemma EndsRead(tail: seq<bool>)
    requires Ends(tail)
    ensures |tail| < 4 || Value(tail, 4) == 0
  {
    if |tail| >= 4 {
      assert ToBits(0, 4) == [false, false, false, false] by {
        assert ToBits(0, 1) == [false] && ToBits(0, 2) == [false, false] && ToBits(0, 3) == [false, false, false];
      }
      assert Pow2(4) == 16;
      ValueOfBits(0, 4);
    }
  }

  lemma ModeBack(mode: Mode)
    ensures 0 < ModeBits(mode) < Pow2(4) && ModeOf(ModeBits(mode)) == Some(mode)
  {
    assert Pow2(4) == 16;
  }

  lemma SegmentBack(c: Content, version: nat, others: seq<bool>)
    requires 1 <= version <= 40 && Encodable(c) && Encode(c).count < Pow2(CountBits(Encode(c).mode, version))
    ensures var s := Encode(c);
            var bits := ToBits(ModeBits(s.mode), 4) + ToBits(s.count, CountBits(s.mode, version)) + s.bits + others;
            Decode(bits, version)
            == var rest := Decode(others, version); if rest.None? then None else Some([c] + rest.value)
  {
    hide ReadContent, Encode, ModeBits, ModeOf, ToBits;
    var s := Encode(c);
    var n := CountBits(s.mode, version);
    var head, count := ToBits(ModeBits(s.mode), 4), ToBits(s.count, n);
    var bits := head + count + s.bits + others;
    ModeBack(s.mode);
    assert bits == head + (count + s.bits + others);
    ValueFront(ModeBits(s.mode), 4, count + s.bits + others);
    assert bits[4..4 + n] == count && bits[4 + n..] == s.bits + others;
    ValueOfBits(s.count, n);
    ContentBack(c, others);
  }
}
