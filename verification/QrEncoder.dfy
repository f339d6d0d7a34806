/** The bit buffer, the segment makers and encode_segments of qrcodegen.py: version and error
    correction level selection, terminator and padding. The data capacities, which the source
    takes from its tables, are given as a function of version and level. */
module QrEncoder {
  import opened Bits
  import opened BitStream
  import opened Decimals
  import opened QrSegments
  import opened Wrappers

  class BitBuffer {
    var bits: seq<bool>

    constructor ()
      ensures bits == []
    {
      bits := [];
    }

    /** Appends the n low-order bits of val; `false` is the ValueError for a value out of range. */
    method AppendBits(val: int, n: int) returns (ok: bool)
      modifies this
      ensures ok <==> n >= 0 && 0 <= val < Pow2(n)
      ensures bits == old(bits) + if ok then ToBits(val, n) else []
    {
      if n < 0 || val < 0 {
        return false;
      }
      ShiftBound(val, n);
      if Shift(val, n) != 0 {
        return false;
      }
      var i: nat := n;
      while i > 0
        invariant 0 <= i <= n
        invariant bits == old(bits) + ToBits(val, n)[..n - i]
      {
        i := i - 1;
        BitAt(val, n, n - 1 - i);
        bits := bits + [Bit(val, i) == 1];
      }
      ok := true;
    }
  }

  method MakeNumeric(digits: string) returns (r: Option<Segment>)
    ensures r == if Encodable(Digits(digits)) then Some(Encode(Digits(digits))) else None
  {
    if exists i :: 0 <= i < |digits| && !Digit(digits[i]) {
      return None;
    }
    var bits := WriteDigits(digits);
    return Some(Segment(Numeric, |digits|, bits));
  }

  method WriteDigits(digits: string) returns (bits: seq<bool>)
    requires AllDigits(digits)
    ensures bits == NumericBits(digits)
  {
    var bb := new BitBuffer();
    ghost var rest := digits;
    NumericDone();
    hide NumericBits, Number, ToBits, Pow2;
    var i := 0;
    while i < |digits|
      invariant 0 <= i <= |digits| && rest == digits[i..]
      invariant bb.bits + NumericBits(rest) == NumericBits(digits)
    {
      var n := if |digits| - i < 3 then |digits| - i else 3;
      assert rest[..n] == digits[i..i + n] && rest[n..] == digits[i + n..];
      NumericNext(rest, bb.bits);
      NumberFits(digits[i..i + n]);
      rest := rest[n..];
      var ok := bb.AppendBits(Number(digits[i..i + n]), n * 3 + 1);
      i := i + n;
    }
    assert rest == "";
    bits := bb.bits;
  }

  lemma NumericDone()
    ensures NumericBits("") == []
  {
  }

  lemma NumericNext(text: string, done: seq<bool>)
    requires AllDigits(text) && text != ""
    ensures var n := Chunk(|text|);
            done + ToBits(Number(text[..n]), 3 * n + 1) + NumericBits(text[n..]) == done + NumericBits(text)
  {
    hide NumericBits, Number, ToBits, Digit;
    var n := Chunk(|text|);
    NumericUnfold(text, []);
    Reassociate(done, NumericBits(text), ToBits(Number(text[..n]), 3 * n + 1), NumericBits(text[n..]));
  }

  lemma NumberFits(chunk: string)
    requires AllDigits(chunk) && 1 <= |chunk| <= 3
    ensures Number(chunk) < Pow2(3 * |chunk| + 1)
  {
    hide Number, Pow2, DigitText, Pow10;
    NumberText(chunk);
    ChunkFits(|chunk|);
  }

  lemma Reassociate(done: seq<bool>, whole: seq<bool>, head: seq<bool>, tail: seq<bool>)
    requires whole + [] == head + (tail + [])
    ensures done + head + tail == done + whole
  {
    assert whole == whole + [] && tail == tail + [];
  }

  method MakeAlphanumeric(text: string) returns (r: Option<Segment>)
    ensures r == if Encodable(Letters(text)) then Some(Encode(Letters(text))) else None
  {
    if exists i :: 0 <= i < |text| && !Letter(text[i]) {
      return None;
    }
    var bits := WriteLetters(text);
    return Some(Segment(Alphanumeric, |text|, bits));
  }

  method WriteLetters(text: string) returns (bits: seq<bool>)
    requires AllLetters(text)
    ensures bits == LetterBits(text)
  {
    var bb := new BitBuffer();
    ghost var rest := text;
    LettersDone();
    hide Letter, Alphabet, LetterBits, ToBits, Pow2;
    var i := 0;
    while i < |text| - 1
      invariant 0 <= i <= |text| && i % 2 == 0 && rest == text[i..]
      invariant bb.bits + LetterBits(rest) == LetterBits(text)
    {
      LettersNext(rest, bb.bits);
      var temp := Place(text[i]) * 45;
      temp := temp + Place(text[i + 1]);
      rest := rest[2..];
      var ok := bb.AppendBits(temp, 11);
      i := i + 2;
    }
    if |text| % 2 > 0 {
      LetterFits(Place(text[|text| - 1]));
      OddTail(rest);
      var ok := bb.AppendBits(Place(text[|text| - 1]), 6);
    } else {
      assert rest == "";
    }
    bits := bb.bits;
  }

  lemma LettersDone()
    ensures LetterBits("") == []
  {
  }

  lemma LettersNext(text: string, done: seq<bool>)
    requires AllLetters(text) && |text| >= 2
    ensures 0 <= Place(text[0]) * 45 + Place(text[1]) < Pow2(11)
    ensures done + ToBits(Place(text[0]) * 45 + Place(text[1]), 11) + LetterBits(text[2..]) == done + LetterBits(text)
  {
    hide Letter, Alphabet, LetterBits, ToBits, Pow2;
    PairFits(Place(text[0]), Place(text[1]));
    LettersUnfold(text, []);
    Reassociate(done, LetterBits(text), ToBits(Place(text[0]) * 45 + Place(text[1]), 11), LetterBits(text[2..]));
  }

  lemma PairFits(a: nat, b: nat)
    requires a < 45 && b < 45
    ensures 0 <= a * 45 + b < Pow2(11)
  {
    Powers();
    PairBack(a, b);
  }

  lemma LetterFits(a: nat)
    requires a < 45
    ensures a < Pow2(6)
  {
    Powers();
  }

  lemma OddTail(text: string)
    requires AllLetters(text) && |text| == 1
    ensures LetterBits(text) == ToBits(Place(text[0]), 6)
  {
  }

  method MakeBytes(data: seq<Byte>) returns (segment: Segment)
    ensures segment == Encode(Raw(data))
  {
    var bb := new BitBuffer();
    ghost var rest := data;
    RawDone();
    hide RawBits, ToBits, Pow2;
    for i := 0 to |data|
      invariant rest == data[i..] && bb.bits + RawBits(rest) == RawBits(data)
    {
      RawNext(rest, bb.bits);
      rest := rest[1..];
      var ok := bb.AppendBits(data[i], 8);
    }
    assert rest == [];
    segment := Segment(ByteMode, |data|, bb.bits);
  }

  lemma RawDone()
    ensures RawBits([]) == [] && Pow2(8) == 256
  {
  }

  lemma RawNext(data: seq<Byte>, done: seq<bool>)
    requires data != []
    ensures done + ToBits(data[0], 8) + RawBits(data[1..]) == done + RawBits(data)
  {
    hide ToBits;
    Reassociate(done, RawBits(data), ToBits(data[0], 8), RawBits(data[1..]));
  }

  method MakeEci(value: int) returns (r: Option<Segment>)
    ensures r == if 0 <= value < 1000000 then Some(Encode(Designator(value))) else None
  {
    EciPowers();
    hide Pow2, ToBits;
    var bb := new BitBuffer();
    if value < 0 {
      return None;
    } else if value < 128 {
      var ok := bb.AppendBits(value, 8);
    } else if value < 16384 {
      var ok := bb.AppendBits(2, 2);
      ok := bb.AppendBits(value, 14);
    } else if value < 1000000 {
      var ok := bb.AppendBits(6, 3);
      ok := bb.AppendBits(value, 21);
    } else {
      return None;
    }
    assert bb.bits == DesignatorBits(value);
    return Some(Segment(Eci, 0, bb.bits));
  }

  lemma EciPowers()
    ensures Pow2(2) == 4 && Pow2(3) == 8 && Pow2(8) == 256 && Pow2(14) == 16384 && Pow2(21) == 2097152
  {
  }

  // Selection.

  /** Error correction levels, from low to high. */
  datatype Ecc = Low | Medium | Quartile | High

  function Rank(level: Ecc): nat {
    match level
    case Low => 0
    case Medium => 1
    case Quartile => 2
    case High => 3
  }

  type Capacity = (nat, Ecc) -> nat

  /** get_total_bits: None when a character count does not fit its field. */
  function TotalBits(segs: seq<Segment>, version: nat): Option<nat>
    requires 1 <= version <= 40
  {
    if segs == [] then Some(0)
    else
      var n := CountBits(segs[0].mode, version);
      var others := TotalBits(segs[1..], version);
      if segs[0].count >= Pow2(n) || others.None? then None
      else Some(4 + n + |segs[0].bits| + others.value)
  }

  /** The counted length is the length that is written. */
  lemma {:induction false} TotalBitsExact(segs: seq<Segment>, version: nat)
    requires 1 <= version <= 40 && TotalBits(segs, version).Some?
    ensures |Stream(segs, version)| == TotalBits(segs, version).value
    ensures forall s :: s in segs ==> s.count < Pow2(CountBits(s.mode, version))
  {
    if segs != [] { TotalBitsExact(segs[1..], version); }
  }

  method GetTotalBits(segs: seq<Segment>, version: nat) returns (r: Option<nat>)
    requires 1 <= version <= 40
    ensures r == TotalBits(segs, version)
  {
    var result := 0;
    assert segs[0..] == segs;
    for i := 0 to |segs|
      invariant TotalBits(segs, version)
             == var rest := TotalBits(segs[i..], version); if rest.None? then None else Some(result + rest.value)
    {
      assert segs[i..][0] == segs[i] && segs[i..][1..] == segs[i + 1..];
      var ccbits := CountBits(segs[i].mode, version);
      if segs[i].count >= Pow2(ccbits) {
        return None;
      }
      result := result + (4 + ccbits + |segs[i].bits|);
    }
    return Some(result);
  }

  predicate Fits(segs: seq<Segment>, version: nat, level: Ecc, capacity: Capacity)
    requires 1 <= version <= 40
  {
    TotalBits(segs, version).Some? && TotalBits(segs, version).value <= capacity(version, level) * 8
  }

  datatype Error = InvalidValue | DataTooLong

  datatype Encoded = Encoded(version: nat, level: Ecc, codewords: seq<Byte>)

  /** The codewords are the stream, an end for it, and padding up to the capacity. */
  ghost predicate Written(e: Encoded, segs: seq<Segment>, capacity: Capacity)
    requires 1 <= e.version <= 40
  {
    && |e.codewords| == capacity(e.version, e.level)
    && exists tail :: Unpack(e.codewords) == Stream(segs, e.version) + tail && Ends(tail) && Padding(tail, |Stream(segs, e.version)|)
  }

  /** The terminator and the zeros up to a byte boundary, then 0xEC and 0x11 in turn. */
  function TailZeros(used: nat, capacityBits: nat): nat
    requires used <= capacityBits && capacityBits % 8 == 0
  {
    var terminator := if capacityBits - used < 4 then capacityBits - used else 4;
    terminator + (8 - (used + terminator) % 8) % 8
  }

  function PadBytes(n: nat, first: Byte): seq<bool> {
    if n == 0 then [] else ToBits(first, 8) + PadBytes(n - 1, if first == 0xEC then 0x11 else 0xEC)
  }

  function Zeros(n: nat): (z: seq<bool>)
    ensures |z| == n && forall i :: 0 <= i < n ==> !z[i]
  {
    seq(n, i => false)
  }

  ghost predicate Padding(tail: seq<bool>, used: nat) {
    && (used + |tail|) % 8 == 0
    && var zeros := TailZeros(used, used + |tail|);
       zeros <= |tail| && (|tail| - zeros) % 8 == 0 && tail == Zeros(zeros) + PadBytes((|tail| - zeros) / 8, 0xEC)
  }

  lemma {:induction false} ZeroBits(n: nat)
    ensures ToBits(0, n) == Zeros(n)
  {
    if n > 0 { ZeroBits(n - 1); }
  }

  /** encode_segments up to the constructor call. */
  method EncodeSegments(segs: seq<Segment>, ecl: Ecc, minVersion: int, maxVersion: int, mask: int, boost: bool,
                        capacity: Capacity) returns (r: Result<Encoded, Error>)
    requires forall s :: s in segs ==> ModeBits(s.mode) < 16
    ensures r == Failure(InvalidValue) <==> !(1 <= minVersion <= maxVersion <= 40 && -1 <= mask <= 7)
    ensures r == Failure(DataTooLong) ==> forall v :: minVersion <= v <= maxVersion ==> !Fits(segs, v, ecl, capacity)
    ensures r.Success? ==>
      && minVersion <= r.value.version <= maxVersion
      && Fits(segs, r.value.version, ecl, capacity)
      && (forall v :: minVersion <= v < r.value.version ==> !Fits(segs, v, ecl, capacity))
      && Boosted(segs, r.value.version, ecl, r.value.level, boost, capacity)
      && Written(r.value, segs, capacity)
  {
    if !(1 <= minVersion <= maxVersion <= 40) || !(-1 <= mask <= 7) {
      return Failure(InvalidValue);
    }
    var version := SelectVersion(segs, ecl, minVersion, maxVersion, capacity);
    if version.None? {
      return Failure(DataTooLong);
    }
    var level := BoostLevel(segs, version.value, ecl, boost, capacity);
    var codewords := WriteCodewords(segs, version.value, capacity(version.value, level));
    return Success(Encoded(version.value, level, codewords));
  }

  /** The first version of the range that fits. */
  method SelectVersion(segs: seq<Segment>, ecl: Ecc, minVersion: int, maxVersion: int, capacity: Capacity)
      returns (r: Option<nat>)
    requires 1 <= minVersion <= maxVersion <= 40
    ensures r.None? ==> forall v :: minVersion <= v <= maxVersion ==> !Fits(segs, v, ecl, capacity)
    ensures r.Some? ==>
      && minVersion <= r.value <= maxVersion && Fits(segs, r.value, ecl, capacity)
      && forall v :: minVersion <= v < r.value ==> !Fits(segs, v, ecl, capacity)
  {
    for version := minVersion to maxVersion + 1
      invariant forall v :: minVersion <= v < version ==> !Fits(segs, v, ecl, capacity)
    {
      var capacityBits := capacity(version, ecl) * 8;
      var usedBits := GetTotalBits(segs, version);
      if usedBits.Some? && usedBits.value <= capacityBits {
        return Some(version);
      }
    }
    return None;
  }

  /** The level never falls; without boosting it stays; with it, no higher level would fit. */
  predicate Boosted(segs: seq<Segment>, version: nat, wanted: Ecc, level: Ecc, boost: bool, capacity: Capacity)
    requires 1 <= version <= 40
  {
    && Fits(segs, version, level, capacity) && Rank(level) >= Rank(wanted)
    && (!boost ==> level == wanted)
    && (boost ==> forall other :: Rank(other) > Rank(level) ==> !Fits(segs, version, other, capacity))
  }

  method BoostLevel(segs: seq<Segment>, version: nat, ecl: Ecc, boost: bool, capacity: Capacity) returns (level: Ecc)
    requires 1 <= version <= 40 && Fits(segs, version, ecl, capacity)
    ensures Boosted(segs, version, ecl, level, boost, capacity)
  {
    hide TotalBits;
    level := ecl;
    var used := GetTotalBits(segs, version);
    var levels := [Medium, Quartile, High];
    for i := 0 to 3
      invariant Fits(segs, version, level, capacity)
      invariant !boost ==> level == ecl
      invariant boost ==> level == ecl || Rank(level) <= i
      invariant boost ==> Rank(level) >= Rank(ecl) || Rank(ecl) > i
      invariant boost ==> forall k :: 0 <= k < i && Rank(levels[k]) > Rank(level) ==> !Fits(segs, version, levels[k], capacity)
    {
      assert Rank(levels[i]) == i + 1;
      if boost && used.value <= capacity(version, levels[i]) * 8 {
        level := levels[i];
      }
    }
    assert levels[0] == Medium && levels[1] == Quartile && levels[2] == High;
  }

  method WriteCodewords(segs: seq<Segment>, version: nat, codewords: nat) returns (data: seq<Byte>)
    requires 1 <= version <= 40
    requires TotalBits(segs, version).Some? && TotalBits(segs, version).value <= codewords * 8
    requires forall s :: s in segs ==> ModeBits(s.mode) < 16
    ensures |data| == codewords
    ensures exists tail ::
      Unpack(data) == Stream(segs, version) + tail && Ends(tail) && Padding(tail, |Stream(segs, version)|)
  {
    hide TotalBits, Stream, Ends, Padding, ModeBits, CountBits, ToBits, Pow2, Pack, Unpack;
    TotalBitsExact(segs, version);
    var bb := new BitBuffer();
    WriteStream(bb, segs, version);
    ghost var stream := bb.bits;
    var capacityBits := codewords * 8;
    PadToCapacity(bb, capacityBits);
    ghost var tail := bb.bits[|stream|..];
    assert bb.bits == stream + tail;
    data := PackBits(bb.bits);
    UnpackPack(bb.bits);
  }

  method WriteStream(bb: BitBuffer, segs: seq<Segment>, version: nat)
    requires 1 <= version <= 40 && bb.bits == []
    requires forall s :: s in segs ==> ModeBits(s.mode) < 16 && s.count < Pow2(CountBits(s.mode, version))
    modifies bb
    ensures bb.bits == Stream(segs, version)
  {
    StreamDone(segs, version);
    hide Stream, ToBits, Pow2, ModeBits, CountBits;
    for i := 0 to |segs|
      invariant bb.bits + Stream(segs[i..], version) == Stream(segs, version)
    {
      var s := segs[i];
      assert s in segs;
      StreamNext(segs, version, i, bb.bits);
      var ok := bb.AppendBits(ModeBits(s.mode), 4);
      ok := bb.AppendBits(s.count, CountBits(s.mode, version));
      bb.bits := bb.bits + s.bits;
    }
    assert segs[|segs|..] == [];
  }

  lemma StreamDone(segs: seq<Segment>, version: nat)
    requires 1 <= version <= 40
    ensures [] + Stream(segs[0..], version) == Stream(segs, version) && Stream([], version) == [] && Pow2(4) == 16
  {
    assert segs[0..] == segs;
  }

  lemma StreamNext(segs: seq<Segment>, version: nat, i: nat, done: seq<bool>)
    requires 1 <= version <= 40 && i < |segs| && done + Stream(segs[i..], version) == Stream(segs, version)
    ensures var s := segs[i];
            done + ToBits(ModeBits(s.mode), 4) + ToBits(s.count, CountBits(s.mode, version)) + s.bits
            + Stream(segs[i + 1..], version) == Stream(segs, version)
  {
    hide ToBits, ModeBits, CountBits;
    assert segs[i..][0] == segs[i] && segs[i..][1..] == segs[i + 1..];
    Regroup(done, ToBits(ModeBits(segs[i].mode), 4), ToBits(segs[i].count, CountBits(segs[i].mode, version)),
            segs[i].bits, Stream(segs[i + 1..], version));
  }

  lemma Regroup(a: seq<bool>, b: seq<bool>, c: seq<bool>, d: seq<bool>, e: seq<bool>)
    ensures a + b + c + d + e == a + (b + c + d + e)
  {
  }

  /** Terminator, alignment, and alternating padding bytes. */
  method PadToCapacity(bb: BitBuffer, capacityBits: nat)
    requires |bb.bits| <= capacityBits && capacityBits % 8 == 0
    modifies bb
    ensures old(bb.bits) <= bb.bits && |bb.bits| == capacityBits
    ensures var tail := bb.bits[|old(bb.bits)|..]; Ends(tail) && Padding(tail, |old(bb.bits)|)
  {
    hide PadBytes, TailZeros, Padding, Ends, Zeros;
    ghost var used := bb.bits;
    Terminate(bb, capacityBits);
    ghost var zeros := bb.bits[|used|..];
    assert bb.bits == used + zeros;
    ghost var n := AppendPadding(bb, capacityBits);
    PadLength(n, 0xEC);
    assert bb.bits == used + (zeros + PadBytes(n, 0xEC));
    assert bb.bits[|used|..] == zeros + PadBytes(n, 0xEC);
    TailEnds(zeros, n, |used|, capacityBits);
  }

  /** The terminator, cut short where the capacity ends, and the bits to the next byte. */
  method Terminate(bb: BitBuffer, capacityBits: nat)
    requires |bb.bits| <= capacityBits && capacityBits % 8 == 0
    modifies bb
    ensures bb.bits == old(bb.bits) + Zeros(TailZeros(|old(bb.bits)|, capacityBits))
    ensures |bb.bits| % 8 == 0 && |bb.bits| <= capacityBits
  {
    hide ToBits;
    var terminator := if capacityBits - |bb.bits| < 4 then capacityBits - |bb.bits| else 4;
    Alignment(|bb.bits| + terminator, capacityBits);
    var ok := bb.AppendBits(0, terminator);
    ZeroBits(terminator);
    var align := (8 - |bb.bits| % 8) % 8;
    ok := bb.AppendBits(0, align);
    ZeroBits(align);
    assert Zeros(terminator) + Zeros(align) == Zeros(terminator + align);
  }

  lemma Alignment(used: nat, capacityBits: nat)
    requires used <= capacityBits && capacityBits % 8 == 0
    ensures (used + (8 - used % 8) % 8) % 8 == 0 && used + (8 - used % 8) % 8 <= capacityBits
  {
  }

  /** Alternating bytes until the capacity is reached. */
  method AppendPadding(bb: BitBuffer, capacityBits: nat) returns (ghost n: nat)
    requires |bb.bits| <= capacityBits && capacityBits % 8 == 0 && |bb.bits| % 8 == 0
    modifies bb
    ensures bb.bits == old(bb.bits) + PadBytes(n, 0xEC) && |bb.bits| == capacityBits
  {
    hide ToBits, PadBytes;
    assert Pow2(8) == 256;
    NoPadding(0xEC);
    var pad: Byte := 0xEC;
    n := 0;
    while |bb.bits| < capacityBits
      invariant |bb.bits| <= capacityBits && |bb.bits| % 8 == 0
      invariant pad == if n % 2 == 0 then 0xEC else 0x11
      invariant bb.bits == old(bb.bits) + PadBytes(n, 0xEC)
      decreases capacityBits - |bb.bits|
    {
      PadLast(n, 0xEC);
      var ok := bb.AppendBits(pad, 8);
      n := n + 1;
      pad := if pad == 0xEC then 0x11 else 0xEC;
    }
  }

  lemma NoPadding(first: Byte)
    ensures PadBytes(0, first) == []
  {
  }

  lemma TailEnds(zeros: seq<bool>, n: nat, used: nat, capacityBits: nat)
    requires used <= capacityBits && capacityBits % 8 == 0
    requires zeros == Zeros(TailZeros(used, capacityBits)) && used + |zeros| + 8 * n == capacityBits
    ensures Ends(zeros + PadBytes(n, 0xEC)) && Padding(zeros + PadBytes(n, 0xEC), used)
  {
    PadLength(n, 0xEC);
    hide PadBytes;
    var tail := zeros + PadBytes(n, 0xEC);
    if |tail| >= 4 {
      assert tail[..4] == zeros[..4] == Zeros(4);
    }
  }

  lemma {:induction false} PadLast(n: nat, first: Byte)
    requires first == 0xEC || first == 0x11
    ensures PadBytes(n + 1, first)
         == PadBytes(n, first) + ToBits(if n % 2 == 0 then first else if first == 0xEC then 0x11 else 0xEC, 8)
  {
    hide ToBits;
    if n > 0 {
      var second: Byte := if first == 0xEC then 0x11 else 0xEC;
      PadLast(n - 1, second);
      assert PadBytes(n + 1, first) == ToBits(first, 8) + PadBytes(n, second);
    }
  }

  lemma {:induction false} PadLength(n: nat, first: Byte)
    ensures |PadBytes(n, first)| == 8 * n
  {
    if n > 0 { PadLength(n - 1, if first == 0xEC then 0x11 else 0xEC); }
  }

  // Packing.

  function Or(a: nat, b: nat): nat
    decreases a + b
  {
    if a == 0 && b == 0 then 0
    else (if a % 2 == 1 || b % 2 == 1 then 1 else 0) + 2 * Or(a / 2, b / 2)
  }

  lemma {:induction false} OrZero(a: nat)
    ensures Or(a, 0) == a
  {
    if a > 0 { OrZero(a / 2); }
  }

  /** Setting a bit that is still zero. */
  lemma {:induction false} OrBit(x: seq<bool>, n: nat)
    ensures Or(FromBits(x + [false] + Zeros(n)), Pow2(n)) == FromBits(x + [true] + Zeros(n))
  {
    var off, on := x + [false] + Zeros(n), x + [true] + Zeros(n);
    if n == 0 {
      assert off[..|x|] == x == on[..|x|];
      OrZero(FromBits(x));
      OrDouble(FromBits(x), 0, 1);
    } else {
      assert off[..|off| - 1] == x + [false] + Zeros(n - 1);
      assert on[..|on| - 1] == x + [true] + Zeros(n - 1);
      OrBit(x, n - 1);
      OrDouble(FromBits(off[..|off| - 1]), Pow2(n - 1), 0);
    }
  }

  lemma OrDouble(a: nat, b: nat, low: nat)
    requires low <= 1
    ensures Or(2 * a, 2 * b + low) == 2 * Or(a, b) + low
  {
    TwoDigits(0, a);
    TwoDigits(low, b);
  }

  /** The packing loop: bit i goes to place 7 - i % 8 of byte i / 8. */
  method PackBits(bits: seq<bool>) returns (data: seq<Byte>)
    requires |bits| % 8 == 0
    ensures data == Pack(bits)
  {
    var n := |bits| / 8;
    var words: seq<nat> := seq(n, i => 0);
    ZeroBytes();
    assert forall k :: 0 <= k < n ==> Chunked(bits, 0, k) == Zeros(8);
    for i := 0 to |bits|
      invariant |words| == n
      invariant forall k :: 0 <= k < n ==> words[k] == FromBits(Chunked(bits, i, k))
    {
      ChunkNext(bits, i);
      var bit := if bits[i] then Pow2(7 - i % 8) else 0;
      OrZero(words[i / 8]);
      words := words[i / 8 := Or(words[i / 8], bit)];
    }
    data := Collect(words, bits);
  }

  /** The bits of byte k that have been packed when i bits are done; the others are zero. */
  function Chunked(bits: seq<bool>, i: nat, k: nat): (chunk: seq<bool>)
    requires i <= |bits| && |bits| % 8 == 0 && k < |bits| / 8
    ensures |chunk| == 8
  {
    seq(8, j requires 0 <= j < 8 => 8 * k + j < i && bits[8 * k + j])
  }

  lemma ZeroBytes()
    ensures FromBits(Zeros(8)) == 0
  {
    ZeroBits(8);
    assert Pow2(8) == 256;
    ValueOfBits(0, 8);
  }

  lemma ChunkNext(bits: seq<bool>, i: nat)
    requires i < |bits| && |bits| % 8 == 0
    ensures forall k :: 0 <= k < |bits| / 8 && k != i / 8 ==> Chunked(bits, i + 1, k) == Chunked(bits, i, k)
    ensures FromBits(Chunked(bits, i + 1, i / 8))
         == if bits[i] then Or(FromBits(Chunked(bits, i, i / 8)), Pow2(7 - i % 8)) else FromBits(Chunked(bits, i, i / 8))
  {
    var k, j := i / 8, i % 8;
    var before, after := Chunked(bits, i, k), Chunked(bits, i + 1, k);
    var x := bits[8 * k..i];
    if bits[i] {
      assert before == x + [false] + Zeros(7 - j);
      assert after == x + [true] + Zeros(7 - j);
      OrBit(x, 7 - j);
    } else {
      assert before == after;
    }
  }

  lemma WholeChunk(bits: seq<bool>, k: nat)
    requires |bits| % 8 == 0 && 8 * k + 8 <= |bits|
    ensures Chunked(bits, |bits|, k) == bits[8 * k..8 * k + 8]
    ensures bits[..8 * (k + 1)] == bits[..8 * k] + bits[8 * k..8 * k + 8]
  {
  }

  method Collect(words: seq<nat>, bits: seq<bool>) returns (data: seq<Byte>)
    requires |bits| % 8 == 0 && |words| == |bits| / 8
    requires forall k :: 0 <= k < |words| ==> words[k] == FromBits(Chunked(bits, |bits|, k))
    ensures data == Pack(bits)
  {
    hide Pack, FromBits, Chunked;
    assert Pack([]) == [] by { UnpackPack([]); }
    data := [];
    for k := 0 to |words|
      invariant data == Pack(bits[..8 * k])
    {
      WholeChunk(bits, k);
      PackLast(bits[..8 * k], bits[8 * k..8 * k + 8]);
      data := data + [words[k]];
    }
    assert bits[..8 * |words|] == bits;
  }

  /** Whatever contents encode_segments was given, the standard's reader gets them back. */
  lemma CodewordsRoundTrip(contents: seq<Content>, e: Encoded, capacity: Capacity)
    requires 1 <= e.version <= 40 && forall c :: c in contents ==> Encodable(c)
    requires TotalBits(EncodeAll(contents), e.version).Some?
    requires Written(e, EncodeAll(contents), capacity)
    ensures Decode(Unpack(e.codewords), e.version) == Some(contents)
  {
    TotalBitsExact(EncodeAll(contents), e.version);
    forall c | c in contents ensures Encode(c).count < Pow2(CountBits(Encode(c).mode, e.version)) {
      EncodedMember(contents, c);
    }
    var tail :| Unpack(e.codewords) == Stream(EncodeAll(contents), e.version) + tail && Ends(tail)
                && Padding(tail, |Stream(EncodeAll(contents), e.version)|);
    StreamRoundTrip(contents, e.version, tail);
  }

  lemma {:induction false} EncodedMember(contents: seq<Content>, c: Content)
    requires c in contents && forall c :: c in contents ==> Encodable(c)
    ensures Encode(c) in EncodeAll(contents)
  {
    if c != contents[0] { EncodedMember(contents[1..], c); }
  }
}
