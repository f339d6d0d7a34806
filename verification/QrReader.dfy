/** The whole way back: a drawn symbol is unmasked, scanned, de-interleaved, and its data decoded. */
module QrReader {
  import opened BitStream
  import opened ReedSolomon
  import opened CodeDistance
  import opened QrBlocks
  import opened QrMatrix
  import opened QrCode
  import opened QrSegments
  import opened QrEncoder
  import opened Wrappers

  /** The data bytes of one block. */
  function BlockData(code: Poly, shape: Shape, j: nat): Poly
    requires shape.Valid() && |code| == shape.raw && j < shape.blocks
  {
    ReadBlock(code, shape, j)[..shape.DataBytes(j)]
  }

  /** The data bytes of blocks j, j+1, ... */
  function Data(code: Poly, shape: Shape, j: nat): Poly
    requires shape.Valid() && |code| == shape.raw && j <= shape.blocks
    decreases shape.blocks - j
  {
    if j == shape.blocks then []
    else BlockData(code, shape, j) + Data(code, shape, j + 1)
  }

  lemma SplitFirst(rest: Poly, shape: Shape, j: nat)
    requires shape.Valid() && j < shape.blocks && |rest| == DataLength(shape, j)
    ensures var n := shape.DataBytes(j);
            n <= |rest| && |rest[n..]| == DataLength(shape, j + 1)
            && Split(rest, shape, j) == [rest[..n]] + Split(rest[n..], shape, j + 1)
  {
  }

  lemma {:induction false} DataBack(code: Poly, rest: Poly, shape: Shape, j: nat)
    requires shape.Valid() && |code| == shape.raw && j <= shape.blocks && |rest| == DataLength(shape, j)
    requires forall i :: j <= i < shape.blocks ==>
               BlockData(code, shape, i) == Split(rest, shape, j)[i - j]
    ensures Data(code, shape, j) == rest
    decreases shape.blocks - j
  {
    hide BlockData, Split;
    if j < shape.blocks {
      var n := shape.DataBytes(j);
      SplitFirst(rest, shape, j);
      forall i | j + 1 <= i < shape.blocks
        ensures BlockData(code, shape, i) == Split(rest[n..], shape, j + 1)[i - (j + 1)]
      {
        assert Split(rest, shape, j)[i - j] == Split(rest[n..], shape, j + 1)[i - (j + 1)];
      }
      DataBack(code, rest[n..], shape, j + 1);
    }
  }

  lemma BlockFront(code: Poly, data: Poly, shape: Shape, j: nat)
    requires Recovers(code, data, shape) && j < shape.blocks
    requires |Split(data, shape, 0)[j]| == shape.DataBytes(j)
    ensures BlockData(code, shape, j) == Split(data, shape, 0)[j]
  {
    hide ReadBlock, Split, Divide, Divisor;
    var part, rest := Split(data, shape, 0)[j], Divide(Split(data, shape, 0)[j], Divisor(shape.ecc));
    assert (part + rest)[..|part|] == part;
  }

  /** De-interleaving returns the data, and every block is a codeword: it vanishes at the roots
      of the generator, so a reader's syndromes are all zero. */
  lemma BlocksBack(code: Poly, data: Poly, shape: Shape)
    requires Recovers(code, data, shape) && |data| == DataLength(shape, 0)
    ensures Data(code, shape, 0) == data
    ensures forall j: nat, k: nat :: j < shape.blocks && k < shape.ecc ==> RootOf(ReadBlock(code, shape, j), k)
  {
    hide ReadBlock, BlockData, Split, Divide, Divisor, RootOf;
    forall j | 0 <= j < shape.blocks ensures BlockData(code, shape, j) == Split(data, shape, 0)[j - 0] {
      PartSize(data, shape, 0, j);
      BlockFront(code, data, shape, j);
    }
    DataBack(code, data, shape, 0);
    forall j: nat, k: nat | j < shape.blocks && k < shape.ecc ensures RootOf(ReadBlock(code, shape, j), k) {
      CodewordRoots(Split(data, shape, 0)[j], shape.ecc);
    }
  }

  /** If a reader recovers the codewords that encode_segments wrote for some contents, it decodes
      the contents. */
  lemma ContentsBack(contents: seq<Content>, e: Encoded, capacity: Capacity, code: Poly, shape: Shape)
    requires 1 <= e.version <= 40 && shape.Valid() && |code| == shape.raw
    requires forall c :: c in contents ==> Encodable(c)
    ensures && TotalBits(EncodeAll(contents), e.version).Some?
            && Written(e, EncodeAll(contents), capacity)
            && |e.codewords| + shape.ecc * shape.blocks == shape.raw
            && Recovers(code, e.codewords, shape)
            ==> Decode(Unpack(Data(code, shape, 0)), e.version) == Some(contents)
  {
    hide Decode, Written, TotalBits, EncodeAll, Data, Unpack, Recovers;
    if && TotalBits(EncodeAll(contents), e.version).Some? && Written(e, EncodeAll(contents), capacity)
       && |e.codewords| + shape.ecc * shape.blocks == shape.raw && Recovers(code, e.codewords, shape) {
      DataLengthTotal(shape);
      BlocksBack(code, e.codewords, shape);
      CodewordsRoundTrip(contents, e, capacity);
    }
  }

  /** What the source takes from its tables and its function patterns. */
  datatype Tables = Tables(
    capacity: Capacity,
    shape: (nat, Ecc) -> Shape,
    blank: nat -> Grid,
    functions: nat -> Grid,
    formats: (nat, Ecc) -> seq<seq<Dot>>)

  ghost predicate Fitting(t: Tables, version: nat, level: Ecc) {
    var shape, functions := t.shape(version, level), t.functions(version);
    && shape.Valid() && t.capacity(version, level) + shape.ecc * shape.blocks == shape.raw
    && Room(functions, shape.raw)
    && Square(t.blank(version), |functions|)
    && Formats(t.formats(version, level), functions)
  }

  datatype Drawing = Drawing(version: nat, level: Ecc, mask: nat, modules: Grid)

  /** A reader that knows the version, the level and the mask. */
  ghost function Scanned(d: Drawing, t: Tables): Option<seq<Content>>
    requires 1 <= d.version <= 40 && Fitting(t, d.version, d.level)
    requires d.mask < 8 && Square(d.modules, |t.functions(d.version)|)
  {
    var shape := t.shape(d.version, d.level);
    Decode(Unpack(Data(Read(d.modules, d.mask, t.functions(d.version), shape.raw), shape, 0)), d.version)
  }

  /** The codewords read from the symbol. */
  ghost function Codewords(d: Drawing, t: Tables): (code: Poly)
    requires 1 <= d.version <= 40 && Fitting(t, d.version, d.level)
    requires d.mask < 8 && Square(d.modules, |t.functions(d.version)|)
  {
    Read(d.modules, d.mask, t.functions(d.version), t.shape(d.version, d.level).raw)
  }

  /** The symbol holds these contents, as encode_segments writes them. */
  ghost predicate Carries(d: Drawing, t: Tables, contents: seq<Content>)
    requires 1 <= d.version <= 40 && Fitting(t, d.version, d.level)
    requires d.mask < 8 && Square(d.modules, |t.functions(d.version)|)
    requires forall c :: c in contents ==> Encodable(c)
  {
    TotalBits(EncodeAll(contents), d.version).Some?
    && exists data :: Written(Encoded(d.version, d.level, data), EncodeAll(contents), t.capacity)
                      && Recovers(Codewords(d, t), data, t.shape(d.version, d.level))
  }

  lemma WrittenCarries(d: Drawing, t: Tables, contents: seq<Content>, e: Encoded)
    requires 1 <= d.version <= 40 && Fitting(t, d.version, d.level)
    requires d.mask < 8 && Square(d.modules, |t.functions(d.version)|)
    requires forall c :: c in contents ==> Encodable(c)
    requires e.version == d.version && e.level == d.level && Written(e, EncodeAll(contents), t.capacity)
    requires TotalBits(EncodeAll(contents), d.version).Some?
    requires Recovers(Codewords(d, t), e.codewords, t.shape(d.version, d.level))
    ensures Carries(d, t, contents)
  {
    hide Written, Recovers, TotalBits, EncodeAll, Codewords;
    assert e == Encoded(d.version, d.level, e.codewords);
  }

  // Damaged symbols.

  /** In every block at most half as many codewords are wrong as it has for error correction. */
  ghost predicate Near(scan: Poly, code: Poly, shape: Shape) {
    && shape.Valid() && |scan| == |code| == shape.raw
    && forall j :: 0 <= j < shape.blocks ==>
         |ReadBlock(scan, shape, j)| == |ReadBlock(code, shape, j)|
         && 2 * Distance(ReadBlock(scan, shape, j), ReadBlock(code, shape, j)) <= shape.ecc
  }

  lemma BlockTolerates(scan: Poly, code: Poly, data: Poly, other: Poly, otherData: Poly, shape: Shape, j: nat)
    requires shape.Valid() && shape.Length() < 255 && j < shape.blocks
    requires |data| == |otherData| == DataLength(shape, 0)
    requires Recovers(code, data, shape) && Recovers(other, otherData, shape)
    requires Near(scan, code, shape) && Near(scan, other, shape)
    ensures Split(data, shape, 0)[j] == Split(otherData, shape, 0)[j]
  {
    hide ReadBlock, Split, Divide, Divisor, Distance;
    PartSize(data, shape, 0, j);
    PartSize(otherData, shape, 0, j);
    var part, otherPart := Split(data, shape, 0)[j], Split(otherData, shape, 0)[j];
    assert ReadBlock(code, shape, j) == Block(part, shape.ecc);
    assert ReadBlock(other, shape, j) == Block(otherPart, shape.ecc);
    DataInFront(part, shape.ecc);
    DataInFront(otherPart, shape.ecc);
    ErrorsTolerated(ReadBlock(scan, shape, j), part, otherPart, shape.ecc);
  }

  lemma DataTolerates(scan: Poly, code: Poly, data: Poly, other: Poly, otherData: Poly, shape: Shape)
    requires shape.Valid() && shape.Length() < 255
    requires |data| == |otherData| == DataLength(shape, 0)
    requires Recovers(code, data, shape) && Recovers(other, otherData, shape)
    requires Near(scan, code, shape) && Near(scan, other, shape)
    ensures data == otherData
  {
    hide Near, ReadBlock, Split, Divide, Divisor, Join;
    forall j | 0 <= j < shape.blocks ensures Split(data, shape, 0)[j] == Split(otherData, shape, 0)[j] {
      BlockTolerates(scan, code, data, other, otherData, shape, j);
    }
    assert Split(data, shape, 0) == Split(otherData, shape, 0);
  }

  /** Tolerated damage: however the codewords of a symbol were damaged, as long as in each block at
      most half as many are wrong as it has for error correction, no symbol of that version and
      level with other contents is as near. */
  lemma DamageTolerated(scan: Poly, d: Drawing, contents: seq<Content>, other: Drawing, others: seq<Content>, t: Tables)
    requires 1 <= d.version <= 40 && Fitting(t, d.version, d.level) && t.shape(d.version, d.level).Length() < 255
    requires other.version == d.version && other.level == d.level
    requires d.mask < 8 && Square(d.modules, |t.functions(d.version)|)
    requires other.mask < 8 && Square(other.modules, |t.functions(d.version)|)
    requires (forall c :: c in contents ==> Encodable(c)) && (forall c :: c in others ==> Encodable(c))
    requires Carries(d, t, contents) && Carries(other, t, others)
    requires Near(scan, Codewords(d, t), t.shape(d.version, d.level))
    requires Near(scan, Codewords(other, t), t.shape(d.version, d.level))
    ensures contents == others
  {
    hide Near, Written, Recovers, TotalBits, EncodeAll, Codewords, Decode, Unpack, Encodable, Room, Formats;
    var shape := t.shape(d.version, d.level);
    var data :| Written(Encoded(d.version, d.level, data), EncodeAll(contents), t.capacity)
                && Recovers(Codewords(d, t), data, shape);
    var otherData :| Written(Encoded(d.version, d.level, otherData), EncodeAll(others), t.capacity)
                     && Recovers(Codewords(other, t), otherData, shape);
    WrittenSize(Encoded(d.version, d.level, data), contents, t.capacity);
    WrittenSize(Encoded(d.version, d.level, otherData), others, t.capacity);
    DataLengthTotal(shape);
    DataTolerates(scan, Codewords(d, t), data, Codewords(other, t), otherData, shape);
    CodewordsRoundTrip(contents, Encoded(d.version, d.level, data), t.capacity);
    CodewordsRoundTrip(others, Encoded(d.version, d.level, otherData), t.capacity);
  }

  lemma WrittenSize(e: Encoded, contents: seq<Content>, capacity: Capacity)
    requires 1 <= e.version <= 40 && forall c :: c in contents ==> Encodable(c)
    requires Written(e, EncodeAll(contents), capacity)
    ensures |e.codewords| == capacity(e.version, e.level)
  {
  }

  lemma BoostedFits(segs: seq<Segment>, version: nat, wanted: Ecc, level: Ecc, boost: bool, capacity: Capacity)
    requires 1 <= version <= 40 && Boosted(segs, version, wanted, level, boost, capacity)
    ensures Fits(segs, version, level, capacity)
  {
  }

  /** encode_segments as a whole, and the symbol round trip: reading the finished symbol returns
      the contents. */
  method EncodeSymbol(
      contents: seq<Content>, ecl: Ecc, minVersion: int, maxVersion: int, wanted: int, boost: bool, t: Tables, penalty: Penalty)
      returns (r: Result<Drawing, Error>)
    requires forall c :: c in contents ==> Encodable(c)
    requires forall v: nat, l :: 1 <= v <= 40 ==> Fitting(t, v, l)
    requires forall v: nat :: 1 <= v <= 40 ==> Scores(penalty, |t.functions(v)|)
    ensures r == Failure(InvalidValue) <==> !(1 <= minVersion <= maxVersion <= 40 && -1 <= wanted <= 7)
    ensures r == Failure(DataTooLong) ==>
              forall v :: minVersion <= v <= maxVersion ==> !Fits(EncodeAll(contents), v, ecl, t.capacity)
    ensures r.Success? ==>
              && minVersion <= r.value.version <= maxVersion
              && (forall v :: minVersion <= v < r.value.version ==> !Fits(EncodeAll(contents), v, ecl, t.capacity))
              && Boosted(EncodeAll(contents), r.value.version, ecl, r.value.level, boost, t.capacity)
              && r.value.mask < 8 && (wanted != -1 ==> r.value.mask == wanted)
              && Square(r.value.modules, |t.functions(r.value.version)|)
              && Carries(r.value, t, contents)
              && Scanned(r.value, t) == Some(contents)
  {
    hide Fits, Boosted, Written, TotalBits, EncodeAll, Decode, Unpack, Data, Read, Recovers, Order, Room, Scores, Carries;
    EncodedModes(contents);
    var encoded := EncodeSegments(EncodeAll(contents), ecl, minVersion, maxVersion, wanted, boost, t.capacity);
    if encoded.Failure? {
      return Failure(encoded.error);
    }
    var e := encoded.value;
    BoostedFits(EncodeAll(contents), e.version, ecl, e.level, boost, t.capacity);
    WrittenFits(e, EncodeAll(contents), t.capacity);
    var shape := t.shape(e.version, e.level);
    assert Fitting(t, e.version, e.level);
    RoomSquare(t.functions(e.version), shape.raw);
    var symbol := new Symbol(t.blank(e.version), t.functions(e.version));
    var mask := symbol.Encode(e.codewords, shape, wanted, t.formats(e.version, e.level), penalty);
    ghost var code := Read(symbol.modules, mask.value, t.functions(e.version), shape.raw);
    RecoversSize(code, e.codewords, shape);
    ContentsBack(contents, e, t.capacity, code, shape);
    var drawing := Drawing(e.version, e.level, mask.value, symbol.modules);
    WrittenCarries(drawing, t, contents, e);
    return Success(drawing);
  }

  lemma {:induction false} EncodedModes(contents: seq<Content>)
    requires forall c :: c in contents ==> Encodable(c)
    ensures forall s :: s in EncodeAll(contents) ==> ModeBits(s.mode) < 16
  {
    if contents != [] { EncodedModes(contents[1..]); }
  }

  lemma WrittenFits(e: Encoded, segs: seq<Segment>, capacity: Capacity)
    requires 1 <= e.version <= 40 && Written(e, segs, capacity) && Fits(segs, e.version, e.level, capacity)
    ensures |e.codewords| == capacity(e.version, e.level) && TotalBits(segs, e.version).Some?
  {
  }

  lemma RecoversSize(code: Poly, data: Poly, shape: Shape)
    requires Recovers(code, data, shape)
    ensures |code| == shape.raw
  {
  }

  lemma RoomSquare(functions: Grid, codewords: nat)
    requires Room(functions, codewords)
    ensures |functions| >= 9 && |functions| % 2 == 1 && Square(functions, |functions|)
  {
  }
}
