/** Splitting data into blocks, appending each block's error correction, and interleaving the
    blocks' bytes (section 7.6 of ISO/IEC 18004:2015; _add_ecc_and_interleave of qrcodegen.py).
    The numbers that the source takes from its tables are the shape of a code. */
module QrBlocks {
  import opened ReedSolomon

  /** Codewords in all, blocks, and error correction codewords in each block. */
  datatype Shape = Shape(raw: nat, blocks: nat, ecc: nat) {
    predicate Valid() {
      blocks >= 1 && 1 <= ecc <= 255 && Length() > ecc
    }

    /** The length of a short block. */
    function Length(): nat
      requires blocks >= 1
    {
      raw / blocks
    }

    /** The blocks that are one byte shorter than the others; they come first. */
    function ShortBlocks(): nat
      requires blocks >= 1
    {
      blocks - raw % blocks
    }

    function ShortData(): nat
      requires Valid()
    {
      Length() - ecc
    }

    function DataBytes(j: nat): nat
      requires Valid()
    {
      ShortData() + (if j < ShortBlocks() then 0 else 1)
    }
  }

  function Take(data: Poly, n: nat): Poly {
    if n <= |data| then data[..n] else data
  }

  function Drop(data: Poly, n: nat): Poly {
    if n <= |data| then data[n..] else []
  }

  /** The data of blocks j, j+1, ... */
  function Split(data: Poly, shape: Shape, j: nat): (parts: seq<Poly>)
    requires shape.Valid() && j <= shape.blocks
    ensures |parts| == shape.blocks - j
    decreases shape.blocks - j
  {
    if j == shape.blocks then []
    else [Take(data, shape.DataBytes(j))] + Split(Drop(data, shape.DataBytes(j)), shape, j + 1)
  }

  function Join(parts: seq<Poly>): Poly {
    if parts == [] then [] else parts[0] + Join(parts[1..])
  }

  /** How many data bytes blocks j, j+1, ... take. */
  function DataLength(shape: Shape, j: nat): nat
    requires shape.Valid() && j <= shape.blocks
    decreases shape.blocks - j
  {
    if j == shape.blocks then 0 else shape.DataBytes(j) + DataLength(shape, j + 1)
  }

  lemma {:induction false} SplitJoins(data: Poly, shape: Shape, j: nat)
    requires shape.Valid() && j <= shape.blocks && |data| == DataLength(shape, j)
    ensures Join(Split(data, shape, j)) == data
    decreases shape.blocks - j
  {
    if j < shape.blocks {
      var n := shape.DataBytes(j);
      SplitJoins(data[n..], shape, j + 1);
      assert Split(data, shape, j)[1..] == Split(data[n..], shape, j + 1);
    }
  }

  lemma {:induction false} PartSize(data: Poly, shape: Shape, j: nat, i: nat)
    requires shape.Valid() && j <= i < shape.blocks && |data| == DataLength(shape, j)
    ensures |Split(data, shape, j)[i - j]| == shape.DataBytes(i)
    decreases shape.blocks - j
  {
    if j < i {
      var n := shape.DataBytes(j);
      PartSize(data[n..], shape, j + 1, i);
      assert Split(data, shape, j)[i - j] == Split(data[n..], shape, j + 1)[i - (j + 1)];
    }
  }

  /** The length that the source asserts of its data is exactly what the blocks take. */
  lemma {:induction false} DataLengthTail(shape: Shape, j: nat)
    requires shape.Valid() && j <= shape.blocks
    ensures DataLength(shape, j)
         == (shape.blocks - j) * shape.ShortData()
            + (if j <= shape.ShortBlocks() then shape.blocks - shape.ShortBlocks() else shape.blocks - j)
    decreases shape.blocks - j
  {
    if j < shape.blocks {
      DataLengthTail(shape, j + 1);
      Distribute(shape.blocks - j - 1, shape.ShortData());
    }
  }

  lemma Distribute(a: nat, b: nat)
    ensures (a + 1) * b == a * b + b
  {
  }

  lemma DataLengthTotal(shape: Shape)
    requires shape.Valid()
    ensures DataLength(shape, 0) + shape.ecc * shape.blocks == shape.raw
  {
    DataLengthTail(shape, 0);
    Shared(shape);
    assert shape.blocks * (shape.Length() - shape.ecc) + shape.ecc * shape.blocks == shape.blocks * shape.Length();
  }

  lemma Shared(shape: Shape)
    requires shape.blocks >= 1
    ensures shape.Length() * shape.blocks + shape.raw % shape.blocks == shape.raw
    ensures 1 <= shape.ShortBlocks() <= shape.blocks
  {
  }

  /** A block as the source stores it: short blocks are padded to a common length. */
  function Padded(part: Poly, divisor: Poly, isShort: bool): Poly
    requires divisor != []
  {
    part + (if isShort then [0] else []) + Divide(part, divisor)
  }

  // Interleaving.

  /** Where the padding byte of a short block stands, the row that short blocks skip. */
  function First(shape: Shape, i: nat): nat
    requires shape.Valid()
  {
    if i == shape.ShortData() then shape.ShortBlocks() else 0
  }

  function Row(blocks: seq<Poly>, i: nat, from: nat): Poly
    requires from <= |blocks| && forall b :: b in blocks ==> i < |b|
  {
    seq(|blocks| - from, k requires 0 <= k < |blocks| - from => blocks[from + k][i])
  }

  ghost predicate Stored(blocks: seq<Poly>, shape: Shape) {
    && shape.Valid() && |blocks| == shape.blocks
    && forall b :: b in blocks ==> |b| == shape.Length() + 1
  }

  function Rows(blocks: seq<Poly>, shape: Shape, i: nat): Poly
    requires Stored(blocks, shape) && i <= shape.Length() + 1
  {
    if i == 0 then [] else Rows(blocks, shape, i - 1) + Row(blocks, i - 1, First(shape, i - 1))
  }

  function RowStart(shape: Shape, i: nat): nat
    requires shape.Valid()
  {
    if i == 0 then 0 else RowStart(shape, i - 1) + shape.blocks - First(shape, i - 1)
  }

  /** Where byte i of block j stands in the interleaved code. */
  function Position(shape: Shape, i: nat, j: nat): nat
    requires shape.Valid() && First(shape, i) <= j
  {
    RowStart(shape, i) + j - First(shape, i)
  }

  lemma {:induction false} RowsLength(blocks: seq<Poly>, shape: Shape, i: nat)
    requires Stored(blocks, shape) && i <= shape.Length() + 1
    ensures |Rows(blocks, shape, i)| == RowStart(shape, i)
  {
    if i > 0 { RowsLength(blocks, shape, i - 1); }
  }

  lemma {:induction false} RowStartTotal(shape: Shape, i: nat)
    requires shape.Valid()
    ensures RowStart(shape, i) == i * shape.blocks - (if i > shape.ShortData() then shape.ShortBlocks() else 0)
  {
    if i > 0 {
      RowStartTotal(shape, i - 1);
      Distribute(i - 1, shape.blocks);
    }
  }

  /** The code holds every byte of every block at its position. */
  lemma {:induction false} RowsAt(blocks: seq<Poly>, shape: Shape, n: nat, i: nat, j: nat)
    requires Stored(blocks, shape) && i < n <= shape.Length() + 1
    requires First(shape, i) <= j < shape.blocks
    ensures Position(shape, i, j) < |Rows(blocks, shape, n)|
    ensures Rows(blocks, shape, n)[Position(shape, i, j)] == blocks[j][i]
  {
    RowsLength(blocks, shape, n - 1);
    if i < n - 1 { RowsAt(blocks, shape, n - 1, i, j); }
  }

  lemma AllRows(shape: Shape)
    requires shape.Valid()
    ensures RowStart(shape, shape.Length() + 1) == shape.raw
  {
    RowStartTotal(shape, shape.Length() + 1);
    Distribute(shape.Length(), shape.blocks);
    Shared(shape);
  }

  /** The interleaved code has exactly the code's number of codewords. */
  lemma CodeLength(blocks: seq<Poly>, shape: Shape)
    requires Stored(blocks, shape)
    ensures |Rows(blocks, shape, shape.Length() + 1)| == shape.raw
  {
    RowsLength(blocks, shape, shape.Length() + 1);
    AllRows(shape);
  }

  /** The index of byte i of block j among the stored bytes: short blocks skip their padding. */
  function StoredIndex(shape: Shape, i: nat, j: nat): nat
    requires shape.Valid()
  {
    if j < shape.ShortBlocks() && i >= shape.ShortData() then i + 1 else i
  }

  /** What a reader recovers of block j: its data and its error correction, without padding. */
  function ReadBlock(code: Poly, shape: Shape, j: nat): Poly
    requires shape.Valid() && j < shape.blocks
    requires |code| == shape.raw
  {
    seq(shape.DataBytes(j) + shape.ecc,
        i requires 0 <= i < shape.DataBytes(j) + shape.ecc =>
          PositionInside(shape, StoredIndex(shape, i, j), j);
          code[Position(shape, StoredIndex(shape, i, j), j)])
  }

  lemma {:induction false} RowStartGrows(shape: Shape, i: nat, n: nat)
    requires shape.Valid() && i <= n
    ensures RowStart(shape, i) <= RowStart(shape, n)
  {
    Shared(shape);
    if i < n { RowStartGrows(shape, i, n - 1); }
  }

  lemma PositionInside(shape: Shape, i: nat, j: nat)
    requires shape.Valid() && j < shape.blocks && i <= shape.Length() && First(shape, i) <= j
    ensures Position(shape, i, j) < shape.raw
  {
    hide RowStart;
    AllRows(shape);
    RowStartGrows(shape, i + 1, shape.Length() + 1);
    NextRow(shape, i);
  }

  lemma NextRow(shape: Shape, i: nat)
    requires shape.Valid()
    ensures RowStart(shape, i + 1) == RowStart(shape, i) + shape.blocks - First(shape, i)
  {
  }

  // The method and its round trip.

  method AddEccAndInterleave(data: Poly, shape: Shape) returns (code: Poly)
    requires shape.Valid() && |data| + shape.ecc * shape.blocks == shape.raw
    ensures |code| == shape.raw
    ensures Recovers(code, data, shape)
  {
    DataLengthTotal(shape);
    var computed := ComputeDivisor(shape.ecc);
    var divisor := computed.value[..];
    var blocks := MakeBlocks(data, shape, divisor);
    code := Interleave(blocks, shape);
    CodeLength(blocks, shape);
    RecoversAll(blocks, data, shape);
  }

  /** The loop that cuts the data and appends each part's error correction. */
  method MakeBlocks(data: Poly, shape: Shape, divisor: Poly) returns (blocks: seq<Poly>)
    requires shape.Valid() && |data| == DataLength(shape, 0) && |divisor| == shape.ecc
    ensures |blocks| == shape.blocks
    ensures forall j :: 0 <= j < shape.blocks ==>
              blocks[j] == Padded(Split(data, shape, 0)[j], divisor, j < shape.ShortBlocks())
    ensures Stored(blocks, shape)
  {
    hide Divide, Split, DataLength, Padded, Stored;
    assert Split(data, shape, 0)[0..] == Split(data, shape, 0);
    blocks := [];
    var rest := data;
    for i := 0 to shape.blocks
      invariant |blocks| == i
      invariant Split(data, shape, 0)[i..] == Split(rest, shape, i)
      invariant |rest| == DataLength(shape, i)
      invariant forall j :: 0 <= j < i ==>
                  blocks[j] == Padded(Split(data, shape, 0)[j], divisor, j < shape.ShortBlocks())
    {
      var n := shape.Length() - shape.ecc + (if i < shape.ShortBlocks() then 0 else 1);
      NextPart(data, rest, shape, i);
      var dat := rest[..n];
      rest := rest[n..];
      var ecc := ComputeRemainder(dat, divisor);
      PaddedMeans(dat, divisor, i < shape.ShortBlocks());
      if i < shape.ShortBlocks() {
        dat := dat + [0];
      }
      blocks := blocks + [dat + ecc];
    }
    StoredBlocks(blocks, data, shape, divisor);
  }

  lemma PaddedMeans(part: Poly, divisor: Poly, isShort: bool)
    requires divisor != []
    ensures Padded(part, divisor, isShort) == if isShort then part + [0] + Divide(part, divisor) else part + Divide(part, divisor)
  {
    hide Divide;
    assert part + [] + Divide(part, divisor) == part + Divide(part, divisor);
  }

  lemma StoredBlocks(blocks: seq<Poly>, data: Poly, shape: Shape, divisor: Poly)
    requires shape.Valid() && |data| == DataLength(shape, 0) && |divisor| == shape.ecc && |blocks| == shape.blocks
    requires forall j :: 0 <= j < shape.blocks ==>
               blocks[j] == Padded(Split(data, shape, 0)[j], divisor, j < shape.ShortBlocks())
    ensures Stored(blocks, shape)
  {
    hide Divide, Split;
    forall j | 0 <= j < |blocks| ensures |blocks[j]| == shape.Length() + 1 {
      PartSize(data, shape, 0, j);
    }
  }

  lemma NextPart(data: Poly, rest: Poly, shape: Shape, i: nat)
    requires shape.Valid() && i < shape.blocks && |rest| == DataLength(shape, i)
    requires Split(data, shape, 0)[i..] == Split(rest, shape, i)
    ensures shape.DataBytes(i) <= |rest| && |rest[shape.DataBytes(i)..]| == DataLength(shape, i + 1)
    ensures Split(data, shape, 0)[i] == rest[..shape.DataBytes(i)]
    ensures Split(data, shape, 0)[i + 1..] == Split(rest[shape.DataBytes(i)..], shape, i + 1)
  {
    assert Split(data, shape, 0)[i] == Split(data, shape, 0)[i..][0];
    assert Split(data, shape, 0)[i..][1..] == Split(data, shape, 0)[i + 1..];
  }

  method Interleave(blocks: seq<Poly>, shape: Shape) returns (result: Poly)
    requires Stored(blocks, shape)
    ensures result == Rows(blocks, shape, shape.Length() + 1)
  {
    result := [];
    for i := 0 to shape.Length() + 1
      invariant result == Rows(blocks, shape, i)
    {
      var row := InterleaveRow(blocks, shape, i);
      result := result + row;
    }
  }

  /** Byte i of every block, where short blocks skip their padding. */
  method InterleaveRow(blocks: seq<Poly>, shape: Shape, i: nat) returns (row: Poly)
    requires Stored(blocks, shape) && i <= shape.Length()
    ensures First(shape, i) <= |blocks| && row == Row(blocks, i, First(shape, i))
  {
    Shared(shape);
    row := [];
    for j := 0 to |blocks|
      invariant row == if j <= First(shape, i) then [] else Row(blocks, i, First(shape, i))[..j - First(shape, i)]
    {
      if i != shape.Length() - shape.ecc || j >= shape.ShortBlocks() {
        assert blocks[j] in blocks;
        row := row + [blocks[j][i]];
      }
    }
  }

  /** Every block that a reader recovers is a part of the data and that part's remainder, and
      the parts make up the data. */
  ghost predicate Recovers(code: Poly, data: Poly, shape: Shape) {
    && shape.Valid() && |code| == shape.raw
    && Join(Split(data, shape, 0)) == data
    && forall j :: 0 <= j < shape.blocks ==>
         ReadBlock(code, shape, j) == Split(data, shape, 0)[j] + Divide(Split(data, shape, 0)[j], Divisor(shape.ecc))
  }

  lemma RecoversAll(blocks: seq<Poly>, data: Poly, shape: Shape)
    requires shape.Valid() && Stored(blocks, shape) && |blocks| == shape.blocks
    requires |data| == DataLength(shape, 0)
    requires forall j :: 0 <= j < shape.blocks ==>
               blocks[j] == Padded(Split(data, shape, 0)[j], Divisor(shape.ecc), j < shape.ShortBlocks())
    ensures Recovers(Rows(blocks, shape, shape.Length() + 1), data, shape)
  {
    hide Rows, ReadBlock, Divide, Divisor, Split, Padded, Stored, Join;
    SplitJoins(data, shape, 0);
    CodeLength(blocks, shape);
    forall j | 0 <= j < shape.blocks
      ensures ReadBlock(Rows(blocks, shape, shape.Length() + 1), shape, j)
           == Split(data, shape, 0)[j] + Divide(Split(data, shape, 0)[j], Divisor(shape.ecc))
    {
      PartSize(data, shape, 0, j);
      RecoversBlock(blocks, Split(data, shape, 0)[j], shape, Divisor(shape.ecc), j);
    }
  }

  lemma RecoversBlock(blocks: seq<Poly>, part: Poly, shape: Shape, divisor: Poly, j: nat)
    requires Stored(blocks, shape) && |divisor| == shape.ecc && j < shape.blocks
    requires |part| == shape.DataBytes(j)
    requires blocks[j] == Padded(part, divisor, j < shape.ShortBlocks())
    requires |Rows(blocks, shape, shape.Length() + 1)| == shape.raw
    ensures ReadBlock(Rows(blocks, shape, shape.Length() + 1), shape, j) == part + Divide(part, divisor)
  {
    hide Divide, Rows, Position;
    var code := Rows(blocks, shape, shape.Length() + 1);
    assert |ReadBlock(code, shape, j)| == |part + Divide(part, divisor)|;
    forall i | 0 <= i < shape.DataBytes(j) + shape.ecc
      ensures ReadBlock(code, shape, j)[i] == (part + Divide(part, divisor))[i]
    {
      RecoversAt(blocks, part, shape, divisor, j, i);
    }
  }

  lemma RecoversAt(blocks: seq<Poly>, part: Poly, shape: Shape, divisor: Poly, j: nat, i: nat)
    requires Stored(blocks, shape) && |divisor| == shape.ecc && j < shape.blocks
    requires |part| == shape.DataBytes(j) && i < shape.DataBytes(j) + shape.ecc
    requires blocks[j] == Padded(part, divisor, j < shape.ShortBlocks())
    ensures var k, code := StoredIndex(shape, i, j), Rows(blocks, shape, shape.Length() + 1);
            && First(shape, k) <= j && Position(shape, k, j) < |code|
            && code[Position(shape, k, j)] == (part + Divide(part, divisor))[i]
  {
    hide Divide, Rows, Position;
    RowsAt(blocks, shape, shape.Length() + 1, StoredIndex(shape, i, j), j);
  }
}
