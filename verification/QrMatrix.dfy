/** The module grid of a QR code: the zigzag placement of the codewords and the masking
    (sections 7.7 and 7.8 of ISO/IEC 18004:2015), as qrcodegen.py does them in place. */
module QrMatrix {

  datatype Cell = Cell(x: nat, y: nat)

  type Grid = seq<seq<bool>>

  predicate Square(g: Grid, size: nat) {
    |g| == size && forall y :: 0 <= y < size ==> |g[y]| == size
  }

  predicate Inside(c: Cell, size: nat) {
    c.x < size && c.y < size
  }

  function At(g: Grid, c: Cell): bool
    requires Square(g, |g|) && Inside(c, |g|)
  {
    g[c.y][c.x]
  }

  function Set(g: Grid, c: Cell, dark: bool): (r: Grid)
    requires Square(g, |g|) && Inside(c, |g|)
    ensures Square(r, |g|) && |r| == |g|
  {
    g[c.y := g[c.y][c.x := dark]]
  }

  // The scan.

  /** The right column of a pair; from the vertical timing pattern on, pairs are shifted left. */
  function Right(r: nat): nat
    requires r >= 2
  {
    if r <= 6 then r - 1 else r
  }

  function PairCell(size: nat, right: nat, k: nat): Cell
    requires right >= 1 && k < 2 * size
  {
    Cell(right - k % 2, if (right + 1) / 2 % 2 == 0 then size - 1 - k / 2 else k / 2)
  }

  function PairCells(size: nat, right: nat): (cells: seq<Cell>)
    requires right >= 1
    ensures |cells| == 2 * size
  {
    seq(2 * size, k requires 0 <= k < 2 * size => PairCell(size, right, k))
  }

  /** The column pairs from r down to the left edge. */
  function Scan(size: nat, r: nat): seq<Cell> {
    if r < 2 then [] else PairCells(size, Right(r)) + Scan(size, r - 2)
  }

  predicate InScan(c: Cell, size: nat, r: nat) {
    c.y < size && c.x != 6 && r >= 2 && c.x <= Right(r)
  }

  lemma PairMember(size: nat, right: nat, c: Cell)
    requires right >= 1
    ensures c in PairCells(size, right) <==> c.y < size && (c.x == right || c.x == right - 1)
  {
    var cells := PairCells(size, right);
    if c.y < size && (c.x == right || c.x == right - 1) {
      var v := if (right + 1) / 2 % 2 == 0 then size - 1 - c.y else c.y;
      var k := 2 * v + (right - c.x);
      assert k / 2 == v && k % 2 == right - c.x;
      assert cells[k] == c;
    }
    if c in cells {
      var k :| 0 <= k < 2 * size && cells[k] == c;
    }
  }

  lemma PairDistinct(size: nat, right: nat, i: nat, j: nat)
    requires right >= 1 && i < j < 2 * size
    ensures PairCells(size, right)[i] != PairCells(size, right)[j]
  {
    if i / 2 == j / 2 { assert i % 2 != j % 2; }
  }

  /** The scan reaches exactly the modules outside column 6. */
  lemma {:induction false} ScanCovers(size: nat, r: nat, c: Cell)
    requires r % 2 == 0
    ensures c in Scan(size, r) <==> InScan(c, size, r)
  {
    if r >= 2 {
      PairMember(size, Right(r), c);
      ScanCovers(size, r - 2, c);
    }
  }

  /** It visits none of them twice. */
  lemma {:induction false} ScanDistinct(size: nat, r: nat, i: nat, j: nat)
    requires r % 2 == 0 && i < j < |Scan(size, r)|
    ensures Scan(size, r)[i] != Scan(size, r)[j]
  {
    hide PairCell, InScan;
    var n, rest := 2 * size, Scan(size, r - 2);
    if j < n {
      PairDistinct(size, Right(r), i, j);
    } else if i >= n {
      ScanDistinct(size, r - 2, i - n, j - n);
    } else {
      var c, d := Scan(size, r)[i], Scan(size, r)[j];
      assert c in PairCells(size, Right(r)) && d in rest;
      PairMember(size, Right(r), c);
      ScanCovers(size, r - 2, d);
      LaterColumns(d, size, r);
    }
  }

  lemma LaterColumns(d: Cell, size: nat, r: nat)
    requires r >= 2 && r % 2 == 0 && InScan(d, size, r - 2)
    ensures d.x < Right(r) - 1
  {
  }

  /** The cells of a scan that carry data. */
  function Free(cells: seq<Cell>, functions: Grid): seq<Cell>
    requires Square(functions, |functions|) && forall c :: c in cells ==> Inside(c, |functions|)
  {
    if cells == [] then []
    else
      var c := cells[|cells| - 1];
      Free(cells[..|cells| - 1], functions) + (if At(functions, c) then [] else [c])
  }

  predicate Distinct(cells: seq<Cell>) {
    forall i, j :: 0 <= i < j < |cells| ==> cells[i] != cells[j]
  }

  lemma {:induction false} FreeMember(cells: seq<Cell>, functions: Grid, c: Cell)
    requires Square(functions, |functions|) && forall c :: c in cells ==> Inside(c, |functions|)
    ensures c in Free(cells, functions) <==> c in cells && !At(functions, c)
  {
    if cells != [] {
      var n := |cells| - 1;
      FreeMember(cells[..n], functions, c);
      assert cells == cells[..n] + [cells[n]];
    }
  }

  lemma {:induction false} FreeDistinct(cells: seq<Cell>, functions: Grid)
    requires Square(functions, |functions|) && forall c :: c in cells ==> Inside(c, |functions|)
    requires Distinct(cells)
    ensures Distinct(Free(cells, functions))
  {
    if cells != [] {
      var n := |cells| - 1;
      FreeDistinct(cells[..n], functions);
      FreeMember(cells[..n], functions, cells[n]);
    }
  }

  // Drawing.

  /** The grid after drawing the first n bits on the first n cells. */
  function Painted(g: Grid, cells: seq<Cell>, bits: seq<bool>, n: nat): (r: Grid)
    requires Square(g, |g|) && forall c :: c in cells ==> Inside(c, |g|)
    requires n <= |cells| && n <= |bits|
    ensures Square(r, |g|) && |r| == |g|
  {
    if n == 0 then g else Set(Painted(g, cells, bits, n - 1), cells[n - 1], bits[n - 1])
  }

  lemma SetAt(g: Grid, c: Cell, dark: bool, d: Cell)
    requires Square(g, |g|) && Inside(c, |g|) && Inside(d, |g|)
    ensures At(Set(g, c, dark), d) == if c == d then dark else At(g, d)
  {
  }

  lemma {:induction false} PaintedAt(g: Grid, cells: seq<Cell>, bits: seq<bool>, n: nat, k: nat)
    requires Square(g, |g|) && forall c :: c in cells ==> Inside(c, |g|)
    requires n <= |cells| && n <= |bits| && Distinct(cells) && k < n
    ensures At(Painted(g, cells, bits, n), cells[k]) == bits[k]
  {
    SetAt(Painted(g, cells, bits, n - 1), cells[n - 1], bits[n - 1], cells[k]);
    if k < n - 1 { PaintedAt(g, cells, bits, n - 1, k); }
  }

  lemma {:induction false} PaintedElsewhere(g: Grid, cells: seq<Cell>, bits: seq<bool>, n: nat, c: Cell)
    requires Square(g, |g|) && forall c :: c in cells ==> Inside(c, |g|)
    requires n <= |cells| && n <= |bits| && Inside(c, |g|) && c !in cells
    ensures At(Painted(g, cells, bits, n), c) == At(g, c)
  {
    if n > 0 { PaintedElsewhere(g, cells, bits, n - 1, c); }
  }

  lemma {:induction false} PaintedPrefix(g: Grid, cells: seq<Cell>, more: seq<Cell>, bits: seq<bool>, n: nat)
    requires Square(g, |g|) && forall c :: c in cells + more ==> Inside(c, |g|)
    requires n <= |cells| && n <= |bits|
    ensures (forall c :: c in cells ==> Inside(c, |g|))
    ensures Painted(g, cells + more, bits, n) == Painted(g, cells, bits, n)
  {
    assert forall c :: c in cells ==> c in cells + more;
    if n > 0 { PaintedPrefix(g, cells, more, bits, n - 1); }
  }

  // Masking.

  function Pattern(mask: nat, x: nat, y: nat): nat
    requires mask < 8
  {
    if mask == 0 then (x + y) % 2
    else if mask == 1 then y % 2
    else if mask == 2 then x % 3
    else if mask == 3 then (x + y) % 3
    else if mask == 4 then (x / 3 + y / 2) % 2
    else if mask == 5 then x * y % 2 + x * y % 3
    else if mask == 6 then (x * y % 2 + x * y % 3) % 2
    else ((x + y) % 2 + x * y % 3) % 2
  }

  predicate Inverted(mask: nat, functions: Grid, x: nat, y: nat)
    requires mask < 8 && y < |functions| && x < |functions[y]|
  {
    Pattern(mask, x, y) == 0 && !functions[y][x]
  }

  predicate SameShape(g: Grid, h: Grid) {
    |g| == |h| && forall y :: 0 <= y < |g| ==> |g[y]| == |h[y]|
  }

  /** h is g under the mask. */
  predicate MaskedBy(g: Grid, h: Grid, mask: nat, functions: Grid)
    requires mask < 8
  {
    && SameShape(g, h) && SameShape(g, functions)
    && forall y, x :: 0 <= y < |g| && 0 <= x < |g[y]| ==> h[y][x] == (g[y][x] != Inverted(mask, functions, x, y))
  }

  function Masked(g: Grid, mask: nat, functions: Grid): (h: Grid)
    requires mask < 8 && SameShape(g, functions)
    ensures MaskedBy(g, h, mask, functions)
  {
    seq(|g|, y requires 0 <= y < |g| =>
      seq(|g[y]|, x requires 0 <= x < |g[y]| => g[y][x] != Inverted(mask, functions, x, y)))
  }

  lemma MaskedOnly(g: Grid, h: Grid, mask: nat, functions: Grid)
    requires mask < 8 && MaskedBy(g, h, mask, functions)
    ensures h == Masked(g, mask, functions)
  {
    hide Pattern;
    var m := Masked(g, mask, functions);
    forall y | 0 <= y < |g| ensures h[y] == m[y] {
      assert |h[y]| == |m[y]|;
    }
  }

  /** Masking twice with the same mask changes nothing. */
  lemma MaskCancels(g: Grid, h: Grid, i: Grid, mask: nat, functions: Grid)
    requires mask < 8 && MaskedBy(g, h, mask, functions) && MaskedBy(h, i, mask, functions)
    ensures i == g
  {
    hide Pattern;
    forall y | 0 <= y < |g| ensures i[y] == g[y] {
      assert |i[y]| == |g[y]|;
    }
  }

  /** Two grids agree on all modules outside the set. */
  ghost predicate Agrees(g: Grid, h: Grid, cells: set<Cell>) {
    && Square(g, |g|) && Square(h, |g|)
    && forall c: Cell :: Inside(c, |g|) && c !in cells ==> At(g, c) == At(h, c)
  }

  /** Masking disturbs no agreement. */
  lemma MaskedAgrees(g: Grid, h: Grid, maskedG: Grid, maskedH: Grid, mask: nat, functions: Grid, cells: set<Cell>)
    requires mask < 8 && Agrees(g, h, cells)
    requires MaskedBy(g, maskedG, mask, functions) && MaskedBy(h, maskedH, mask, functions)
    ensures Agrees(maskedG, maskedH, cells)
  {
    hide Pattern;
  }

  /** The data modules of two grids agree. */
  predicate SameData(g: Grid, h: Grid, functions: Grid) {
    && SameShape(g, h) && SameShape(g, functions)
    && forall y, x :: 0 <= y < |g| && 0 <= x < |g[y]| && !functions[y][x] ==> g[y][x] == h[y][x]
  }
}
