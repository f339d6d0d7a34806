/** The drawing part of qrcodegen.py's QrCode constructor, and what a reader gets back from it.
    The function patterns, the format bits and the penalty rule are given: a set of function
    modules, the dots that each mask's format bits put on some of them, and any function of the
    symbol. */
module QrCode {
  import opened Bits
  import opened BitStream
  import opened ReedSolomon
  import opened QrBlocks
  import opened QrMatrix
  import opened Wrappers

  datatype Dot = Dot(cell: Cell, dark: bool)

  predicate OnFunctions(dots: seq<Dot>, functions: Grid)
    requires Square(functions, |functions|)
  {
    forall d :: d in dots ==> Inside(d.cell, |functions|) && At(functions, d.cell)
  }

  /** The grid after these dots, the later ones over the earlier ones. */
  function Dotted(g: Grid, dots: seq<Dot>): (r: Grid)
    requires Square(g, |g|) && forall d :: d in dots ==> Inside(d.cell, |g|)
    ensures Square(r, |g|) && |r| == |g|
  {
    if dots == [] then g
    else
      var n := |dots| - 1;
      Set(Dotted(g, dots[..n]), dots[n].cell, dots[n].dark)
  }

  ghost function Cells(dots: seq<Dot>): set<Cell> {
    set d | d in dots :: d.cell
  }

  /** Dots hide every difference under them. */
  lemma {:induction false} DotsHide(g: Grid, h: Grid, dots: seq<Dot>, cells: set<Cell>)
    requires Agrees(g, h, cells + Cells(dots)) && forall d :: d in dots ==> Inside(d.cell, |g|)
    ensures Agrees(Dotted(g, dots), Dotted(h, dots), cells)
  {
    if dots == [] {
      assert cells + Cells(dots) == cells;
    } else {
      var n := |dots| - 1;
      var d := dots[n];
      assert dots == dots[..n] + [d];
      assert Cells(dots) == Cells(dots[..n]) + {d.cell};
      assert cells + Cells(dots) == (cells + {d.cell}) + Cells(dots[..n]);
      DotsHide(g, h, dots[..n], cells + {d.cell});
      var before, other := Dotted(g, dots[..n]), Dotted(h, dots[..n]);
      forall c: Cell | Inside(c, |g|) && c !in cells
        ensures At(Dotted(g, dots), c) == At(Dotted(h, dots), c)
      {
        SetAt(before, d.cell, d.dark, c);
        SetAt(other, d.cell, d.dark, c);
      }
    }
  }

  lemma {:induction false} DotsOnly(g: Grid, dots: seq<Dot>)
    requires Square(g, |g|) && forall d :: d in dots ==> Inside(d.cell, |g|)
    ensures Agrees(g, Dotted(g, dots), Cells(dots))
  {
    if dots != [] {
      var n := |dots| - 1;
      DotsOnly(g, dots[..n]);
      assert dots[n].cell in Cells(dots) && Cells(dots[..n]) <= Cells(dots);
      forall c: Cell | Inside(c, |g|) && c !in Cells(dots) ensures At(g, c) == At(Dotted(g, dots), c) {
        SetAt(Dotted(g, dots[..n]), dots[n].cell, dots[n].dark, c);
      }
    }
  }

  /** The symbol that mask k gives for these data modules. */
  function Candidate(g: Grid, k: nat, dots: seq<Dot>, functions: Grid): Grid
    requires k < 8 && Square(g, |functions|) && Square(functions, |functions|) && OnFunctions(dots, functions)
  {
    Dotted(Masked(g, k, functions), dots)
  }

  /** Which format bits an earlier trial has left behind makes no difference. */
  lemma CandidateSame(g: Grid, h: Grid, k: nat, dots: seq<Dot>, functions: Grid)
    requires k < 8 && Square(g, |functions|) && Square(functions, |functions|) && OnFunctions(dots, functions)
    requires Square(h, |functions|) && Agrees(g, h, Cells(dots))
    ensures Candidate(g, k, dots, functions) == Candidate(h, k, dots, functions)
  {
    hide Pattern, Dotted;
    MaskedAgrees(g, h, Masked(g, k, functions), Masked(h, k, functions), k, functions, Cells(dots));
    assert {} + Cells(dots) == Cells(dots);
    DotsHide(Masked(g, k, functions), Masked(h, k, functions), dots, {});
    SameGrid(Candidate(g, k, dots, functions), Candidate(h, k, dots, functions));
  }

  lemma SameGrid(g: Grid, h: Grid)
    requires Agrees(g, h, {})
    ensures g == h
  {
    forall y | 0 <= y < |g| ensures g[y] == h[y] {
      forall x | 0 <= x < |g| ensures g[y][x] == h[y][x] {
        assert At(g, Cell(x, y)) == At(h, Cell(x, y));
      }
    }
  }

  type Penalty = Grid -> nat

  /** Every symbol of this size scores less than the loop's first minimum. */
  ghost predicate Scores(penalty: Penalty, size: nat) {
    forall g :: Square(g, size) ==> penalty(g) < 0x1_0000_0000
  }

  lemma CandidateScores(g: Grid, k: nat, dots: seq<Dot>, functions: Grid, penalty: Penalty)
    requires k < 8 && Square(g, |functions|) && Square(functions, |functions|) && OnFunctions(dots, functions)
    requires Scores(penalty, |functions|)
    ensures penalty(Candidate(g, k, dots, functions)) < 0x1_0000_0000
  {
    hide Pattern;
  }

  /** All eight formats are written to the same modules. */
  ghost predicate Formats(formats: seq<seq<Dot>>, functions: Grid)
    requires Square(functions, |functions|)
  {
    |formats| == 8
    && forall k :: 0 <= k < 8 ==> OnFunctions(formats[k], functions) && Cells(formats[k]) == Cells(formats[0])
  }

  /** Of the symbols that the first n masks give, that of `mask` has the least penalty, and it is
      the first of these. */
  ghost predicate Best(g: Grid, formats: seq<seq<Dot>>, functions: Grid, penalty: Penalty, n: nat, mask: nat)
    requires Square(functions, |functions|) && Square(g, |functions|) && Formats(formats, functions)
    requires mask < n <= 8
  {
    forall k :: 0 <= k < n ==>
      var best, other := penalty(Candidate(g, mask, formats[mask], functions)), penalty(Candidate(g, k, formats[k], functions));
      best <= other && (k < mask ==> best < other)
  }

  /** The scan of a whole symbol, and its data modules in scan order. */
  function Order(size: nat): seq<Cell>
    requires size >= 1
  {
    Scan(size, size - 1)
  }

  lemma OrderInside(size: nat)
    requires size >= 9 && size % 2 == 1
    ensures forall c :: c in Order(size) ==> Inside(c, size)
  {
    forall c | c in Order(size) ensures Inside(c, size) { ScanCovers(size, size - 1, c); }
  }

  /** A symbol of this size has room for the codewords outside its function modules. */
  ghost predicate Room(functions: Grid, codewords: nat) {
    && |functions| >= 9 && |functions| % 2 == 1 && Square(functions, |functions|)
    && (forall c :: c in Order(|functions|) ==> Inside(c, |functions|))
    && 8 * codewords <= |Free(Order(|functions|), functions)|
  }

  /** Reading a symbol: undo the mask, scan the data modules, pack the bits. */
  function Unmasked(g: Grid, mask: nat, functions: Grid, c: Cell): bool
    requires mask < 8 && Square(g, |g|) && Square(functions, |g|) && Inside(c, |g|)
  {
    At(g, c) != Inverted(mask, functions, c.x, c.y)
  }

  function UnmaskedBits(g: Grid, mask: nat, functions: Grid, cells: seq<Cell>, n: nat): (bits: seq<bool>)
    requires mask < 8 && Square(g, |g|) && Square(functions, |g|)
    requires n <= |cells| && forall c :: c in cells ==> Inside(c, |g|)
    ensures |bits| == n && forall k :: 0 <= k < n ==> bits[k] == Unmasked(g, mask, functions, cells[k])
  {
    seq(n, k requires 0 <= k < n => Unmasked(g, mask, functions, cells[k]))
  }

  ghost function Read(g: Grid, mask: nat, functions: Grid, codewords: nat): (code: Poly)
    requires mask < 8 && Room(functions, codewords) && Square(g, |functions|)
  {
    FreeInside(functions);
    var bits := UnmaskedBits(g, mask, functions, Free(Order(|functions|), functions), 8 * codewords);
    Pack(bits)
  }

  lemma FreeInside(functions: Grid)
    requires Square(functions, |functions|)
    requires |functions| >= 1 && forall c :: c in Order(|functions|) ==> Inside(c, |functions|)
    ensures forall c :: c in Free(Order(|functions|), functions) ==> Inside(c, |functions|)
    ensures forall c :: c in Free(Order(|functions|), functions) ==> !At(functions, c)
  {
    forall c | c in Free(Order(|functions|), functions)
      ensures Inside(c, |functions|) && !At(functions, c) {
      FreeMember(Order(|functions|), functions, c);
    }
  }

  /** What has been drawn after scanning these cells. */
  ghost predicate Drawn(start: Grid, now: Grid, done: seq<Cell>, functions: Grid, data: seq<Byte>, i: nat) {
    && Square(functions, |functions|) && Square(start, |functions|) && Square(now, |functions|)
    && (forall c :: c in done ==> Inside(c, |functions|))
    && (forall c :: c in Free(done, functions) ==> Inside(c, |functions|))
    && i == Least(|Free(done, functions)|, 8 * |data|)
    && now == Painted(start, Free(done, functions), Unpack(data), i)
  }

  function Least(a: nat, b: nat): nat {
    if a < b then a else b
  }

  /** Drawing the next bit on the next data module, if any bit is left. */
  function DrawBit(now: Grid, c: Cell, functions: Grid, data: seq<Byte>, i: nat): (Grid, nat)
    requires Square(now, |now|) && Square(functions, |now|) && Inside(c, |now|)
  {
    if !At(functions, c) && i < 8 * |data| then (Set(now, c, Bit(data[i / 8], 7 - i % 8) == 1), i + 1) else (now, i)
  }

  lemma DrawNext(start: Grid, now: Grid, done: seq<Cell>, c: Cell, functions: Grid, data: seq<Byte>, i: nat)
    requires Drawn(start, now, done, functions, data, i) && Inside(c, |functions|)
    ensures var (g, n) := DrawBit(now, c, functions, data, i);
            Drawn(start, g, done + [c], functions, data, n)
  {
    hide Painted, Bit, Unpack;
    var cells := Free(done, functions);
    assert (done + [c])[..|done|] == done;
    forall d | d in Free(done + [c], functions) ensures Inside(d, |functions|) {
      FreeMember(done + [c], functions, d);
    }
    if !At(functions, c) {
      assert Free(done + [c], functions) == cells + [c];
      PaintedPrefix(start, cells, [c], Unpack(data), i);
      if i < 8 * |data| {
        assert i == |cells|;
        UnpackAt(data, i);
        PaintedMore(start, cells + [c], Unpack(data), i);
      }
    } else {
      assert Free(done + [c], functions) == cells;
    }
  }

  lemma PaintedMore(g: Grid, cells: seq<Cell>, bits: seq<bool>, n: nat)
    requires Square(g, |g|) && forall c :: c in cells ==> Inside(c, |g|)
    requires n < |cells| && n < |bits|
    ensures Painted(g, cells, bits, n + 1) == Set(Painted(g, cells, bits, n), cells[n], bits[n])
  {
  }

  class Symbol {
    const size: nat
    var modules: Grid
    const isFunction: Grid

    ghost predicate Valid()
      reads this
    {
      && size >= 9 && size % 2 == 1
      && Square(modules, size) && Square(isFunction, size)
      && forall c :: c in Order(size) ==> Inside(c, size)
    }

    /** A symbol whose function patterns are drawn. */
    constructor (modules: Grid, isFunction: Grid)
      requires |modules| >= 9 && |modules| % 2 == 1
      requires Square(modules, |modules|) && Square(isFunction, |modules|)
      ensures Valid() && this.modules == modules && this.isFunction == isFunction
    {
      size := |modules|;
      this.modules := modules;
      this.isFunction := isFunction;
      OrderInside(|modules|);
    }

    /** The zigzag placement: bit after bit on the data modules, in scan order. */
    method DrawCodewords(data: seq<Byte>)
      requires Valid() && 8 * |data| <= |Free(Order(size), isFunction)|
      modifies this
      ensures Valid()
      ensures modules == Painted(old(modules), FreeCells(), Unpack(data), 8 * |data|)
    {
      hide Drawn, Scan, Order, Free, Painted, Right;
      var i := 0;
      ghost var done: seq<Cell> := [];
      DrawNone(modules, isFunction, data);
      OrderScan(size);
      var r := size - 1;
      while r > 0
        invariant 0 <= r < size && r % 2 == 0
        invariant Valid() && done + Scan(size, r) == Order(size)
        invariant Drawn(old(modules), modules, done, isFunction, data, i)
        decreases r
      {
        ScanStep(size, r);
        var right := Right(r);
        ghost var rest := Scan(size, r - 2);
        PairInside(done, PairCells(size, right), rest, size);
        i := DrawPair(data, right, i, old(modules), done);
        done := done + PairCells(size, right);
        assert done + rest == Order(size);
        r := r - 2;
      }
      assert done == Order(size);
      DrawnAll(old(modules), modules, done, isFunction, data, i);
    }

    /** One pair of columns, upwards or downwards. */
    method DrawPair(data: seq<Byte>, right: nat, start: nat, ghost first: Grid, ghost done: seq<Cell>) returns (i: nat)
      requires Valid() && 1 <= right < size
      requires forall c :: c in PairCells(size, right) ==> Inside(c, size)
      requires Drawn(first, modules, done, isFunction, data, start)
      modifies this
      ensures Valid()
      ensures Drawn(first, modules, done + PairCells(size, right), isFunction, data, i)
    {
      hide Drawn, Order;
      i := start;
      ghost var pair := PairCells(size, right);
      assert done + pair[..0] == done;
      for vert := 0 to size
        invariant Valid() && Drawn(first, modules, done + pair[..2 * vert], isFunction, data, i)
      {
        for j := 0 to 2
          invariant Valid() && Drawn(first, modules, done + pair[..2 * vert + j], isFunction, data, i)
        {
          var x := right - j;
          var upward := (right + 1) / 2 % 2 == 0;
          var y := if upward then size - 1 - vert else vert;
          PairAt(size, right, vert, j);
          DrawNext(first, modules, done + pair[..2 * vert + j], Cell(x, y), isFunction, data, i);
          assert done + pair[..2 * vert + j + 1] == done + pair[..2 * vert + j] + [Cell(x, y)];
          if !isFunction[y][x] && i < |data| * 8 {
            modules := modules[y := modules[y][x := Bit(data[i / 8], 7 - i % 8) == 1]];
            i := i + 1;
          }
        }
      }
      assert pair[..2 * size] == pair;
    }

    /** Inverts the data modules where the mask's pattern is zero. */
    method ApplyMask(mask: int) returns (ok: bool)
      requires Valid()
      modifies this
      ensures Valid() && (ok <==> 0 <= mask <= 7)
      ensures if ok then MaskedBy(old(modules), modules, mask, isFunction) else modules == old(modules)
    {
      if !(0 <= mask <= 7) {
        return false;
      }
      hide Pattern, Order;
      for y := 0 to size
        invariant Valid() && PartlyMasked(old(modules), modules, mask, isFunction, y, 0)
      {
        for x := 0 to size
          invariant Valid() && PartlyMasked(old(modules), modules, mask, isFunction, y, x)
        {
          var inverted := Pattern(mask, x, y) == 0 && !isFunction[y][x];
          modules := modules[y := modules[y][x := modules[y][x] != inverted]];
        }
      }
      ok := true;
    }

    /** Writes the format bits; all of them are function modules. */
    method DrawFormatBits(dots: seq<Dot>)
      requires Valid() && OnFunctions(dots, isFunction)
      modifies this
      ensures Valid() && SameData(old(modules), modules, isFunction)
      ensures modules == Dotted(old(modules), dots)
    {
      hide Order;
      for i := 0 to |dots|
        invariant Valid() && SameData(old(modules), modules, isFunction)
        invariant modules == Dotted(old(modules), dots[..i])
      {
        assert dots[i] in dots;
        assert dots[..i + 1][..i] == dots[..i];
        var c := dots[i].cell;
        modules := modules[c.y := modules[c.y][c.x := dots[i].dark]];
      }
      assert dots[..|dots|] == dots;
    }

    /** One trial: mask, format bits, the score, mask again. */
    method TryMask(mask: nat, dots: seq<Dot>, penalty: Penalty) returns (score: nat)
      requires Valid() && mask < 8 && OnFunctions(dots, isFunction)
      modifies this
      ensures Valid() && SameData(old(modules), modules, isFunction)
      ensures Agrees(old(modules), modules, Cells(dots))
      ensures score == penalty(Candidate(old(modules), mask, dots, isFunction))
    {
      hide Order, Pattern, Dotted, Agrees;
      var applied := ApplyMask(mask);
      ghost var masked := modules;
      MaskedOnly(old(modules), masked, mask, isFunction);
      DrawFormatBits(dots);
      ghost var formatted := modules;
      score := penalty(modules);
      var undone := ApplyMask(mask);
      TrialCancels(old(modules), masked, formatted, modules, mask, isFunction);
      DotsOnly(masked, dots);
      MaskedAgrees(masked, formatted, old(modules), modules, mask, isFunction, Cells(dots));
    }

    /** The given mask, or the one whose symbol has the least penalty. None models the ValueError. */
    method ChooseMask(wanted: int, formats: seq<seq<Dot>>, penalty: Penalty) returns (chosen: Option<nat>)
      requires Valid() && Formats(formats, isFunction)
      requires Scores(penalty, size)
      modifies this
      ensures Valid() && (chosen.Some? <==> -1 <= wanted <= 7)
      ensures chosen.Some? ==> chosen.value < 8 && (wanted != -1 ==> chosen.value == wanted)
      ensures chosen.Some? ==> modules == Candidate(old(modules), chosen.value, formats[chosen.value], isFunction)
      ensures chosen.Some? && wanted == -1 ==> Best(old(modules), formats, isFunction, penalty, 8, chosen.value)
      ensures chosen.Some? ==> DataMasked(old(modules), modules, chosen.value, isFunction)
      ensures chosen.None? ==> modules == old(modules)
    {
      if !(-1 <= wanted <= 7) {
        return None;
      }
      hide Order, Pattern, Dotted, Candidate, Agrees, Scores;
      var mask := wanted;
      AgreesSelf(modules, Cells(formats[0]));
      if wanted == -1 {
        mask := LeastPenalty(formats, penalty);
      }
      ghost var start := modules;
      var applied := ApplyMask(mask);
      ghost var masked := modules;
      MaskedOnly(start, masked, mask, isFunction);
      DrawFormatBits(formats[mask]);
      ChosenMasks(old(modules), start, masked, modules, mask, isFunction);
      assert modules == Candidate(start, mask, formats[mask], isFunction) by { CandidateIs(start, mask, formats[mask], isFunction); }
      CandidateSame(old(modules), start, mask, formats[mask], isFunction);
      return Some(mask);
    }

    /** The eight trials. */
    method LeastPenalty(formats: seq<seq<Dot>>, penalty: Penalty) returns (mask: nat)
      requires Valid() && Formats(formats, isFunction)
      requires Scores(penalty, size)
      modifies this
      ensures Valid() && SameData(old(modules), modules, isFunction)
      ensures Agrees(old(modules), modules, Cells(formats[0]))
      ensures mask < 8 && Best(old(modules), formats, isFunction, penalty, 8, mask)
    {
      hide Order, Pattern, Dotted, Candidate, Agrees, Cells, Scores;
      AgreesSelf(modules, Cells(formats[0]));
      mask := 0;
      var minimum: nat := 0x1_0000_0000;
      for i := 0 to 8
        invariant Valid() && SameData(old(modules), modules, isFunction)
        invariant Agrees(old(modules), modules, Cells(formats[0]))
        invariant i == 0 ==> minimum == 0x1_0000_0000
        invariant i > 0 ==> mask < i && Best(old(modules), formats, isFunction, penalty, i, mask)
        invariant i > 0 ==> minimum == penalty(Candidate(old(modules), mask, formats[mask], isFunction))
      {
        CandidateSame(old(modules), modules, i, formats[i], isFunction);
        CandidateScores(modules, i, formats[i], isFunction, penalty);
        ghost var before := modules;
        var score := TryMask(i, formats[i], penalty);
        AgreesOn(old(modules), before, modules, Cells(formats[0]));
        if score < minimum {
          mask := i;
          minimum := score;
        }
      }
    }

    /** The constructor from the data codewords on. */
    method Encode(data: Poly, shape: Shape, wanted: int, formats: seq<seq<Dot>>, penalty: Penalty)
        returns (chosen: Option<nat>)
      requires Valid() && Formats(formats, isFunction)
      requires Scores(penalty, size)
      requires shape.Valid() && |data| + shape.ecc * shape.blocks == shape.raw && Room(isFunction, shape.raw)
      modifies this
      ensures Valid() && (chosen.Some? <==> -1 <= wanted <= 7)
      ensures chosen.Some? ==> chosen.value < 8 && (wanted != -1 ==> chosen.value == wanted)
      ensures chosen.Some? ==> Recovers(Read(modules, chosen.value, isFunction, shape.raw), data, shape)
    {
      hide Recovers, Read, DataMasked, Painted, Free, Order, Scores;
      var code := AddEccAndInterleave(data, shape);
      RoomFits(isFunction, shape.raw);
      ghost var blank := modules;
      DrawCodewords(code);
      ghost var drawn := modules;
      chosen := ChooseMask(wanted, formats, penalty);
      if chosen.Some? {
        ReadsBack(blank, drawn, modules, code, chosen.value, isFunction);
      }
    }

    /** The data modules in scan order. */
    ghost function FreeCells(): (cells: seq<Cell>)
      reads this
      requires Valid()
      ensures forall c :: c in cells ==> Inside(c, size)
    {
      FreeInside(isFunction);
      Free(Order(size), isFunction)
    }
  }

  lemma OrderScan(size: nat)
    requires size >= 1
    ensures Order(size) == Scan(size, size - 1) && Scan(size, 0) == []
  {
  }

  lemma ScanStep(size: nat, r: nat)
    requires 2 <= r < size
    ensures 1 <= Right(r) < size
    ensures Scan(size, r) == PairCells(size, Right(r)) + Scan(size, r - 2)
  {
  }

  lemma DrawNone(g: Grid, functions: Grid, data: seq<Byte>)
    requires Square(g, |functions|) && Square(functions, |functions|)
    ensures Drawn(g, g, [], functions, data, 0)
  {
  }

  lemma DrawnAll(start: Grid, now: Grid, done: seq<Cell>, functions: Grid, data: seq<Byte>, i: nat)
    requires Drawn(start, now, done, functions, data, i) && 8 * |data| <= |Free(done, functions)|
    ensures now == Painted(start, Free(done, functions), Unpack(data), 8 * |data|)
  {
  }

  lemma PairInside(before: seq<Cell>, pair: seq<Cell>, rest: seq<Cell>, size: nat)
    requires forall c :: c in before + (pair + rest) ==> Inside(c, size)
    ensures forall c :: c in pair ==> Inside(c, size)
  {
    forall c | c in pair ensures Inside(c, size) {
      assert c in pair + rest;
      assert c in before + (pair + rest);
    }
  }

  lemma PairAt(size: nat, right: nat, vert: nat, j: nat)
    requires 1 <= right && vert < size && j < 2
    ensures var k := 2 * vert + j;
            && k < |PairCells(size, right)|
            && PairCells(size, right)[k]
               == Cell(right - j, if (right + 1) / 2 % 2 == 0 then size - 1 - vert else vert)
            && PairCells(size, right)[k] in PairCells(size, right)
  {
    var k := 2 * vert + j;
    assert k / 2 == vert && k % 2 == j;
  }

  lemma RoomFits(functions: Grid, codewords: nat)
    requires Room(functions, codewords)
    ensures 8 * codewords <= |Free(Order(|functions|), functions)|
  {
  }

  predicate PartlyMasked(g: Grid, h: Grid, mask: nat, functions: Grid, y: nat, x: nat)
    requires mask < 8
  {
    && SameShape(g, h) && SameShape(g, functions)
    && forall v, u :: 0 <= v < |g| && 0 <= u < |g[v]| ==>
         h[v][u] == if v < y || (v == y && u < x) then g[v][u] != Inverted(mask, functions, u, v) else g[v][u]
  }

  /** The data modules of h are those of g under the mask. */
  predicate DataMasked(g: Grid, h: Grid, mask: nat, functions: Grid)
    requires mask < 8
  {
    && SameShape(g, h) && SameShape(g, functions)
    && forall y, x :: 0 <= y < |g| && 0 <= x < |g[y]| && !functions[y][x] ==>
         h[y][x] == (g[y][x] != Inverted(mask, functions, x, y))
  }

  lemma CandidateIs(g: Grid, k: nat, dots: seq<Dot>, functions: Grid)
    requires k < 8 && Square(g, |functions|) && Square(functions, |functions|) && OnFunctions(dots, functions)
    ensures Candidate(g, k, dots, functions) == Dotted(Masked(g, k, functions), dots)
  {
  }

  lemma AgreesSelf(g: Grid, cells: set<Cell>)
    requires Square(g, |g|)
    ensures Agrees(g, g, cells)
  {
  }

  lemma AgreesOn(g: Grid, h: Grid, i: Grid, cells: set<Cell>)
    requires Agrees(g, h, cells) && Agrees(h, i, cells)
    ensures Agrees(g, i, cells)
  {
  }

  /** A trial leaves the data modules as they were. */
  lemma TrialCancels(g: Grid, masked: Grid, formatted: Grid, h: Grid, mask: nat, functions: Grid)
    requires mask < 8 && MaskedBy(g, masked, mask, functions)
    requires SameData(masked, formatted, functions) && MaskedBy(formatted, h, mask, functions)
    ensures SameData(g, h, functions)
  {
    hide Pattern;
  }

  lemma ChosenMasks(g: Grid, start: Grid, masked: Grid, h: Grid, mask: nat, functions: Grid)
    requires mask < 8 && SameData(g, start, functions)
    requires MaskedBy(start, masked, mask, functions) && SameData(masked, h, functions)
    ensures DataMasked(g, h, mask, functions)
  {
    hide Pattern;
  }

  /** Undoing the mask and scanning returns the codewords that were drawn. */
  lemma ReadsBack(blank: Grid, drawn: Grid, g: Grid, code: Poly, mask: nat, functions: Grid)
    requires mask < 8 && Room(functions, |code|)
    requires Square(blank, |functions|) && Square(drawn, |functions|) && Square(g, |functions|)
    requires forall c :: c in Free(Order(|functions|), functions) ==> Inside(c, |functions|)
    requires drawn == Painted(blank, Free(Order(|functions|), functions), Unpack(code), 8 * |code|)
    requires DataMasked(drawn, g, mask, functions)
    ensures Read(g, mask, functions, |code|) == code
  {
    hide Painted, DataMasked, Pack, Unpack, UnmaskedBits, Free, Order;
    FreeInside(functions);
    OrderDistinct(|functions|);
    FreeDistinct(Order(|functions|), functions);
    BitsBack(blank, drawn, g, Free(Order(|functions|), functions), Unpack(code), mask, functions);
    PackUnpack(code);
  }

  lemma BitsBack(blank: Grid, drawn: Grid, g: Grid, cells: seq<Cell>, bits: seq<bool>, mask: nat, functions: Grid)
    requires mask < 8 && Square(functions, |functions|)
    requires Square(blank, |functions|) && Square(drawn, |functions|) && Square(g, |functions|)
    requires |bits| <= |cells| && Distinct(cells)
    requires forall c :: c in cells ==> Inside(c, |functions|) && !At(functions, c)
    requires drawn == Painted(blank, cells, bits, |bits|) && DataMasked(drawn, g, mask, functions)
    ensures UnmaskedBits(g, mask, functions, cells, |bits|) == bits
  {
    hide Painted, DataMasked, Unmasked;
    forall k | 0 <= k < |bits| ensures UnmaskedBits(g, mask, functions, cells, |bits|)[k] == bits[k] {
      PaintedAt(blank, cells, bits, |bits|, k);
      assert cells[k] in cells;
      UnmaskedIs(drawn, g, mask, functions, cells[k]);
    }
  }

  lemma OrderDistinct(size: nat)
    requires size % 2 == 1
    ensures Distinct(Order(size))
  {
    forall i, j | 0 <= i < j < |Order(size)| ensures Order(size)[i] != Order(size)[j] {
      ScanDistinct(size, size - 1, i, j);
    }
  }

  lemma UnmaskedIs(drawn: Grid, g: Grid, mask: nat, functions: Grid, c: Cell)
    requires mask < 8 && Square(functions, |functions|) && Square(drawn, |functions|) && Square(g, |functions|)
    requires DataMasked(drawn, g, mask, functions) && Inside(c, |functions|) && !At(functions, c)
    ensures Unmasked(g, mask, functions, c) == At(drawn, c)
  {
    hide Pattern;
  }
}
