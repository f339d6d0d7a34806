/** GF(2^8) modulo x^8 + x^4 + x^3 + x^2 + 1 (0x11D), the coefficient field of the QR code's
    Reed-Solomon blocks (section 7.5.2 of ISO/IEC 18004:2015), and the "Russian peasant"
    product that qrcodegen.py computes in it. */
module GaloisField {
  import opened Bits
  import opened Wrappers

  /** Multiplication by x: shift, and reduce when a term of degree 8 appears. */
  function Double(z: Byte): Byte {
    DoubleFits(z);
    Xor(2 * z, Shift(z, 7) * 0x11D)
  }

  lemma DoubleFits(z: Byte)
    ensures Xor(2 * z, Shift(z, 7) * 0x11D) < 256
  {
    var bit := Shift(z, 7);
    assert bit == 0 || bit == 1 by { Shift7(z); }
    assert Shift(bit * 0x11D, 8) == bit by {
      assert Shift(0x11D, 8) == 1 && Shift(0, 8) == 0;
      if bit == 0 {} else {}
    }
    assert Shift(2 * z, 8) == bit;
    XorShift(2 * z, bit * 0x11D, 8);
    XorSelf(bit);
    ShiftBound(Xor(2 * z, bit * 0x11D), 8);
    assert Pow2(8) == 256;
  }

  lemma Shift7(z: Byte)
    ensures Shift(z, 7) == if z >= 128 then 1 else 0
  {
    var a := z / 2;
    var b := a / 2;
    var c := b / 2;
    var d := c / 2;
    assert Shift(z, 7) == Shift(a, 6) == Shift(b, 5) == Shift(c, 4) == Shift(d, 3);
    assert Shift(d, 3) == Shift(d / 2, 2) == Shift(d / 2 / 2, 1) == d / 2 / 2 / 2;
  }

  function Add(a: Byte, b: Byte): Byte {
    assert Pow2(8) == 256;
    XorBound(a, b, 8);
    Xor(a, b)
  }

  /** A bit times a number. */
  function Times(k: nat, x: nat): (r: nat)
    ensures k <= 1 ==> r == k * x
  {
    if k == 0 then 0 else x
  }

  /** The product of x with the polynomial made of the `n` highest of the 8 bits of y. */
  function Horner(x: Byte, y: Byte, n: nat): Byte
    requires n <= 8
  {
    if n == 0 then 0 else Add(Double(Horner(x, y, n - 1)), Times(Bit(y, 8 - n), x))
  }

  /** The field product. */
  function Mul(x: Byte, y: Byte): Byte {
    Horner(x, y, 8)
  }

  /** The loop of the source, with the source's rejection of arguments that are no byte. */
  method Multiply(x: nat, y: nat) returns (product: Option<Byte>)
    ensures product.Some? <==> x < 256 && y < 256
    ensures x < 256 && y < 256 ==> product == Some(Mul(x, y))
  {
    ShiftBound(x, 8);
    ShiftBound(y, 8);
    assert Pow2(8) == 256;
    if Shift(x, 8) != 0 || Shift(y, 8) != 0 {
      return None;
    }
    var z: nat := 0;
    var i := 8;
    while i > 0
      invariant 0 <= i <= 8
      invariant z == Horner(x, y, 8 - i)
    {
      i := i - 1;
      HornerStep(x, y, z, i);
      z := Xor(2 * z, Shift(z, 7) * 0x11D);
      z := Xor(z, Bit(y, i) * x);
    }
    return Some(z);
  }

  lemma HornerStep(x: Byte, y: Byte, z: nat, i: nat)
    requires i < 8 && z == Horner(x, y, 7 - i)
    ensures Xor(Xor(2 * z, Shift(z, 7) * 0x11D), Bit(y, i) * x) == Horner(x, y, 8 - i)
  {
    assert Bit(y, i) * x == Times(Bit(y, i), x);
  }

  // The field laws.

  lemma AddZero(a: Byte)
    ensures Add(a, 0) == a && Add(0, a) == a
  {
    XorZero(a);
  }

  lemma AddSelf(a: Byte)
    ensures Add(a, a) == 0
  {
    XorSelf(a);
  }

  lemma AddCommutative(a: Byte, b: Byte)
    ensures Add(a, b) == Add(b, a)
  {
    XorCommutative(a, b);
  }

  lemma AddSwap(a: Byte, b: Byte, c: Byte, d: Byte)
    ensures Add(Add(a, b), Add(c, d)) == Add(Add(a, c), Add(b, d))
  {
    XorSwap(a, b, c, d);
  }

  lemma AddCancel(a: Byte, b: Byte)
    ensures Add(Add(a, b), b) == a && Add(b, Add(b, a)) == a
  {
    XorCancel(a, b);
  }

  lemma BitTimesXor(p: nat, q: nat, x: nat)
    requires p <= 1 && q <= 1
    ensures Times(if p == q then 0 else 1, x) == Xor(Times(p, x), Times(q, x))
  {
    XorSelf(x);
    XorZero(x);
  }

  lemma DoubleAdd(a: Byte, b: Byte)
    ensures Double(Add(a, b)) == Add(Double(a), Double(b))
  {
    assert Shift(Add(a, b), 7) * 0x11D == Xor(Shift(a, 7) * 0x11D, Shift(b, 7) * 0x11D) by {
      Shift7(a);
      Shift7(b);
      Shift7(Add(a, b));
      XorShift(a, b, 7);
      XorParity(Shift(a, 7), Shift(b, 7));
      BitTimesXor(Shift(a, 7), Shift(b, 7), 0x11D);
    }
    XorTwice(a, b);
    XorSwap(2 * a, 2 * b, Shift(a, 7) * 0x11D, Shift(b, 7) * 0x11D);
  }

  lemma {:induction false} HornerAddLeft(a: Byte, b: Byte, y: Byte, n: nat)
    requires n <= 8
    ensures Horner(Add(a, b), y, n) == Add(Horner(a, y, n), Horner(b, y, n))
  {
    if n > 0 {
      HornerAddLeft(a, b, y, n - 1);
      DoubleAdd(Horner(a, y, n - 1), Horner(b, y, n - 1));
      var k := Bit(y, 8 - n);
      XorSwap(Double(Horner(a, y, n - 1)), Double(Horner(b, y, n - 1)), Times(k, a), Times(k, b));
    }
  }

  lemma {:induction false} HornerAddRight(x: Byte, a: Byte, b: Byte, n: nat)
    requires n <= 8
    ensures Horner(x, Add(a, b), n) == Add(Horner(x, a, n), Horner(x, b, n))
  {
    if n > 0 {
      HornerAddRight(x, a, b, n - 1);
      DoubleAdd(Horner(x, a, n - 1), Horner(x, b, n - 1));
      var p, q := Bit(a, 8 - n), Bit(b, 8 - n);
      BitOfXor(a, b, 8 - n);
      BitTimesXor(p, q, x);
      XorSwap(Double(Horner(x, a, n - 1)), Double(Horner(x, b, n - 1)), Times(p, x), Times(q, x));
    }
  }

  lemma BitOfXor(a: nat, b: nat, i: nat)
    ensures Bit(Xor(a, b), i) == if Bit(a, i) == Bit(b, i) then 0 else 1
  {
    XorShift(a, b, i);
    XorParity(Shift(a, i), Shift(b, i));
  }

  /** The product distributes over addition on both sides. */
  lemma Distributes(x: Byte, a: Byte, b: Byte)
    ensures Mul(x, Add(a, b)) == Add(Mul(x, a), Mul(x, b))
    ensures Mul(Add(a, b), x) == Add(Mul(a, x), Mul(b, x))
  {
    HornerAddRight(x, a, b, 8);
    HornerAddLeft(a, b, x, 8);
  }

  lemma Zero(x: Byte)
    ensures Mul(x, 0) == 0 && Mul(0, x) == 0
  {
    Distributes(x, 0, 0);
    XorSelf(Mul(x, 0));
    XorSelf(Mul(0, x));
  }

  lemma {:induction false} HornerDouble(x: Byte, y: Byte, n: nat)
    requires n <= 8
    ensures Horner(Double(x), y, n) == Double(Horner(x, y, n))
  {
    if n > 0 {
      HornerDouble(x, y, n - 1);
      var k := Bit(y, 8 - n);
      DoubleAdd(Double(Horner(x, y, n - 1)), Times(k, x));
    }
  }

  lemma HornerOneStep(h: Byte, y: Byte, i: nat)
    requires h == Shift(y, i + 1)
    ensures Add(Double(h), Times(Bit(y, i), 1)) == Shift(y, i)
  {
    hide Double, Add, Shift;
    HalfByte(y, i + 1);
    DoubleSmall(h, Bit(y, i));
    ShiftUnfold(y, i);
  }

  lemma {:induction false} HornerOne(y: Byte, n: nat)
    requires n <= 8
    ensures Horner(1, y, n) == Shift(y, 8 - n)
  {
    if n == 0 {
      assert Pow2(8) == 256;
      ShiftBound(y, 8);
    } else {
      HornerOne(y, n - 1);
      HornerOneStep(Horner(1, y, n - 1), y, 8 - n);
    }
  }

  lemma DoubleSmall(z: Byte, low: nat)
    requires z < 128 && low <= 1
    ensures Add(Double(z), low) == 2 * z + low
  {
    assert Double(z) == 2 * z by {
      Shift7(z);
      XorZero(2 * z);
    }
    assert Xor(2 * z, low) == low + 2 * z by {
      assert (2 * z + low) % 2 == low && (2 * z) / 2 == z && low / 2 == 0;
      XorZero(z);
    }
  }

  lemma {:induction false} HalfByte(y: nat, i: nat)
    requires y < 256 && i >= 1
    ensures Shift(y, i) < 128
  {
    if i > 1 { HalfByte(y / 2, i - 1); }
  }

  lemma {:induction false} HornerCommutes(x: Byte, y: Byte, n: nat)
    requires n <= 8
    ensures Mul(Horner(1, x, n), y) == Horner(y, x, n)
  {
    if n == 0 {
      Zero(y);
    } else {
      var h := Horner(1, x, n - 1);
      var k := Bit(x, 8 - n);
      HornerCommutes(x, y, n - 1);
      HornerDouble(h, y, 8);
      Distributes(y, Double(h), k);
      Zero(y);
      HornerOne(y, 8);
    }
  }

  lemma Commutative(x: Byte, y: Byte)
    ensures Mul(x, y) == Mul(y, x)
  {
    HornerOne(x, 8);
    HornerCommutes(x, y, 8);
  }

  lemma One(x: Byte)
    ensures Mul(x, 1) == x && Mul(1, x) == x
  {
    HornerOne(x, 8);
    Commutative(x, 1);
  }

  lemma {:induction false} HornerAssociative(x: Byte, y: Byte, z: Byte, n: nat)
    requires n <= 8
    ensures Horner(Mul(x, y), z, n) == Mul(x, Horner(y, z, n))
  {
    if n == 0 {
      Zero(x);
    } else {
      var h := Horner(y, z, n - 1);
      var k := Bit(z, 8 - n);
      HornerAssociative(x, y, z, n - 1);
      Commutative(x, Double(h));
      HornerDouble(h, x, 8);
      Commutative(x, h);
      Distributes(x, Double(h), Times(k, y));
      Zero(x);
    }
  }

  lemma Associative(x: Byte, y: Byte, z: Byte)
    ensures Mul(Mul(x, y), z) == Mul(x, Mul(y, z))
  {
    HornerAssociative(x, y, z, 8);
  }
}
