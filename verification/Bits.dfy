/** Python's `^`, `>>` and `&` on non-negative integers of any size. */
module Bits {

  type Byte = b: nat | b < 256

  function Xor(a: nat, b: nat): nat
    decreases a + b
  {
    if a == 0 && b == 0 then 0 else (a + b) % 2 + 2 * Xor(a / 2, b / 2)
  }

  /** y >> i */
  function Shift(y: nat, i: nat): nat {
    if i == 0 then y else Shift(y / 2, i - 1)
  }

  /** (y >> i) & 1 */
  function Bit(y: nat, i: nat): (b: nat)
    ensures b <= 1
  {
    Shift(y, i) % 2
  }

  /** 1 << i */
  function Pow2(i: nat): (p: nat)
    ensures p >= 1
  {
    if i == 0 then 1 else 2 * Pow2(i - 1)
  }

  lemma {:induction false} XorCommutative(a: nat, b: nat)
    ensures Xor(a, b) == Xor(b, a)
    decreases a + b
  {
    if a != 0 || b != 0 { XorCommutative(a / 2, b / 2); }
  }

  lemma {:induction false} XorAssociative(a: nat, b: nat, c: nat)
    ensures Xor(Xor(a, b), c) == Xor(a, Xor(b, c))
    decreases a + b + c
  {
    if a != 0 || b != 0 || c != 0 {
      var left, right := Xor(Xor(a, b), c), Xor(a, Xor(b, c));
      assert left / 2 == right / 2 by {
        XorDigits(a, b);
        XorDigits(b, c);
        XorDigits(Xor(a, b), c);
        XorDigits(a, Xor(b, c));
        XorAssociative(a / 2, b / 2, c / 2);
      }
      assert left % 2 == right % 2 by {
        XorParity(a, b);
        XorParity(b, c);
        XorParity(Xor(a, b), c);
        XorParity(a, Xor(b, c));
      }
    }
  }

  lemma XorDigits(a: nat, b: nat)
    ensures Xor(a, b) % 2 == (a + b) % 2
    ensures Xor(a, b) / 2 == Xor(a / 2, b / 2)
  {
    TwoDigits((a + b) % 2, Xor(a / 2, b / 2));
  }

  lemma TwoDigits(low: nat, high: nat)
    requires low <= 1
    ensures (low + 2 * high) % 2 == low && (low + 2 * high) / 2 == high
  {
  }

  lemma XorParity(a: nat, b: nat)
    ensures Xor(a, b) % 2 == if a % 2 == b % 2 then 0 else 1
  {
    XorDigits(a, b);
  }

  lemma {:induction false} XorZero(a: nat)
    ensures Xor(a, 0) == a && Xor(0, a) == a
  {
    if a != 0 { XorZero(a / 2); }
  }

  lemma {:induction false} XorSelf(a: nat)
    ensures Xor(a, a) == 0
  {
    if a != 0 { XorSelf(a / 2); }
  }

  /** Two equal terms cancel. */
  lemma XorCancel(a: nat, b: nat)
    ensures Xor(Xor(a, b), b) == a && Xor(b, Xor(b, a)) == a
  {
    XorAssociative(a, b, b);
    XorAssociative(b, b, a);
    XorSelf(b);
    XorZero(a);
  }

  lemma XorSwap(a: nat, b: nat, c: nat, d: nat)
    ensures Xor(Xor(a, b), Xor(c, d)) == Xor(Xor(a, c), Xor(b, d))
  {
    XorAssociative(a, b, Xor(c, d));
    XorAssociative(b, c, d);
    XorCommutative(b, c);
    XorAssociative(c, b, d);
    XorAssociative(a, c, Xor(b, d));
  }

  lemma XorTwice(a: nat, b: nat)
    ensures 2 * Xor(a, b) == Xor(2 * a, 2 * b)
  {
    assert (2 * a + 2 * b) % 2 == 0 && (2 * a) / 2 == a && (2 * b) / 2 == b;
  }

  lemma {:induction false} XorShift(a: nat, b: nat, i: nat)
    ensures Shift(Xor(a, b), i) == Xor(Shift(a, i), Shift(b, i))
  {
    if i > 0 {
      XorDigits(a, b);
      XorShift(a / 2, b / 2, i - 1);
    }
  }

  lemma {:induction false} ShiftBound(y: nat, i: nat)
    ensures Shift(y, i) == 0 <==> y < Pow2(i)
  {
    if i > 0 { ShiftBound(y / 2, i - 1); }
  }

  lemma XorBound(a: nat, b: nat, i: nat)
    requires a < Pow2(i) && b < Pow2(i)
    ensures Xor(a, b) < Pow2(i)
  {
    ShiftBound(a, i);
    ShiftBound(b, i);
    XorShift(a, b, i);
    ShiftBound(Xor(a, b), i);
  }

  lemma {:induction false} ShiftUnfold(y: nat, i: nat)
    ensures Shift(y, i) == 2 * Shift(y, i + 1) + Bit(y, i)
  {
    if i > 0 { ShiftUnfold(y / 2, i - 1); }
  }
}
