/** The powers of 2 in GF(2^8) modulo 0x11D: 2 generates all 255 nonzero elements, so the field
    has no zero divisors. */
module GaloisPowers {
  import opened Bits
  import opened GaloisField
  import opened ReedSolomon

  /** Double in plain arithmetic: what 0x11D flips of 2 * z is bit 8, bits 2 to 4, and bit 0. */
  function Next(z: int): int {
    if z < 128 then 2 * z else 2 * z - 227 - 8 * (z / 2 % 8)
  }

  lemma XorUnfold(a: nat, b: nat)
    ensures Xor(a, b) == (a + b) % 2 + 2 * Xor(a / 2, b / 2)
  {
  }

  lemma DoubleIsNext(z: Byte)
    ensures Double(z) == Next(z)
  {
    Shift7(z);
    if z < 128 {
      XorZero(2 * z);
    } else {
      FlippedBits(z);
    }
  }

  lemma FlippedBits(z: Byte)
    requires z >= 128
    ensures Xor(2 * z, 285) == 2 * z - 227 - 8 * (z / 2 % 8)
  {
    hide Xor;
    var a := z / 2;
    var b := a / 2;
    var c := b / 2;
    var d := c / 2;
    HighBits(d);
    FlipOdd(c, 8);
    FlipOdd(b, 17);
    FlipOdd(a, 35);
    XorUnfold(z, 142);
    XorUnfold(2 * z, 285);
    assert a % 8 == 4 * (c % 2) + 2 * (b % 2) + a % 2;
  }

  /** An odd number flips the last bit. */
  lemma FlipOdd(x: nat, y: nat)
    ensures Xor(x, 2 * y + 1) == 1 - x % 2 + 2 * Xor(x / 2, y)
  {
    hide Xor;
    XorUnfold(x, 2 * y + 1);
  }

  lemma HighBits(d: nat)
    requires 8 <= d < 16
    ensures Xor(d, 8) == d - 8
  {
    hide Xor;
    XorUnfold(d, 8);
    XorUnfold(d / 2, 4);
    XorUnfold(d / 2 / 2, 2);
    XorSelf(1);
  }

  lemma RootNext(n: nat)
    ensures Root(n + 1) == Next(Root(n))
  {
    var x := Root(n);
    DoubleIsNext(1);
    DoubleIsNext(x);
    Commutative(x, 2);
    HornerDouble(1, x, 8);
    One(x);
  }

  /** Root, computed. */
  function Power(n: nat): int {
    if n == 0 then 1 else Next(Power(n - 1))
  }

  lemma {:induction false} RootIsPower(n: nat)
    ensures Root(n) == Power(n)
  {
    hide Mul;
    if n > 0 {
      RootIsPower(n - 1);
      RootNext(n - 1);
    }
  }

  lemma Leg(n: nat, a: int, b: int, c: int, d: int, e: int, f: int)
    requires Power(n) == a && Next(a) == b && Next(b) == c && Next(c) == d && Next(d) == e && Next(e) == f
    ensures Power(n + 5) == f
  {
    assert Power(n + 1) == b;
    assert Power(n + 2) == c;
    assert Power(n + 3) == d;
    assert Power(n + 4) == e;
  }

  lemma PowerOf15()
    ensures Power(15) == 38
  {
    assert Power(0) == 1;
    hide Power;
    Leg(0, 1, 2, 4, 8, 16, 32);
    Leg(5, 32, 64, 128, 29, 58, 116);
    Leg(10, 116, 232, 205, 135, 19, 38);
  }

  lemma PowerOf50()
    ensures Power(50) == 5
  {
    PowerOf15();
    hide Power;
    Leg(15, 38, 76, 152, 45, 90, 180);
    Leg(20, 180, 117, 234, 201, 143, 3);
    Leg(25, 3, 6, 12, 24, 48, 96);
    Leg(30, 96, 192, 157, 39, 78, 156);
    Leg(35, 156, 37, 74, 148, 53, 106);
    Leg(40, 106, 212, 181, 119, 238, 193);
    Leg(45, 193, 159, 35, 70, 140, 5);
  }

  lemma PowerOf85()
    ensures Power(85) == 214
  {
    PowerOf50();
    hide Power;
    Leg(50, 5, 10, 20, 40, 80, 160);
    Leg(55, 160, 93, 186, 105, 210, 185);
    Leg(60, 185, 111, 222, 161, 95, 190);
    Leg(65, 190, 97, 194, 153, 47, 94);
    Leg(70, 94, 188, 101, 202, 137, 15);
    Leg(75, 15, 30, 60, 120, 240, 253);
    Leg(80, 253, 231, 211, 187, 107, 214);
  }

  lemma PowerOf120()
    ensures Power(120) == 59
  {
    PowerOf85();
    hide Power;
    Leg(85, 214, 177, 127, 254, 225, 223);
    Leg(90, 223, 163, 91, 182, 113, 226);
    Leg(95, 226, 217, 175, 67, 134, 17);
    Leg(100, 17, 34, 68, 136, 13, 26);
    Leg(105, 26, 52, 104, 208, 189, 103);
    Leg(110, 103, 206, 129, 31, 62, 124);
    Leg(115, 124, 248, 237, 199, 147, 59);
  }

  lemma PowerOf155()
    ensures Power(155) == 114
  {
    PowerOf120();
    hide Power;
    Leg(120, 59, 118, 236, 197, 151, 51);
    Leg(125, 51, 102, 204, 133, 23, 46);
    Leg(130, 46, 92, 184, 109, 218, 169);
    Leg(135, 169, 79, 158, 33, 66, 132);
    Leg(140, 132, 21, 42, 84, 168, 77);
    Leg(145, 77, 154, 41, 82, 164, 85);
    Leg(150, 85, 170, 73, 146, 57, 114);
  }

  lemma PowerOf190()
    ensures Power(190) == 174
  {
    PowerOf155();
    hide Power;
    Leg(155, 114, 228, 213, 183, 115, 230);
    Leg(160, 230, 209, 191, 99, 198, 145);
    Leg(165, 145, 63, 126, 252, 229, 215);
    Leg(170, 215, 179, 123, 246, 241, 255);
    Leg(175, 255, 227, 219, 171, 75, 150);
    Leg(180, 150, 49, 98, 196, 149, 55);
    Leg(185, 55, 110, 220, 165, 87, 174);
  }

  lemma PowerOf225()
    ensures Power(225) == 36
  {
    PowerOf190();
    hide Power;
    Leg(190, 174, 65, 130, 25, 50, 100);
    Leg(195, 100, 200, 141, 7, 14, 28);
    Leg(200, 28, 56, 112, 224, 221, 167);
    Leg(205, 167, 83, 166, 81, 162, 89);
    Leg(210, 89, 178, 121, 242, 249, 239);
    Leg(215, 239, 195, 155, 43, 86, 172);
    Leg(220, 172, 69, 138, 9, 18, 36);
  }

  lemma PowerOf255()
    ensures Power(255) == 1
  {
    PowerOf225();
    hide Power;
    Leg(225, 36, 72, 144, 61, 122, 244);
    Leg(230, 244, 245, 247, 243, 251, 235);
    Leg(235, 235, 203, 139, 11, 22, 44);
    Leg(240, 44, 88, 176, 125, 250, 233);
    Leg(245, 233, 207, 131, 27, 54, 108);
    Leg(250, 108, 216, 173, 71, 142, 1);
  }

  /** 2 has none of the orders 15, 51 and 85; and its 255th power is 1. */
  lemma Landmarks()
    ensures Root(15) != 1 && Root(51) != 1 && Root(85) != 1 && Root(255) == 1
  {
    PowerOf15();
    PowerOf50();
    assert Power(51) == Next(Power(50));
    PowerOf85();
    PowerOf255();
    RootIsPower(15);
    RootIsPower(51);
    RootIsPower(85);
    RootIsPower(255);
  }

  lemma {:induction false} RootSum(m: nat, n: nat)
    ensures Root(m + n) == Mul(Root(m), Root(n))
  {
    hide Mul;
    if n == 0 {
      One(Root(m));
    } else {
      RootSum(m, n - 1);
      Associative(Root(m), Root(n - 1), 2);
      assert m + n - 1 == m + (n - 1);
    }
  }

  lemma {:induction false} RootMultiple(g: nat, m: nat, product: nat)
    requires product == g * m && Root(g) == 1
    ensures Root(product) == 1
    decreases m
  {
    hide Mul, Root;
    if m == 0 {
      RootZero();
    } else {
      OneLess(g, m);
      RootMultiple(g, m - 1, product - g);
      RootSum(product - g, g);
      One(1);
    }
  }

  lemma OneLess(g: nat, m: nat)
    requires m > 0
    ensures g * (m - 1) == g * m - g
  {
  }

  lemma RootZero()
    ensures Root(0) == 1
  {
  }

  lemma RootDifference(a: nat, b: nat)
    requires b <= a && Root(a) == 1 && Root(b) == 1
    ensures Root(a - b) == 1
  {
    hide Mul, Root;
    RootSum(a - b, b);
    One(Root(a - b));
  }

  /** Two exponents with value 1 have a common divisor with value 1. */
  lemma {:induction false} CommonDivisor(a: nat, b: nat) returns (g: nat, k: nat, l: nat)
    requires a > 0 && b > 0 && Root(a) == 1 && Root(b) == 1
    ensures 0 < g <= a && g <= b && a == g * k && b == g * l && Root(g) == 1
    decreases a + b
  {
    hide Mul, Root;
    if a == b {
      g, k, l := a, 1, 1;
    } else if a > b {
      RootDifference(a, b);
      g, k, l := CommonDivisor(a - b, b);
      assert g * (k + l) == g * k + g * l;
      k := k + l;
    } else {
      RootDifference(b, a);
      g, k, l := CommonDivisor(a, b - a);
      assert g * (k + l) == g * k + g * l;
      l := k + l;
    }
  }

  /** A proper divisor of 255 divides 85, 51 or 15. */
  lemma ProperDivisor(g: nat, k: nat) returns (m: nat)
    requires g * k == 255 && 0 < g < 255
    ensures g * m == 85 || g * m == 51 || g * m == 15
  {
    SmallFactor(g, k);
    if k % 3 == 0 {
      m := k / 3;
      Third(g, k, 3);
    } else if k % 5 == 0 {
      m := k / 5;
      Third(g, k, 5);
    } else {
      m := k / 17;
      Third(g, k, 17);
    }
  }

  lemma Third(g: nat, k: nat, p: nat)
    requires p > 0 && k % p == 0 && g * k == 255
    ensures (g * (k / p)) * p == 255
  {
    assert k == (k / p) * p;
    assert (g * (k / p)) * p == g * ((k / p) * p);
  }

  lemma SmallFactor(g: nat, k: nat)
    requires g * k == 255 && 0 < g < 255
    ensures k % 3 == 0 || k % 5 == 0 || k % 17 == 0
  {
    if k <= 15 {
      Factor(k, g);
    } else if g <= 15 {
      Factor(g, k);
    } else {
      TooLarge(g, k);
    }
  }

  lemma TooLarge(a: nat, b: nat)
    requires a >= 16 && b >= 16
    ensures a * b >= 256
  {
    assert (a - 16) * (b - 16) >= 0;
  }

  lemma Factor(a: nat, b: nat)
    requires a <= 15 && a * b == 255
    ensures a == 1 || (a == 3 && b == 85) || (a == 5 && b == 51) || (a == 15 && b == 17)
  {
    if a == 0 {} else if a == 2 {} else if a == 3 {} else if a == 4 {} else if a == 5 {} else if a == 6 {}
    else if a == 7 {} else if a == 8 {} else if a == 9 {} else if a == 10 {} else if a == 11 {} else if a == 12 {}
    else if a == 13 {} else if a == 14 {} else if a == 15 {}
  }

  /** The order of 2 is 255. */
  lemma OrderOfTwo(d: nat)
    requires 0 < d < 255
    ensures Root(d) != 1
  {
    hide Root;
    Landmarks();
    if Root(d) == 1 {
      var g, k, l := CommonDivisor(255, d);
      var m := ProperDivisor(g, k);
      RootMultiple(g, m, g * m);
    }
  }

  lemma Inverse(i: nat)
    requires i <= 255
    ensures Mul(Root(i), Root(255 - i)) == 1 && Root(i) != 0
  {
    hide Mul, Root;
    Landmarks();
    RootSum(i, 255 - i);
    Zero(Root(255 - i));
  }

  lemma RootsDistinct(i: nat, j: nat)
    requires i < j < 255
    ensures Root(i) != Root(j)
  {
    hide Mul, Root;
    Inverse(i);
    Landmarks();
    OrderOfTwo(j - i);
    RootSum(j - i, i);
    Associative(Root(j - i), Root(i), Root(255 - i));
    One(Root(j - i));
  }

  // Every nonzero element is a power of 2.

  function Powers(n: nat): set<int> {
    set i | 0 <= i < n :: Root(i) as int
  }

  function Elements(n: nat): (e: set<int>)
    ensures forall v :: v in e <==> 1 <= v <= n
    ensures |e| == n
  {
    if n == 0 then {} else Elements(n - 1) + {n}
  }

  lemma {:induction false} PowersCount(n: nat)
    requires n <= 255
    ensures |Powers(n)| == n
  {
    hide Root;
    if n > 0 {
      PowersCount(n - 1);
      assert Powers(n) == Powers(n - 1) + {Root(n - 1) as int};
      forall i | 0 <= i < n - 1 ensures Root(i) != Root(n - 1) { RootsDistinct(i, n - 1); }
    }
  }

  lemma AllPowers(a: Byte) returns (i: nat)
    requires a != 0
    ensures i < 255 && Root(i) == a
  {
    hide Root, Mul;
    var powers, elements := Powers(255), Elements(255);
    PowersCount(255);
    forall v | v in powers ensures v in elements {
      var k :| 0 <= k < 255 && v == Root(k) as int;
      Inverse(k);
    }
    SameSize(powers, elements);
    assert a as int in powers;
    i :| 0 <= i < 255 && Root(i) as int == a as int;
  }

  lemma SameSize(a: set<int>, b: set<int>)
    requires a <= b && |a| == |b|
    ensures a == b
  {
    assert |b - a| == 0;
  }

  lemma NoZeroDivisors(a: Byte, b: Byte)
    requires Mul(a, b) == 0 && a != 0
    ensures b == 0
  {
    hide Mul, Root;
    var i := AllPowers(a);
    Inverse(i);
    var inverse := Root(255 - i);
    Commutative(a, inverse);
    Associative(inverse, a, b);
    One(b);
    Zero(inverse);
  }
}
