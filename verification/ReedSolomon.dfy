/** Polynomials over GF(2^8), highest power first, and the two Reed-Solomon routines of
    qrcodegen.py: the generator polynomial and the division remainder. */
module ReedSolomon {
  import opened Bits
  import opened GaloisField
  import opened Wrappers

  type Poly = seq<Byte>

  function Zeros(n: nat): (z: Poly)
    ensures |z| == n && forall i :: 0 <= i < n ==> z[i] == 0
  {
    seq(n, i => 0)
  }

  /** The value of p at x. */
  function Eval(p: Poly, x: Byte): Byte {
    if p == [] then 0 else Add(Mul(Eval(p[..|p| - 1], x), x), p[|p| - 1])
  }

  function Plus(p: Poly, q: Poly): (r: Poly)
    requires |p| == |q|
    ensures |r| == |p| && forall i :: 0 <= i < |r| ==> r[i] == Add(p[i], q[i])
  {
    seq(|p|, i requires 0 <= i < |p| => Add(p[i], q[i]))
  }

  function Scale(p: Poly, c: Byte): (r: Poly)
    ensures |r| == |p| && forall i :: 0 <= i < |r| ==> r[i] == Mul(p[i], c)
  {
    seq(|p|, i requires 0 <= i < |p| => Mul(p[i], c))
  }

  /** p * (x - root); subtraction is addition in this field. */
  function TimesLinear(p: Poly, root: Byte): (r: Poly)
    ensures |r| == |p| + 1
  {
    Plus(p + [0], [0] + Scale(p, root))
  }

  /** 2^i, the i-th power of the field's generator element. */
  function Root(i: nat): Byte {
    if i == 0 then 1 else Mul(Root(i - 1), 2)
  }

  /** (x - 2^0) (x - 2^1) ... (x - 2^(n-1)) */
  function Generator(n: nat): (g: Poly)
    ensures |g| == n + 1
  {
    if n == 0 then [1] else TimesLinear(Generator(n - 1), Root(n - 1))
  }

  /** The product of q with g, by the schoolbook method. */
  function Product(q: Poly, g: Poly): (r: Poly)
    requires g != []
    ensures |r| == |q| + |g| - 1
  {
    if q == [] then Zeros(|g| - 1)
    else Plus(Product(q[..|q| - 1], g) + [0], Zeros(|q| - 1) + Scale(g, q[|q| - 1]))
  }

  // Evaluation is a ring homomorphism.

  lemma {:induction false} EvalPlus(p: Poly, q: Poly, x: Byte)
    requires |p| == |q|
    ensures Eval(Plus(p, q), x) == Add(Eval(p, x), Eval(q, x))
  {
    hide Mul, Add;
    if p == [] {
      assert Plus(p, q) == [];
      AddZero(0);
    } else {
      var n := |p| - 1;
      assert Plus(p, q)[..n] == Plus(p[..n], q[..n]);
      EvalPlus(p[..n], q[..n], x);
      Distributes(x, Eval(p[..n], x), Eval(q[..n], x));
      AddSwap(Mul(Eval(p[..n], x), x), Mul(Eval(q[..n], x), x), p[n], q[n]);
    }
  }

  lemma {:induction false} EvalScale(p: Poly, c: Byte, x: Byte)
    ensures Eval(Scale(p, c), x) == Mul(Eval(p, x), c)
  {
    hide Mul, Add;
    if p == [] {
      assert Scale(p, c) == [];
      Zero(c);
    } else {
      var n := |p| - 1;
      var e := Eval(p[..n], x);
      assert Scale(p, c)[..n] == Scale(p[..n], c);
      EvalScale(p[..n], c, x);
      Distributes(c, Mul(e, x), p[n]);
      MulSwap(e, c, x);
    }
  }

  lemma MulSwap(a: Byte, b: Byte, c: Byte)
    ensures Mul(Mul(a, b), c) == Mul(Mul(a, c), b)
  {
    hide Mul, Add;
    Associative(a, b, c);
    Associative(a, c, b);
    Commutative(b, c);
  }

  lemma {:induction false} EvalPadded(n: nat, p: Poly, x: Byte)
    ensures Eval(Zeros(n) + p, x) == Eval(p, x)
  {
    hide Mul, Add;
    if p != [] {
      assert (Zeros(n) + p)[..n + |p| - 1] == Zeros(n) + p[..|p| - 1];
      EvalPadded(n, p[..|p| - 1], x);
    } else if n > 0 {
      assert (Zeros(n) + p)[..n - 1] == Zeros(n - 1) + [];
      EvalPadded(n - 1, [], x);
      Zero(x);
      AddZero(0);
    } else {
      assert Zeros(n) + p == [];
    }
  }

  lemma EvalShifted(p: Poly, x: Byte)
    ensures Eval(p + [0], x) == Mul(Eval(p, x), x)
  {
    hide Mul, Add;
    assert (p + [0])[..|p|] == p;
    AddZero(Mul(Eval(p, x), x));
  }

  lemma EvalTimesLinear(p: Poly, root: Byte, x: Byte)
    ensures Eval(TimesLinear(p, root), x) == Mul(Eval(p, x), Add(x, root))
  {
    hide Mul, Add;
    EvalPlus(p + [0], [0] + Scale(p, root), x);
    EvalShifted(p, x);
    assert Zeros(1) == [0];
    EvalPadded(1, Scale(p, root), x);
    EvalScale(p, root, x);
    Distributes(Eval(p, x), x, root);
  }

  lemma LinearVanishes(p: Poly, root: Byte, x: Byte)
    requires x == root || Eval(p, x) == 0
    ensures Eval(TimesLinear(p, root), x) == 0
  {
    hide Mul, Add;
    EvalTimesLinear(p, root, x);
    if x == root {
      AddSelf(x);
      Zero(Eval(p, x));
    } else {
      Zero(Add(x, root));
    }
  }

  /** 2^k is a root of p. */
  predicate RootOf(p: Poly, k: nat) {
    Eval(p, Root(k)) == 0
  }

  ghost predicate Vanishes(p: Poly, n: nat) {
    forall k: nat :: k < n ==> RootOf(p, k)
  }

  lemma StaysRoot(p: Poly, n: nat, k: nat)
    requires k == n || RootOf(p, k)
    ensures RootOf(TimesLinear(p, Root(n)), k)
  {
    hide Mul, Add;
    LinearVanishes(p, Root(n), Root(k));
  }

  lemma VanishesStep(p: Poly, n: nat)
    requires Vanishes(p, n)
    ensures Vanishes(TimesLinear(p, Root(n)), n + 1)
  {
    hide Mul, Add;
    forall k: nat | k < n + 1 ensures RootOf(TimesLinear(p, Root(n)), k) {
      StaysRoot(p, n, k);
    }
  }

  lemma GeneratorStep(n: nat)
    ensures Generator(n + 1) == TimesLinear(Generator(n), Root(n))
  {
  }

  /** The generator polynomial vanishes at 2^0 .. 2^(n-1). */
  lemma {:induction false} GeneratorRoots(n: nat)
    ensures Vanishes(Generator(n), n)
  {
    hide Mul, Add, Plus, Scale, Zeros, Eval, TimesLinear, RootOf, Root;
    if n > 0 {
      GeneratorRoots(n - 1);
      VanishesStep(Generator(n - 1), n - 1);
    }
  }

  lemma {:induction false} EvalProduct(q: Poly, g: Poly, x: Byte)
    requires g != []
    ensures Eval(Product(q, g), x) == Mul(Eval(q, x), Eval(g, x))
  {
    hide Mul, Add;
    if q == [] {
      assert Zeros(|g| - 1) == Zeros(|g| - 1) + [];
      EvalPadded(|g| - 1, [], x);
      Zero(Eval(g, x));
    } else {
      var n := |q| - 1;
      EvalPlus(Product(q[..n], g) + [0], Zeros(n) + Scale(g, q[n]), x);
      EvalShifted(Product(q[..n], g), x);
      EvalProduct(q[..n], g, x);
      EvalPadded(n, Scale(g, q[n]), x);
      EvalScale(g, q[n], x);
      MulSwap(Eval(q[..n], x), Eval(g, x), x);
      Commutative(Eval(g, x), q[n]);
      Distributes(Eval(g, x), Mul(Eval(q[..n], x), x), q[n]);
    }
  }

  // The generator polynomial, computed in place.

  lemma {:induction false} TimesLinearPadded(n: nat, p: Poly, root: Byte)
    ensures TimesLinear(Zeros(n) + p, root) == Zeros(n) + TimesLinear(p, root)
  {
    hide Mul, Add;
    var left, right := TimesLinear(Zeros(n) + p, root), Zeros(n) + TimesLinear(p, root);
    Zero(root);
    AddZero(0);
    forall i | 0 <= i < |left| ensures left[i] == right[i] {
      if i == 0 {} else if i < n {} else if i == n {} else {}
    }
  }

  lemma {:induction false} GeneratorLeading(n: nat)
    ensures Generator(n)[0] == 1
  {
    hide Mul, Add;
    if n > 0 {
      GeneratorLeading(n - 1);
      AddZero(1);
    }
  }

  /** The generator without its leading one. */
  function Divisor(degree: nat): (d: Poly)
    ensures |d| == degree
  {
    Generator(degree)[1..]
  }

  lemma DivisorMonic(degree: nat)
    ensures [1] + Divisor(degree) == Generator(degree)
  {
    hide Generator;
    GeneratorLeading(degree);
  }

  /** The inner loop: every coefficient times root, plus its right neighbour. */
  method MultiplyByLinear(result: array<Byte>, root: Byte)
    modifies result
    ensures forall k :: 0 <= k < result.Length ==> result[k] == DivisorStep(old(result[..]), root, k)
  {
    hide Mul, Add;
    ghost var before := result[..];
    for j := 0 to result.Length
      invariant forall k :: j <= k < result.Length ==> result[k] == before[k]
      invariant forall k :: 0 <= k < j ==> result[k] == DivisorStep(before, root, k)
    {
      var product := Multiply(result[j], root);
      result[j] := product.value;
      AddZero(product.value);
      if j + 1 < result.Length {
        result[j] := Add(result[j], result[j + 1]);
      }
    }
  }

  /** The coefficients below the leading one of the generator polynomial; None models the
      ValueError for a degree out of range. */
  method ComputeDivisor(degree: int) returns (r: Option<array<Byte>>)
    ensures r.Some? <==> 1 <= degree <= 255
    ensures r.Some? ==> fresh(r.value) && r.value[..] == Divisor(degree)
  {
    hide Mul, Add, Remaining, DivisorStep, Generator, Zeros;
    if !(1 <= degree <= 255) {
      return None;
    }
    var result := new Byte[degree](i => if i == degree - 1 then 1 else 0);
    var root: Byte := 1;
    RemainingInit(degree, result[..]);
    for i := 0 to degree
      invariant root == Root(i)
      invariant result[..] == Remaining(degree, i)
    {
      ghost var before := result[..];
      MultiplyByLinear(result, root);
      DivisorPass(before, result[..], root, degree, i);
      var next := Multiply(root, 0x02);
      root := next.value;
    }
    RemainingDone(degree);
    return Some(result);
  }

  /** The contents of the divisor array after i factors: the product so far, right-aligned. */
  function Remaining(degree: nat, i: nat): (r: Poly)
    requires i <= degree
    ensures |r| == degree
  {
    (Zeros(degree - i) + Generator(i))[1..]
  }

  lemma RemainingInit(degree: nat, result: Poly)
    requires |result| == degree > 0
    requires forall i :: 0 <= i < degree ==> result[i] == if i == degree - 1 then 1 else 0
    ensures result == Remaining(degree, 0)
  {
  }

  lemma RemainingDone(degree: nat)
    ensures [1] + Remaining(degree, degree) == Generator(degree)
  {
    assert Zeros(0) + Generator(degree) == Generator(degree);
    GeneratorLeading(degree);
  }

  function DivisorStep(before: Poly, root: Byte, k: nat): Byte
    requires k < |before|
  {
    Add(Mul(before[k], root), if k + 1 < |before| then before[k + 1] else 0)
  }

  /** One pass of the inner loop multiplies by (x - root) and drops the leading coefficient. */
  lemma DivisorPass(before: Poly, after: Poly, root: Byte, degree: nat, i: nat)
    requires i < degree == |before| == |after|
    requires before == Remaining(degree, i)
    requires forall k :: 0 <= k < degree ==> after[k] == DivisorStep(before, root, k)
    requires root == Root(i)
    ensures after == Remaining(degree, i + 1)
  {
    hide Mul, Add, Scale, Zeros, Plus, Generator, Root;
    var n := degree - i - 1;
    assert before == Zeros(n) + Generator(i);
    TimesLinearPadded(n, Generator(i), root);
    GeneratorStep(i);
    forall k | 0 <= k < degree ensures after[k] == TimesLinear(before, root)[k + 1] {
      PassAt(before, root, k);
    }
    assert TimesLinear(before, root) == Zeros(n) + Generator(i + 1);
  }

  lemma PassAt(before: Poly, root: Byte, k: nat)
    requires k < |before|
    ensures DivisorStep(before, root, k) == TimesLinear(before, root)[k + 1]
  {
    hide Mul, Add, Scale, Zeros, Plus;
    AddCommutative(Mul(before[k], root), if k + 1 < |before| then before[k + 1] else 0);
    assert ([0] + Scale(before, root))[k + 1] == Mul(before[k], root);
  }

  // The remainder.

  /** One step of the division: the next data byte b against the register r. */
  function DivideStep(r: Poly, b: Byte, divisor: Poly): (r': Poly)
    requires |r| == |divisor| > 0
    ensures |r'| == |r|
  {
    Plus(r[1..] + [0], Scale(divisor, Add(b, r[0])))
  }

  function Divide(data: Poly, divisor: Poly): (r: Poly)
    requires divisor != []
    ensures |r| == |divisor|
  {
    if data == [] then Zeros(|divisor|)
    else DivideStep(Divide(data[..|data| - 1], divisor), data[|data| - 1], divisor)
  }

  /** The quotient that the division leaves behind: the factors it subtracted. */
  function Quotient(data: Poly, divisor: Poly): (q: Poly)
    requires divisor != []
    ensures |q| == |data|
  {
    if data == [] then []
    else
      var n := |data| - 1;
      Quotient(data[..n], divisor) + [Add(data[n], Divide(data[..n], divisor)[0])]
  }

  lemma ProductStep(q: Poly, f: Byte, g: Poly)
    requires g != []
    ensures Product(q + [f], g) == Plus(Product(q, g) + [0], Zeros(|q|) + Scale(g, f))
  {
    assert (q + [f])[..|q|] == q;
  }

  lemma StepIdentity(p: Poly, r: Poly, q: Poly, b: Byte, divisor: Poly)
    requires |r| == |divisor| > 0 && |q| == |p|
    requires p + r == Product(q, [1] + divisor)
    ensures p + [b] + DivideStep(r, b, divisor) == Product(q + [Add(b, r[0])], [1] + divisor)
  {
    hide Mul, Add, Product, Plus, Scale, Zeros;
    var f := Add(b, r[0]);
    var low := Zeros(|q|) + Scale([1] + divisor, f);
    ProductStep(q, f, [1] + divisor);
    StepHigh(p, r, b, divisor, low);
  }

  lemma StepHigh(p: Poly, r: Poly, b: Byte, divisor: Poly, low: Poly)
    requires |r| == |divisor| > 0
    requires low == Zeros(|p|) + Scale([1] + divisor, Add(b, r[0]))
    ensures p + [b] + DivideStep(r, b, divisor) == Plus(p + r + [0], low)
  {
    hide Mul, Add, Product, Plus, Scale, Zeros;
    var n := |p|;
    var f := Add(b, r[0]);
    var left, right := p + [b] + DivideStep(r, b, divisor), Plus(p + r + [0], low);
    forall i | 0 <= i < n ensures left[i] == right[i] {
      AddZero(p[i]);
      assert low[i] == 0;
    }
    assert left[n] == right[n] by {
      assert low[n] == Scale([1] + divisor, f)[0] == Mul(1, f);
      One(f);
      AddCommutative(b, r[0]);
      AddCancel(b, r[0]);
    }
    forall i | n < i < |left| ensures left[i] == right[i] {
      assert low[i] == Scale([1] + divisor, f)[i - n] == Scale(divisor, f)[i - n - 1];
      assert (p + r + [0])[i] == (r[1..] + [0])[i - n - 1];
    }
  }

  /** Data shifted by the degree, plus the remainder, is an exact multiple of the divisor. */
  lemma {:induction false} Division(data: Poly, divisor: Poly)
    requires divisor != []
    ensures data + Divide(data, divisor) == Product(Quotient(data, divisor), [1] + divisor)
  {
    hide Mul, Add, Plus, Scale, Zeros, DivideStep;
    if data == [] {
      assert data + Divide(data, divisor) == Zeros(|divisor|);
    } else {
      var n := |data| - 1;
      Division(data[..n], divisor);
      StepIdentity(data[..n], Divide(data[..n], divisor), Quotient(data[..n], divisor), data[n], divisor);
      assert data[..n] + [data[n]] == data;
    }
  }

  lemma ProductLeading(p: Poly, f: Byte, g: Poly, i: nat)
    requires i <= |p| && g != [] && g[0] == 1
    ensures i < |p| ==> Product(p + [f], g)[i] == Product(p, g)[i]
    ensures i == |p| ==> Product(p + [f], g)[i] == Add((Product(p, g) + [0])[i], f)
  {
    hide Mul, Add, Product, Plus, Scale, Zeros;
    ProductStep(p, f, g);
    var high, low := Product(p, g) + [0], Zeros(|p|) + Scale(g, f);
    assert Product(p + [f], g)[i] == Add(high[i], low[i]);
    if i < |p| {
      AddZero(high[i]);
    } else {
      One(f);
      assert low[i] == Scale(g, f)[0];
    }
  }

  /** The leading coefficients of a multiple of a monic polynomial determine the multiplier. */
  lemma {:induction false} QuotientUnique(p: Poly, q: Poly, g: Poly)
    requires |p| == |q| && g != [] && g[0] == 1
    requires Product(p, g)[..|p|] == Product(q, g)[..|q|]
    ensures p == q
  {
    if p != [] {
      var n := |p| - 1;
      assert p == p[..n] + [p[n]] && q == q[..n] + [q[n]];
      LeadingAgree(p[..n], p[n], q[..n], q[n], g);
      QuotientUnique(p[..n], q[..n], g);
      LastAgrees(p[..n], p[n], q[n], g);
    }
  }

  lemma LeadingAgree(p: Poly, e: Byte, q: Poly, f: Byte, g: Poly)
    requires |p| == |q| && g != [] && g[0] == 1
    requires Product(p + [e], g)[..|p| + 1] == Product(q + [f], g)[..|q| + 1]
    ensures Product(p, g)[..|p|] == Product(q, g)[..|q|]
  {
    hide *;
    forall i | 0 <= i < |p| ensures Product(p, g)[..|p|][i] == Product(q, g)[..|q|][i] {
      ProductLeading(p, e, g, i);
      ProductLeading(q, f, g, i);
      assert Product(p + [e], g)[..|p| + 1][i] == Product(q + [f], g)[..|q| + 1][i];
    }
  }

  lemma LastAgrees(p: Poly, e: Byte, f: Byte, g: Poly)
    requires g != [] && g[0] == 1
    requires Product(p + [e], g)[..|p| + 1] == Product(p + [f], g)[..|p| + 1]
    ensures e == f
  {
    hide *;
    var n := |p|;
    var carry := (Product(p, g) + [0])[n];
    ProductLeading(p, e, g, n);
    ProductLeading(p, f, g, n);
    assert Product(p + [e], g)[..n + 1][n] == Product(p + [f], g)[..n + 1][n];
    AddCommutative(carry, e);
    AddCommutative(carry, f);
    AddCancel(e, carry);
    AddCancel(f, carry);
  }

  /** The remainder is the only one: whatever completes the data to a multiple is it. */
  lemma RemainderUnique(data: Poly, divisor: Poly, q: Poly, r: Poly)
    requires divisor != [] && |r| == |divisor| && |q| == |data|
    requires data + r == Product(q, [1] + divisor)
    ensures r == Divide(data, divisor)
  {
    hide Mul, Add;
    Division(data, divisor);
    var g := [1] + divisor;
    var d := Divide(data, divisor);
    assert (data + r)[..|q|] == data == (data + d)[..|q|];
    QuotientUnique(q, Quotient(data, divisor), g);
    assert r == (data + r)[|data|..] == (data + d)[|data|..] == d;
  }

  method ComputeRemainder(data: Poly, divisor: Poly) returns (result: Poly)
    requires divisor != []
    ensures result == Divide(data, divisor)
  {
    hide Mul, Add;
    result := Zeros(|divisor|);
    for n := 0 to |data|
      invariant result == Divide(data[..n], divisor)
    {
      ghost var before := result;
      var factor: Byte := Add(data[n], result[0]);
      result := result[1..] + [0];
      ghost var shifted := result;
      for i := 0 to |divisor|
        invariant |result| == |divisor|
        invariant forall k :: i <= k < |divisor| ==> result[k] == shifted[k]
        invariant forall k :: 0 <= k < i ==> result[k] == Add(shifted[k], Mul(divisor[k], factor))
      {
        var product := Multiply(divisor[i], factor);
        result := result[i := Add(result[i], product.value)];
      }
      assert result == DivideStep(before, data[n], divisor);
      assert data[..n + 1][..n] == data[..n];
    }
    assert data[..|data|] == data;
  }

  /** The codeword theorem: data of any length, followed by its remainder for the generator of
      any degree, vanishes at 2^0 .. 2^(degree-1). */
  lemma CodewordRoots(data: Poly, degree: nat)
    requires degree >= 1
    ensures forall k: nat :: k < degree ==> RootOf(data + Divide(data, Divisor(degree)), k)
  {
    hide Mul, Add, Divisor;
    DivisorMonic(degree);
    Division(data, Divisor(degree));
    GeneratorRoots(degree);
    forall k: nat | k < degree ensures RootOf(data + Divide(data, Divisor(degree)), k) {
      var q := Quotient(data, Divisor(degree));
      assert RootOf(Generator(degree), k);
      EvalProduct(q, Generator(degree), Root(k));
      Zero(Eval(q, Root(k)));
    }
  }
}
