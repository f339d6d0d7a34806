/** How many wrong codewords a block tolerates: two different blocks with the same number of error
    correction codewords differ in more places than that number (section 7.5.1 of
    ISO/IEC 18004:2015), so up to half as many errors leave only one block to decode to. */
module CodeDistance {
  import opened Bits
  import opened GaloisField
  import opened GaloisPowers
  import opened ReedSolomon

  /** One coefficient of a polynomial, and the power of 2 that its place stands for. */
  datatype Term = Term(value: Byte, locator: Byte)

  function Pow(x: Byte, k: nat): Byte {
    if k == 0 then 1 else Mul(Pow(x, k - 1), x)
  }

  function Weigh(t: Term, k: nat): Byte {
    Mul(t.value, Pow(t.locator, k))
  }

  function Syndrome(terms: seq<Term>, k: nat): Byte {
    if terms == [] then 0
    else Add(Syndrome(terms[..|terms| - 1], k), Weigh(terms[|terms| - 1], k))
  }

  predicate DistinctLocators(terms: seq<Term>) {
    forall i, j :: 0 <= i < j < |terms| ==> terms[i].locator != terms[j].locator
  }

  predicate AllZero(terms: seq<Term>) {
    forall i :: 0 <= i < |terms| ==> terms[i].value == 0
  }

  // The elimination of one locator.

  function Reduced(t: Term, x: Byte): Term {
    Term(Mul(t.value, Add(t.locator, x)), t.locator)
  }

  function Reduce(terms: seq<Term>, x: Byte): (r: seq<Term>)
    ensures |r| == |terms| && forall i :: 0 <= i < |r| ==> r[i] == Reduced(terms[i], x)
  {
    seq(|terms|, i requires 0 <= i < |terms| => Reduced(terms[i], x))
  }

  lemma ReducedWeight(t: Term, x: Byte, k: nat)
    ensures Weigh(Reduced(t, x), k) == Add(Weigh(t, k + 1), Mul(x, Weigh(t, k)))
  {
    hide Mul, Add;
    var p := Pow(t.locator, k);
    Associative(t.value, Add(t.locator, x), p);
    Distributes(p, t.locator, x);
    Distributes(t.value, Mul(t.locator, p), Mul(x, p));
    Commutative(t.locator, p);
    Associative(x, t.value, p);
    Associative(t.value, x, p);
    Commutative(x, t.value);
  }

  lemma {:induction false} ReduceSyndrome(terms: seq<Term>, x: Byte, k: nat)
    ensures Syndrome(Reduce(terms, x), k) == Add(Syndrome(terms, k + 1), Mul(x, Syndrome(terms, k)))
  {
    hide Mul, Add, Weigh, Reduced;
    if terms == [] {
      Zero(x);
      AddZero(0);
    } else {
      var n := |terms| - 1;
      var front, last := terms[..n], terms[n];
      assert Reduce(terms, x)[..n] == Reduce(front, x);
      ReduceSyndrome(front, x, k);
      ReducedWeight(last, x, k);
      Distributes(x, Syndrome(front, k), Weigh(last, k));
      AddSwap(Syndrome(front, k + 1), Mul(x, Syndrome(front, k)), Weigh(last, k + 1), Mul(x, Weigh(last, k)));
    }
  }

  /** If the last term is what the others add up to, eliminating its locator leaves nothing. */
  lemma EliminateLast(front: seq<Term>, last: Term, k: nat)
    requires Syndrome(front + [last], k) == 0 && Syndrome(front + [last], k + 1) == 0
    ensures Syndrome(Reduce(front, last.locator), k) == 0
  {
    hide Mul, Add, Pow;
    var terms, x := front + [last], last.locator;
    assert terms[..|front|] == front;
    ReduceSyndrome(terms, x, k);
    assert Reduce(terms, x)[..|front|] == Reduce(front, x);
    var vanished := Weigh(Reduced(last, x), k);
    AddSelf(x);
    Zero(last.value);
    Zero(Pow(x, k));
    Zero(x);
    AddZero(0);
    AddZero(Syndrome(Reduce(front, x), k));
  }

  /** Terms at distinct places whose first syndromes vanish, as many as there are terms, vanish
      themselves. */
  lemma {:induction false} Independent(terms: seq<Term>)
    requires DistinctLocators(terms) && forall k: nat :: k < |terms| ==> Syndrome(terms, k) == 0
    ensures AllZero(terms)
    decreases |terms|
  {
    hide Mul, Add, Pow, Weigh, Syndrome, Reduced;
    if terms != [] {
      var n := |terms| - 1;
      var front, last := terms[..n], terms[n];
      assert terms == front + [last];
      var reduced := Reduce(front, last.locator);
      forall k: nat | k < n ensures Syndrome(reduced, k) == 0 {
        EliminateLast(front, last, k);
      }
      ReducedPlaces(front, last.locator);
      Independent(reduced);
      FrontZero(front, last.locator);
      LastZero(front, last);
    }
  }

  lemma ReducedPlaces(terms: seq<Term>, x: Byte)
    requires DistinctLocators(terms)
    ensures DistinctLocators(Reduce(terms, x))
  {
    hide Mul, Add;
  }

  lemma FrontZero(front: seq<Term>, x: Byte)
    requires AllZero(Reduce(front, x)) && forall i :: 0 <= i < |front| ==> front[i].locator != x
    ensures AllZero(front)
  {
    hide Mul, Add;
    forall i | 0 <= i < |front| ensures front[i].value == 0 {
      var t := front[i];
      assert Reduce(front, x)[i] == Reduced(t, x);
      SumZero(t.locator, x);
      Commutative(t.value, Add(t.locator, x));
      NoZeroDivisors(Add(t.locator, x), t.value);
    }
  }

  lemma SumZero(a: Byte, b: Byte)
    ensures Add(a, b) == 0 <==> a == b
  {
    hide Add;
    AddSelf(a);
    if Add(a, b) == 0 {
      AddCommutative(a, b);
      AddCancel(b, a);
      AddCommutative(0, a);
      AddZero(a);
    }
  }

  lemma LastZero(front: seq<Term>, last: Term)
    requires AllZero(front) && Syndrome(front + [last], 0) == 0
    ensures AllZero(front + [last])
  {
    hide Mul, Add;
    assert (front + [last])[..|front|] == front;
    ZeroSyndrome(front, 0);
    One(last.value);
    AddCommutative(0, last.value);
    AddZero(last.value);
  }

  lemma {:induction false} ZeroSyndrome(terms: seq<Term>, k: nat)
    requires AllZero(terms)
    ensures Syndrome(terms, k) == 0
  {
    hide Mul, Add;
    if terms != [] {
      ZeroSyndrome(terms[..|terms| - 1], k);
      Zero(Pow(terms[|terms| - 1].locator, k));
      AddZero(0);
    }
  }

  // Words.

  /** The terms of a word that stands `shift` places to the left. */
  function Terms(word: Poly, shift: nat): (terms: seq<Term>)
    ensures |terms| == |word|
  {
    if word == [] then []
    else Terms(word[..|word| - 1], shift + 1) + [Term(word[|word| - 1], Root(shift))]
  }

  lemma {:induction false} TermsAt(word: Poly, shift: nat, i: nat)
    requires i < |word|
    ensures Terms(word, shift)[i] == Term(word[i], Root(shift + |word| - 1 - i))
  {
    hide Root;
    var n := |word| - 1;
    if i < n { TermsAt(word[..n], shift + 1, i); }
  }

  lemma {:induction false} PowNext(s: nat, k: nat)
    ensures Pow(Root(s + 1), k) == Mul(Root(k), Pow(Root(s), k))
  {
    if k == 0 {
      One(1);
    } else {
      hide Mul;
      PowNext(s, k - 1);
      var p := Pow(Root(s), k - 1);
      // (a p) (x 2) == (a 2) (p x)
      Associative(Mul(Root(k - 1), p), Root(s), 2);
      Associative(Root(k - 1), p, Root(s));
      Commutative(Mul(Root(k - 1), Mul(p, Root(s))), 2);
      Associative(2, Root(k - 1), Mul(p, Root(s)));
      Commutative(2, Root(k - 1));
    }
  }

  /** A word's value at 2^k is its k-th syndrome. */
  lemma {:induction false} EvalSyndrome(word: Poly, shift: nat, k: nat)
    ensures Mul(Eval(word, Root(k)), Pow(Root(shift), k)) == Syndrome(Terms(word, shift), k)
  {
    if word == [] {
      hide Mul;
      Zero(Pow(Root(shift), k));
    } else {
      hide Mul, Add, Root, Pow;
      var n := |word| - 1;
      var front, last := word[..n], word[n];
      var e, p := Eval(front, Root(k)), Pow(Root(shift), k);
      assert Terms(word, shift)[..n] == Terms(front, shift + 1);
      EvalSyndrome(front, shift + 1, k);
      PowNext(shift, k);
      Associative(e, Root(k), p);
      Distributes(p, Mul(e, Root(k)), last);
    }
  }

  lemma RootSyndrome(word: Poly, k: nat)
    requires RootOf(word, k)
    ensures Syndrome(Terms(word, 0), k) == 0
  {
    hide Mul, Add, Syndrome, Eval;
    EvalSyndrome(word, 0, k);
    Zero(Pow(Root(0), k));
  }

  function Nonzero(terms: seq<Term>): seq<Term> {
    if terms == [] then []
    else Nonzero(terms[..|terms| - 1]) + (if terms[|terms| - 1].value == 0 then [] else [terms[|terms| - 1]])
  }

  lemma {:induction false} NonzeroSyndrome(terms: seq<Term>, k: nat)
    ensures Syndrome(Nonzero(terms), k) == Syndrome(terms, k)
  {
    hide Mul, Add;
    if terms != [] {
      var n := |terms| - 1;
      NonzeroSyndrome(terms[..n], k);
      if terms[n].value == 0 {
        Zero(Pow(terms[n].locator, k));
        AddZero(Syndrome(terms[..n], k));
        assert Nonzero(terms) == Nonzero(terms[..n]);
      } else {
        assert Nonzero(terms)[..|Nonzero(terms)| - 1] == Nonzero(terms[..n]);
      }
    }
  }

  lemma {:induction false} NonzeroPlaces(terms: seq<Term>)
    requires DistinctLocators(terms)
    ensures DistinctLocators(Nonzero(terms))
    ensures forall t :: t in Nonzero(terms) ==> t in terms && t.value != 0
  {
    if terms != [] {
      var n := |terms| - 1;
      NonzeroPlaces(terms[..n]);
      assert forall t :: t in terms[..n] ==> t.locator != terms[n].locator;
    }
  }

  lemma PlacesDistinct(word: Poly)
    requires |word| <= 255
    ensures DistinctLocators(Terms(word, 0))
  {
    hide Root;
    forall i, j | 0 <= i < j < |word| ensures Terms(word, 0)[i].locator != Terms(word, 0)[j].locator {
      TermsAt(word, 0, i);
      TermsAt(word, 0, j);
      RootsDistinct(|word| - 1 - j, |word| - 1 - i);
    }
  }

  /** A word of at most 255 places that vanishes at 2^0 .. 2^(n-1) has more than n nonzero places,
      or none. */
  lemma Heavy(word: Poly, n: nat)
    requires |word| <= 255 && forall k: nat :: k < n ==> RootOf(word, k)
    ensures Nonzero(Terms(word, 0)) == [] || |Nonzero(Terms(word, 0))| > n
  {
    hide Syndrome, RootOf, Root;
    var terms := Terms(word, 0);
    var some := Nonzero(terms);
    PlacesDistinct(word);
    NonzeroPlaces(terms);
    if |some| <= n {
      forall k: nat | k < |some| ensures Syndrome(some, k) == 0 {
        RootSyndrome(word, k);
        NonzeroSyndrome(terms, k);
      }
      if some != [] { NotAllZero(some); }
      Independent(some);
    }
  }

  lemma NotAllZero(terms: seq<Term>)
    requires terms != [] && forall t :: t in terms ==> t.value != 0
    ensures !AllZero(terms)
  {
    assert terms[0] in terms;
  }

  // Distance.

  /** In how many places two words differ. */
  function Distance(c: Poly, d: Poly): nat
    requires |c| == |d|
  {
    if c == [] then 0
    else
      var n := |c| - 1;
      Distance(c[..n], d[..n]) + (if c[n] == d[n] then 0 else 1)
  }

  lemma {:induction false} DistanceWeight(c: Poly, d: Poly, shift: nat)
    requires |c| == |d|
    ensures Distance(c, d) == |Nonzero(Terms(Plus(c, d), shift))|
  {
    hide Add, Root;
    if c != [] {
      var n := |c| - 1;
      DistanceWeight(c[..n], d[..n], shift + 1);
      SumZero(c[n], d[n]);
      assert Plus(c, d)[..n] == Plus(c[..n], d[..n]);
    }
  }

  lemma {:induction false} NoDistance(c: Poly, d: Poly)
    requires |c| == |d| && Distance(c, d) == 0
    ensures c == d
  {
    if c != [] {
      var n := |c| - 1;
      NoDistance(c[..n], d[..n]);
      assert c == c[..n] + [c[n]] && d == d[..n] + [d[n]];
    }
  }

  /** The minimum distance: different words of at most 255 places that both vanish at
      2^0 .. 2^(n-1) differ in more than n places. */
  lemma MinimumDistance(c: Poly, d: Poly, n: nat)
    requires |c| == |d| <= 255 && c != d
    requires forall k: nat :: k < n ==> RootOf(c, k) && RootOf(d, k)
    ensures Distance(c, d) > n
  {
    hide Eval, Root;
    forall k: nat | k < n ensures RootOf(Plus(c, d), k) {
      SumVanishes(c, d, k);
    }
    Heavy(Plus(c, d), n);
    DistanceWeight(c, d, 0);
    if Distance(c, d) == 0 { NoDistance(c, d); }
  }

  lemma SumVanishes(c: Poly, d: Poly, k: nat)
    requires |c| == |d| && RootOf(c, k) && RootOf(d, k)
    ensures RootOf(Plus(c, d), k)
  {
    hide Mul, Add, Eval, Root;
    EvalPlus(c, d, Root(k));
    AddZero(0);
  }

  /** A block: data followed by its error correction. */
  function Block(data: Poly, ecc: nat): Poly
    requires ecc >= 1
  {
    data + Divide(data, Divisor(ecc))
  }

  lemma DataInFront(data: Poly, ecc: nat)
    requires ecc >= 1
    ensures |Block(data, ecc)| == |data| + ecc && Block(data, ecc)[..|data|] == data
  {
  }

  /** Blocks of different data differ in more places than they have error correction codewords. */
  lemma BlocksApart(data: Poly, other: Poly, ecc: nat)
    requires ecc >= 1 && |data| == |other| && data != other && |data| + ecc <= 255
    ensures |Block(data, ecc)| == |Block(other, ecc)| && Distance(Block(data, ecc), Block(other, ecc)) > ecc
  {
    hide Divide, Divisor, RootOf;
    DataInFront(data, ecc);
    DataInFront(other, ecc);
    CodewordRoots(data, ecc);
    CodewordRoots(other, ecc);
    MinimumDistance(Block(data, ecc), Block(other, ecc), ecc);
  }

  lemma {:induction false} Triangle(c: Poly, r: Poly, d: Poly)
    requires |c| == |r| == |d|
    ensures Distance(c, d) <= Distance(c, r) + Distance(r, d)
  {
    if c != [] {
      var n := |c| - 1;
      Triangle(c[..n], r[..n], d[..n]);
    }
  }

  lemma {:induction false} Symmetric(c: Poly, d: Poly)
    requires |c| == |d|
    ensures Distance(c, d) == Distance(d, c)
  {
    if c != [] { Symmetric(c[..|c| - 1], d[..|c| - 1]); }
  }

  /** Tolerated errors: a received block with at most half as many wrong codewords as there are
      error correction codewords has only one data to be decoded to. */
  lemma ErrorsTolerated(received: Poly, data: Poly, other: Poly, ecc: nat)
    requires ecc >= 1 && |data| == |other| && |received| == |data| + ecc <= 255
    requires |Block(data, ecc)| == |Block(other, ecc)| == |received|
    requires 2 * Distance(received, Block(data, ecc)) <= ecc && 2 * Distance(received, Block(other, ecc)) <= ecc
    ensures data == other
  {
    hide Distance, Block;
    Symmetric(received, Block(data, ecc));
    Triangle(Block(data, ecc), received, Block(other, ecc));
    if data != other { BlocksApart(data, other, ecc); }
  }
}
