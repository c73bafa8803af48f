/** GF(2)[x] modulo x^64 + c, the arithmetic behind the UIA2 polynomial MAC (3GPP TS 35.215, section 4.3).

    A bv64 is a polynomial: bit i is the coefficient of x^i, addition is exclusive-or. Everything below holds for
    every reduction constant c, not only the 0x1b that f9 uses. Algebraic steps hide the bit-level definitions, so
    the solver reasons about an abelian group with a linear map and never about 64 single bits. */
module Gf64 {

  // ----- the operations of the machine word, named so that proofs can hide them

  function Add(a: bv64, b: bv64): bv64 { a ^ b }

  function Shl(v: bv64): bv64 { v << 1 }

  predicate TopSet(v: bv64) { v & 0x8000_0000_0000_0000 != 0 }

  function Term(v: bv64, p: bv64): bv64 { if p & 1 == 1 then v else 0 }

  // ----- the source's functions

  function MUL64x(V: bv64, c: bv64): bv64 {
    if TopSet(V) then Add(Shl(V), c) else Shl(V)
  }

  function MUL64xPOW(V: bv64, i: bv8, c: bv64): bv64
    decreases i
  {
    if i == 0 then V else MUL64x(MUL64xPOW(V, i - 1, c), c)
  }

  /** The constant of f9. */
  const C: bv64 := 0x1b

  // ----- the reference: multiplication by Horner's rule over the bits of the second factor

  /** The product v * p modulo x^64 + c: with p = x * p' + p0, it is x * (v * p') + p0 * v. */
  function Product(v: bv64, p: bv64, c: bv64): bv64
    decreases p
  {
    if p == 0 then 0 else Add(MUL64x(Product(v, p >> 1, c), c), Term(v, p))
  }

  function Power(p: bv64, n: nat, c: bv64): bv64 {
    if n == 0 then 1 else Product(Power(p, n - 1, c), p, c)
  }

  // ----- the group of bv64 under exclusive-or

  lemma AddComm(a: bv64, b: bv64)
    ensures Add(a, b) == Add(b, a)
  {
  }

  lemma AddAssoc(a: bv64, b: bv64, d: bv64)
    ensures Add(Add(a, b), d) == Add(a, Add(b, d))
  {
    hide Add;
    AddIsXor(a, b);
    AddIsXor(b, d);
    XorAssoc(a, b, d);
  }

  lemma AddIsXor(a: bv64, b: bv64)
    ensures Add(a, b) == a ^ b
  {
  }

  lemma XorAssoc(a: bv64, b: bv64, d: bv64)
    ensures Add(a ^ b, d) == Add(a, b ^ d)
  {
  }

  lemma AddZero(a: bv64)
    ensures Add(a, 0) == a && Add(0, a) == a && Add(a, a) == 0
  {
  }

  lemma DifferentSum(x: bv64, r: bv64)
    requires x != r
    ensures Add(x, r) != 0
  {
  }

  lemma AddSwap(a: bv64, b: bv64, d: bv64, e: bv64)
    ensures Add(Add(a, b), Add(d, e)) == Add(Add(a, d), Add(b, e))
  {
    hide *;
    AddAssoc(a, b, Add(d, e));
    AddAssoc(b, d, e);
    AddComm(b, d);
    AddAssoc(d, b, e);
    AddAssoc(a, d, Add(b, e));
  }

  // ----- multiplication by x is linear

  lemma ShlAdd(v: bv64, w: bv64)
    ensures Shl(Add(v, w)) == Add(Shl(v), Shl(w))
  {
    hide Shl, Add;
    AddIsXor(v, w);
    AddIsXor(Shl(v), Shl(w));
    ShlXor(v, w);
  }

  lemma ShlXor(v: bv64, w: bv64)
    ensures Shl(v ^ w) == Shl(v) ^ Shl(w)
  {
    assert (v ^ w) << 1 == (v << 1) ^ (w << 1);
  }

  lemma TopAdd(v: bv64, w: bv64)
    ensures TopSet(Add(v, w)) <==> TopSet(v) != TopSet(w)
  {
    TopBit(v);
    TopBit(w);
    assert (v ^ w) & 0x8000_0000_0000_0000 == (v & 0x8000_0000_0000_0000) ^ (w & 0x8000_0000_0000_0000);
  }

  lemma TopBit(v: bv64)
    ensures v & 0x8000_0000_0000_0000 == 0 || v & 0x8000_0000_0000_0000 == 0x8000_0000_0000_0000
  {
  }

  lemma XForm(v: bv64, c: bv64)
    ensures MUL64x(v, c) == Add(Shl(v), if TopSet(v) then c else 0)
  {
    hide Add, Shl, TopSet;
    AddZero(Shl(v));
  }

  lemma XLinear(v: bv64, w: bv64, c: bv64)
    ensures MUL64x(Add(v, w), c) == Add(MUL64x(v, c), MUL64x(w, c))
  {
    hide *;
    XForm(v, c);
    XForm(w, c);
    XForm(Add(v, w), c);
    ShlAdd(v, w);
    TopAdd(v, w);
    AddZero(c);
    AddZero(0);
    AddSwap(Shl(v), Shl(w), if TopSet(v) then c else 0, if TopSet(w) then c else 0);
  }

  lemma XZero(c: bv64)
    ensures MUL64x(0, c) == 0
  {
  }

  lemma TermLaws(v: bv64, w: bv64, p: bv64, c: bv64)
    ensures Term(Add(v, w), p) == Add(Term(v, p), Term(w, p))
    ensures MUL64x(Term(v, p), c) == Term(MUL64x(v, c), p)
    ensures Term(0, p) == 0
  {
    hide Add, MUL64x;
    XZero(c);
    AddZero(0);
  }

  // ----- Product is bilinear, commutative, associative, with unit 1

  lemma {:induction false} ProductAddLeft(v: bv64, w: bv64, p: bv64, c: bv64)
    ensures Product(Add(v, w), p, c) == Add(Product(v, p, c), Product(w, p, c))
    decreases p
  {
    hide Add, MUL64x, Term;
    if p == 0 {
      AddZero(0);
    } else {
      var a, b := Product(v, p >> 1, c), Product(w, p >> 1, c);
      ProductAddLeft(v, w, p >> 1, c);
      XLinear(a, b, c);
      TermLaws(v, w, p, c);
      AddSwap(MUL64x(a, c), MUL64x(b, c), Term(v, p), Term(w, p));
    }
  }

  lemma {:induction false} ProductXLeft(v: bv64, p: bv64, c: bv64)
    ensures Product(MUL64x(v, c), p, c) == MUL64x(Product(v, p, c), c)
    decreases p
  {
    hide Add, MUL64x, Term;
    if p == 0 {
      XZero(c);
    } else {
      var a := Product(v, p >> 1, c);
      ProductXLeft(v, p >> 1, c);
      XLinear(MUL64x(a, c), Term(v, p), c);
      TermLaws(v, v, p, c);
    }
  }

  lemma {:induction false} ProductZeroLeft(p: bv64, c: bv64)
    ensures Product(0, p, c) == 0
    decreases p
  {
    if p != 0 {
      ProductZeroLeft(p >> 1, c);
    }
  }

  lemma LowBit(p: bv64, c: bv64)
    ensures Add(MUL64x(p >> 1, c), p & 1) == p
    ensures Term(1, p) == p & 1
    ensures p & 1 == 0 || p & 1 == 1
    ensures p & 1 == 0 ==> forall v :: Term(v, p) == 0
    ensures p & 1 == 1 ==> forall v :: Term(v, p) == v
  {
    assert !TopSet(p >> 1) by {
      assert (p >> 1) & 0x8000_0000_0000_0000 == 0;
    }
    assert Add(Shl(p >> 1), p & 1) == p by {
      assert ((p >> 1) << 1) ^ (p & 1) == p;
    }
    assert p & 1 == 0 || p & 1 == 1;
  }

  lemma {:induction false} ProductOneLeft(p: bv64, c: bv64)
    ensures Product(1, p, c) == p
    decreases p
  {
    hide Add, MUL64x, Term;
    if p != 0 {
      ProductOneLeft(p >> 1, c);
      LowBit(p, c);
    }
  }

  lemma {:induction false} Commutative(v: bv64, p: bv64, c: bv64)
    ensures Product(v, p, c) == Product(p, v, c)
    decreases p
  {
    hide Add, MUL64x, Term;
    ProductZeroLeft(v, c);
    if p != 0 {
      Commutative(v, p >> 1, c);
      ProductXLeft(p >> 1, v, c);
      ProductAddLeft(MUL64x(p >> 1, c), p & 1, v, c);
      LowBit(p, c);
      ProductOneLeft(v, c);
    }
  }

  lemma Distributive(a: bv64, v: bv64, w: bv64, c: bv64)
    ensures Product(a, Add(v, w), c) == Add(Product(a, v, c), Product(a, w, c))
    ensures Product(Add(v, w), a, c) == Add(Product(v, a, c), Product(w, a, c))
  {
    hide *;
    Commutative(a, Add(v, w), c);
    Commutative(a, v, c);
    Commutative(a, w, c);
    ProductAddLeft(v, w, a, c);
  }

  lemma ProductXRight(v: bv64, p: bv64, c: bv64)
    ensures Product(v, MUL64x(p, c), c) == MUL64x(Product(v, p, c), c)
  {
    hide *;
    Commutative(v, MUL64x(p, c), c);
    ProductXLeft(p, v, c);
    Commutative(p, v, c);
  }

  lemma {:induction false} Associative(a: bv64, b: bv64, p: bv64, c: bv64)
    ensures Product(Product(a, b, c), p, c) == Product(a, Product(b, p, c), c)
    decreases p
  {
    hide Add, MUL64x, Term;
    if p == 0 {
    } else {
      var m := Product(b, p >> 1, c);
      Associative(a, b, p >> 1, c);
      ProductXRight(a, m, c);
      Distributive(a, MUL64x(m, c), Term(b, p), c);
      LowBit(p, c);
      assert Product(a, 0, c) == 0;
    }
  }

  lemma Unit(v: bv64, c: bv64)
    ensures Product(v, 1, c) == v && Product(1, v, c) == v
    ensures Product(v, 0, c) == 0 && Product(0, v, c) == 0
  {
    hide *;
    ProductOneLeft(v, c);
    ProductZeroLeft(v, c);
    Commutative(v, 1, c);
    Commutative(v, 0, c);
  }

  lemma PowerNext(p: bv64, n: nat, c: bv64)
    ensures Power(p, n + 1, c) == Product(Power(p, n, c), p, c)
  {
  }

  lemma PowerOne(p: bv64, c: bv64)
    ensures Power(p, 1, c) == p
  {
    hide Product;
    Unit(p, c);
    assert Power(p, 0, c) == 1;
  }

  // ----- the source's loop computes Product

  lemma {:induction false} PowLaws(v: bv64, w: bv64, i: bv8, c: bv64)
    ensures MUL64xPOW(MUL64x(v, c), i, c) == MUL64x(MUL64xPOW(v, i, c), c)
    ensures MUL64xPOW(Add(v, w), i, c) == Add(MUL64xPOW(v, i, c), MUL64xPOW(w, i, c))
    ensures MUL64xPOW(0, i, c) == 0
    decreases i
  {
    hide Add, MUL64x;
    if i != 0 {
      PowLaws(v, w, i - 1, c);
      XLinear(MUL64xPOW(v, i - 1, c), MUL64xPOW(w, i - 1, c), c);
      XZero(c);
    }
  }

  /** Taking the lowest bit off the second factor of x^i * (V * p). */
  lemma PeelBit(V: bv64, p: bv64, i: bv8, c: bv64)
    requires i < 64
    ensures MUL64xPOW(Product(V, p, c), i, c)
         == Add(MUL64xPOW(Product(V, p >> 1, c), i + 1, c), Term(MUL64xPOW(V, i, c), p))
  {
    hide Add, MUL64x, Term, MUL64xPOW;
    var rest := Product(V, p >> 1, c);
    PowLaws(MUL64x(rest, c), Term(V, p), i, c);
    PowLaws(rest, rest, i, c);
    PowLaws(0, 0, i + 1, c);
    PowStep(rest, i, c);
    LowBit(p, c);
    AddZero(0);
  }

  lemma PowStep(v: bv64, i: bv8, c: bv64)
    requires i < 64
    ensures MUL64xPOW(v, i + 1, c) == MUL64x(MUL64xPOW(v, i, c), c)
  {
  }

  /** The source tests (P >> i) & 1; the model carries P >> i along in `rest`. */
  method MUL64(V: bv64, P: bv64, c: bv64) returns (result: bv64)
    ensures result == Product(V, P, c)
  {
    hide *;
    result := 0;
    var i: bv8, rest := 0, P;
    LoopStart(V, P, c);
    while i < 64
      invariant i <= 64
      invariant i == 64 ==> rest == 0
      invariant Below(rest, 64 - i)
      invariant Add(result, MUL64xPOW(Product(V, rest, c), i, c)) == Product(V, P, c)
      decreases 64 - i
    {
      ghost var before, term, tail := result, MUL64xPOW(V, i, c), MUL64xPOW(Product(V, rest >> 1, c), i + 1, c);
      PeelBit(V, rest, i, c);
      TermForm(term, rest);
      if rest & 1 == 1 {
        result := Add(result, MUL64xPOW(V, i, c));
      }
      AddZero(before);
      AddZero(tail);
      AddComm(tail, Term(term, rest));
      AddAssoc(before, term, tail);
      BelowShift(rest, 64 - i);
      rest, i := rest >> 1, i + 1;
    }
    LoopEnd(V, result, c);
  }

  /** p has no bit set at position n or above. */
  ghost predicate Below(p: bv64, n: bv8)
    decreases n
  {
    if n == 0 then p == 0 else Below(p >> 1, n - 1)
  }

  lemma BelowShift(p: bv64, n: bv8)
    requires 0 < n <= 64 && Below(p, n)
    ensures Below(p >> 1, n - 1)
    ensures n == 1 ==> p >> 1 == 0
  {
  }

  function Down8(p: bv64): bv64 { p >> 8 }

  lemma BelowDrop8(p: bv64, n: bv8)
    requires 8 <= n <= 64 && Below(Down8(p), n - 8)
    ensures Below(p, n)
  {
    assert Below(p >> 7, n - 7);
    assert Below(p >> 6, n - 6);
    assert Below(p >> 5, n - 5);
    assert Below(p >> 4, n - 4);
    assert Below(p >> 3, n - 3);
    assert Below(p >> 2, n - 2);
    assert Below(p >> 1, n - 1);
  }

  lemma NothingLeft(p: bv64)
    ensures Down8(Down8(Down8(Down8(Down8(Down8(Down8(Down8(p)))))))) == 0
  {
  }

  lemma Below64(p: bv64)
    ensures Below(p, 64)
  {
    var p1 := Down8(p);
    var p2 := Down8(p1);
    var p3 := Down8(p2);
    var p4 := Down8(p3);
    var p5 := Down8(p4);
    var p6 := Down8(p5);
    var p7 := Down8(p6);
    NothingLeft(p);
    assert Below(Down8(p7), 0);
    hide Down8, Below;
    BelowDrop8(p7, 8);
    BelowDrop8(p6, 16);
    BelowDrop8(p5, 24);
    BelowDrop8(p4, 32);
    BelowDrop8(p3, 40);
    BelowDrop8(p2, 48);
    BelowDrop8(p1, 56);
    BelowDrop8(p, 64);
  }

  lemma TermForm(v: bv64, p: bv64)
    ensures Term(v, p) == if p & 1 == 1 then v else 0
  {
  }

  lemma LoopStart(V: bv64, P: bv64, c: bv64)
    ensures Add(0, MUL64xPOW(Product(V, P, c), 0, c)) == Product(V, P, c)
    ensures Below(P, 64)
  {
    hide Add, Product, Below;
    AddZero(Product(V, P, c));
    Below64(P);
  }

  lemma LoopEnd(V: bv64, result: bv64, c: bv64)
    ensures Add(result, MUL64xPOW(Product(V, 0, c), 64, c)) == result
  {
    hide Add;
    PowLaws(0, 0, 64, c);
    AddZero(result);
  }
}
