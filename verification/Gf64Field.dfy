/** With the reduction constant 0x1b of f9, GF(2)[x] modulo x^64 + x^4 + x^3 + x + 1 is a field: everything but zero has
    an inverse (3GPP TS 35.215, section 4.3). Squaring is linear and its 64th iterate is the identity, and no element
    but 0 and 1 is its own square. */
module Gf64Field {
  import opened Gf64

  // ----- squaring by spreading bits apart

  function And(a: bv64, m: bv64): bv64 { a & m }

  function Up1(h: bv64): bv64 { h << 1 }

  function Up2(h: bv64): bv64 { h << 2 }

  function Up3(h: bv64): bv64 { h << 3 }

  function Up4(h: bv64): bv64 { h << 4 }

  function Up8(h: bv64): bv64 { h << 8 }

  function Up16(h: bv64): bv64 { h << 16 }

  function Down32(h: bv64): bv64 { h >> 32 }

  function Down60(h: bv64): bv64 { h >> 60 }

  function Down61(h: bv64): bv64 { h >> 61 }

  function Down63(h: bv64): bv64 { h >> 63 }

  /** The low 32 bits of h with a zero behind each. */
  function Spread(h: bv64): bv64 {
    var h0 := And(h, 0xFFFF_FFFF);
    var h1 := And(Add(h0, Up16(h0)), 0x0000_FFFF_0000_FFFF);
    var h2 := And(Add(h1, Up8(h1)), 0x00FF_00FF_00FF_00FF);
    var h3 := And(Add(h2, Up4(h2)), 0x0F0F_0F0F_0F0F_0F0F);
    var h4 := And(Add(h3, Up2(h3)), 0x3333_3333_3333_3333);
    And(Add(h4, Up1(h4)), 0x5555_5555_5555_5555)
  }

  /** s times x^4 + x^3 + x + 1, without what leaves the word; and what leaves it. */
  function Low(s: bv64): bv64 { Add(Add(s, Up1(s)), Add(Up3(s), Up4(s))) }

  function Overflow(s: bv64): bv64 { Add(Add(Down60(s), Down61(s)), Down63(s)) }

  function Fold(s: bv64): bv64 { Add(Low(s), Low(Overflow(s))) }

  function Square(v: bv64): bv64 { Add(Spread(v), Fold(Spread(Down32(v)))) }

  lemma AndAdd(a: bv64, b: bv64, m: bv64)
    ensures And(Add(a, b), m) == Add(And(a, m), And(b, m))
  {
    hide Add, And;
    AddIsXor(a, b);
    AddIsXor(And(a, m), And(b, m));
    AndXor(a, b, m);
  }

  lemma AndXor(a: bv64, b: bv64, m: bv64)
    ensures And(a ^ b, m) == And(a, m) ^ And(b, m)
  {
  }

  lemma Up1Add(a: bv64, b: bv64)
    ensures Up1(Add(a, b)) == Add(Up1(a), Up1(b))
  {
    hide Add, Up1;
    AddIsXor(a, b);
    AddIsXor(Up1(a), Up1(b));
    Up1Xor(a, b);
  }

  lemma Up1Xor(a: bv64, b: bv64)
    ensures Up1(a ^ b) == Up1(a) ^ Up1(b)
  {
    assert (a ^ b) << 1 == (a << 1) ^ (b << 1);
  }

  lemma Up2Add(a: bv64, b: bv64)
    ensures Up2(Add(a, b)) == Add(Up2(a), Up2(b))
  {
    hide Add, Up2;
    AddIsXor(a, b);
    AddIsXor(Up2(a), Up2(b));
    Up2Xor(a, b);
  }

  lemma Up2Xor(a: bv64, b: bv64)
    ensures Up2(a ^ b) == Up2(a) ^ Up2(b)
  {
    assert (a ^ b) << 2 == (a << 2) ^ (b << 2);
  }

  lemma Up3Add(a: bv64, b: bv64)
    ensures Up3(Add(a, b)) == Add(Up3(a), Up3(b))
  {
    hide Add, Up3;
    AddIsXor(a, b);
    AddIsXor(Up3(a), Up3(b));
    Up3Xor(a, b);
  }

  lemma Up3Xor(a: bv64, b: bv64)
    ensures Up3(a ^ b) == Up3(a) ^ Up3(b)
  {
    assert (a ^ b) << 3 == (a << 3) ^ (b << 3);
  }

  lemma Up4Add(a: bv64, b: bv64)
    ensures Up4(Add(a, b)) == Add(Up4(a), Up4(b))
  {
    hide Add, Up4;
    AddIsXor(a, b);
    AddIsXor(Up4(a), Up4(b));
    Up4Xor(a, b);
  }

  lemma Up4Xor(a: bv64, b: bv64)
    ensures Up4(a ^ b) == Up4(a) ^ Up4(b)
  {
    assert (a ^ b) << 4 == (a << 4) ^ (b << 4);
  }

  lemma Up8Add(a: bv64, b: bv64)
    ensures Up8(Add(a, b)) == Add(Up8(a), Up8(b))
  {
    hide Add, Up8;
    AddIsXor(a, b);
    AddIsXor(Up8(a), Up8(b));
    Up8Xor(a, b);
  }

  lemma Up8Xor(a: bv64, b: bv64)
    ensures Up8(a ^ b) == Up8(a) ^ Up8(b)
  {
    assert (a ^ b) << 8 == (a << 8) ^ (b << 8);
  }

  lemma Up16Add(a: bv64, b: bv64)
    ensures Up16(Add(a, b)) == Add(Up16(a), Up16(b))
  {
    hide Add, Up16;
    AddIsXor(a, b);
    AddIsXor(Up16(a), Up16(b));
    Up16Xor(a, b);
  }

  lemma Up16Xor(a: bv64, b: bv64)
    ensures Up16(a ^ b) == Up16(a) ^ Up16(b)
  {
    assert (a ^ b) << 16 == (a << 16) ^ (b << 16);
  }

  lemma Down32Add(a: bv64, b: bv64)
    ensures Down32(Add(a, b)) == Add(Down32(a), Down32(b))
  {
    hide Add, Down32;
    AddIsXor(a, b);
    AddIsXor(Down32(a), Down32(b));
    Down32Xor(a, b);
  }

  lemma Down32Xor(a: bv64, b: bv64)
    ensures Down32(a ^ b) == Down32(a) ^ Down32(b)
  {
    assert (a ^ b) >> 32 == (a >> 32) ^ (b >> 32);
  }

  lemma Down60Add(a: bv64, b: bv64)
    ensures Down60(Add(a, b)) == Add(Down60(a), Down60(b))
  {
    hide Add, Down60;
    AddIsXor(a, b);
    AddIsXor(Down60(a), Down60(b));
    Down60Xor(a, b);
  }

  lemma Down60Xor(a: bv64, b: bv64)
    ensures Down60(a ^ b) == Down60(a) ^ Down60(b)
  {
    assert (a ^ b) >> 60 == (a >> 60) ^ (b >> 60);
  }

  lemma Down61Add(a: bv64, b: bv64)
    ensures Down61(Add(a, b)) == Add(Down61(a), Down61(b))
  {
    hide Add, Down61;
    AddIsXor(a, b);
    AddIsXor(Down61(a), Down61(b));
    Down61Xor(a, b);
  }

  lemma Down61Xor(a: bv64, b: bv64)
    ensures Down61(a ^ b) == Down61(a) ^ Down61(b)
  {
    assert (a ^ b) >> 61 == (a >> 61) ^ (b >> 61);
  }

  lemma Down63Add(a: bv64, b: bv64)
    ensures Down63(Add(a, b)) == Add(Down63(a), Down63(b))
  {
    hide Add, Down63;
    AddIsXor(a, b);
    AddIsXor(Down63(a), Down63(b));
    Down63Xor(a, b);
  }

  lemma Down63Xor(a: bv64, b: bv64)
    ensures Down63(a ^ b) == Down63(a) ^ Down63(b)
  {
    assert (a ^ b) >> 63 == (a >> 63) ^ (b >> 63);
  }

  lemma SpreadAdd(a: bv64, b: bv64)
    ensures Spread(Add(a, b)) == Add(Spread(a), Spread(b))
  {
    hide Add, And, Up16, Up8, Up4, Up2, Up1;
    AndAdd(a, b, 0xFFFF_FFFF);
    var a0, b0 := And(a, 0xFFFF_FFFF), And(b, 0xFFFF_FFFF);
    Up16Add(a0, b0);
    AddSwap(a0, b0, Up16(a0), Up16(b0));
    AndAdd(Add(a0, Up16(a0)), Add(b0, Up16(b0)), 0x0000_FFFF_0000_FFFF);
    var a1, b1 := And(Add(a0, Up16(a0)), 0x0000_FFFF_0000_FFFF), And(Add(b0, Up16(b0)), 0x0000_FFFF_0000_FFFF);
    Up8Add(a1, b1);
    AddSwap(a1, b1, Up8(a1), Up8(b1));
    AndAdd(Add(a1, Up8(a1)), Add(b1, Up8(b1)), 0x00FF_00FF_00FF_00FF);
    var a2, b2 := And(Add(a1, Up8(a1)), 0x00FF_00FF_00FF_00FF), And(Add(b1, Up8(b1)), 0x00FF_00FF_00FF_00FF);
    Up4Add(a2, b2);
    AddSwap(a2, b2, Up4(a2), Up4(b2));
    AndAdd(Add(a2, Up4(a2)), Add(b2, Up4(b2)), 0x0F0F_0F0F_0F0F_0F0F);
    var a3, b3 := And(Add(a2, Up4(a2)), 0x0F0F_0F0F_0F0F_0F0F), And(Add(b2, Up4(b2)), 0x0F0F_0F0F_0F0F_0F0F);
    Up2Add(a3, b3);
    AddSwap(a3, b3, Up2(a3), Up2(b3));
    AndAdd(Add(a3, Up2(a3)), Add(b3, Up2(b3)), 0x3333_3333_3333_3333);
    var a4, b4 := And(Add(a3, Up2(a3)), 0x3333_3333_3333_3333), And(Add(b3, Up2(b3)), 0x3333_3333_3333_3333);
    Up1Add(a4, b4);
    AddSwap(a4, b4, Up1(a4), Up1(b4));
    AndAdd(Add(a4, Up1(a4)), Add(b4, Up1(b4)), 0x5555_5555_5555_5555);
  }

  lemma LowAdd(a: bv64, b: bv64)
    ensures Low(Add(a, b)) == Add(Low(a), Low(b))
  {
    hide Add, Up1, Up3, Up4;
    Up1Add(a, b);
    Up3Add(a, b);
    Up4Add(a, b);
    AddSwap(a, b, Up1(a), Up1(b));
    AddSwap(Up3(a), Up3(b), Up4(a), Up4(b));
    AddSwap(Add(a, Up1(a)), Add(b, Up1(b)), Add(Up3(a), Up4(a)), Add(Up3(b), Up4(b)));
  }

  lemma OverflowAdd(a: bv64, b: bv64)
    ensures Overflow(Add(a, b)) == Add(Overflow(a), Overflow(b))
  {
    hide Add, Down60, Down61, Down63;
    Down60Add(a, b);
    Down61Add(a, b);
    Down63Add(a, b);
    AddSwap(Down60(a), Down60(b), Down61(a), Down61(b));
    AddSwap(Add(Down60(a), Down61(a)), Add(Down60(b), Down61(b)), Down63(a), Down63(b));
  }

  lemma SquareAdd(a: bv64, b: bv64)
    ensures Square(Add(a, b)) == Add(Square(a), Square(b))
  {
    hide Add, Spread, Low, Overflow, Down32;
    Down32Add(a, b);
    SpreadAdd(a, b);
    SpreadAdd(Down32(a), Down32(b));
    var s, t := Spread(Down32(a)), Spread(Down32(b));
    LowAdd(s, t);
    OverflowAdd(s, t);
    LowAdd(Overflow(s), Overflow(t));
    AddSwap(Low(s), Low(t), Low(Overflow(s)), Low(Overflow(t)));
    AddSwap(Spread(a), Spread(b), Fold(s), Fold(t));
  }

  /** No element but 0 and 1 is its own square. */
  lemma Idempotents(e: bv64)
    requires Square(e) == e
    ensures e == 0 || e == 1
  {
  }

  predicate OneBit(w: bv64) { w & (w - 1) == 0 }

  lemma SquareOfNextPower(w: bv64)
    requires OneBit(w) && !TopSet(w)
    ensures Square(Shl(w)) == MUL64x(MUL64x(Square(w), C), C)
  {
    hide Square, MUL64x;
    if w < 0x80000000 {
      NextPower0(w);
    } else if w < 0x8000000000 {
      NextPower1(w);
    } else if w < 0x800000000000 {
      NextPower2(w);
    } else if w < 0x80000000000000 {
      NextPower3(w);
    } else if w < 0x800000000000000 {
      NextPower4(w);
    } else {
      NextPower5(w);
    }
  }

  lemma NextPower0(w: bv64)
    requires OneBit(w) && !TopSet(w) && w < 0x80000000
    ensures Square(Shl(w)) == MUL64x(MUL64x(Square(w), C), C)
  {
  }

  lemma NextPower1(w: bv64)
    requires OneBit(w) && !TopSet(w) && 0x80000000 <= w && w < 0x8000000000
    ensures Square(Shl(w)) == MUL64x(MUL64x(Square(w), C), C)
  {
  }

  lemma NextPower2(w: bv64)
    requires OneBit(w) && !TopSet(w) && 0x8000000000 <= w && w < 0x800000000000
    ensures Square(Shl(w)) == MUL64x(MUL64x(Square(w), C), C)
  {
  }

  lemma NextPower3(w: bv64)
    requires OneBit(w) && !TopSet(w) && 0x800000000000 <= w && w < 0x80000000000000
    ensures Square(Shl(w)) == MUL64x(MUL64x(Square(w), C), C)
  {
  }

  lemma NextPower4(w: bv64)
    requires OneBit(w) && !TopSet(w) && 0x80000000000000 <= w && w < 0x800000000000000
    ensures Square(Shl(w)) == MUL64x(MUL64x(Square(w), C), C)
  {
  }

  lemma NextPower5(w: bv64)
    requires OneBit(w) && !TopSet(w) && 0x800000000000000 <= w
    ensures Square(Shl(w)) == MUL64x(MUL64x(Square(w), C), C)
  {
  }

  lemma SmallSquares()
    ensures Square(0) == 0 && Square(1) == 1
  {
  }

  // ----- Square is the product with itself

  /** v * x^n without reduction: what leaves the word is lost. */
  function Shifted(v: bv64, n: nat): bv64 { if n == 0 then v else Shl(Shifted(v, n - 1)) }

  lemma ProductSquareAdd(a: bv64, b: bv64)
    ensures Product(Add(a, b), Add(a, b), C) == Add(Product(a, a, C), Product(b, b, C))
  {
    hide *;
    var ab := Product(a, b, C);
    Distributive(Add(a, b), a, b, C);
    Distributive(a, a, b, C);
    Distributive(b, a, b, C);
    Commutative(a, b, C);
    AddComm(ab, Product(b, b, C));
    AddSwap(Product(a, a, C), ab, Product(b, b, C), ab);
    AddZero(ab);
    AddZero(Add(Product(a, a, C), Product(b, b, C)));
  }

  lemma ProductSquareX(w: bv64)
    ensures Product(MUL64x(w, C), MUL64x(w, C), C) == MUL64x(MUL64x(Product(w, w, C), C), C)
  {
    hide *;
    ProductXLeft(w, MUL64x(w, C), C);
    ProductXRight(w, w, C);
  }

  lemma {:induction false} ShiftedAdd(a: bv64, b: bv64, n: nat)
    ensures Shifted(Add(a, b), n) == Add(Shifted(a, n), Shifted(b, n))
    ensures Shifted(Shl(a), n) == Shifted(a, n + 1)
    decreases n
  {
    hide Add, Shl;
    if n > 0 {
      ShiftedAdd(a, b, n - 1);
      ShlAdd(Shifted(a, n - 1), Shifted(b, n - 1));
    } else {
      assert Shifted(a, 1) == Shl(Shifted(a, 0));
    }
  }

  lemma Shifted8(v: bv64, n: nat)
    ensures Shifted(v, n + 8) == Up8(Shifted(v, n))
  {
    hide Shl, Up8;
    var s := Shifted(v, n);
    assert Shifted(v, n + 2) == Shl(Shl(s));
    assert Shifted(v, n + 4) == Shl(Shl(Shl(Shl(s))));
    assert Shifted(v, n + 6) == Shl(Shl(Shl(Shl(Shl(Shl(s))))));
    Shl8(s);
  }

  lemma Shl8(s: bv64)
    ensures Shl(Shl(Shl(Shl(Shl(Shl(Shl(Shl(s)))))))) == Up8(s)
  {
  }

  lemma Shifted64(v: bv64)
    ensures Shifted(v, 63) == v << 63 && Shifted(v, 64) == 0
  {
    assert Shifted(v, 0) == v;
    hide Shifted, Up8, Shl;
    Shifted8(v, 0);
    Shifted8(v, 8);
    Shifted8(v, 16);
    Shifted8(v, 24);
    Shifted8(v, 32);
    Shifted8(v, 40);
    Shifted8(v, 48);
    Up56(v);
    LastSeven(v);
  }

  lemma Up56(v: bv64)
    ensures Up8(Up8(Up8(Up8(Up8(Up8(Up8(v))))))) == v << 56
  {
  }

  lemma LastSeven(v: bv64)
    requires Shifted(v, 56) == v << 56
    ensures Shifted(v, 63) == v << 63 && Shifted(v, 64) == 0
  {
    assert Shifted(v, 57) == v << 57;
    assert Shifted(v, 58) == v << 58;
    assert Shifted(v, 59) == v << 59;
    assert Shifted(v, 60) == v << 60;
    assert Shifted(v, 61) == v << 61;
    assert Shifted(v, 62) == v << 62;
    assert Shifted(v, 63) == v << 63;
  }

  lemma {:induction false} PowerNotZero(n: nat)
    requires n <= 63
    ensures Shifted(1, n) != 0
    decreases 63 - n
  {
    if n == 63 {
      hide Shifted;
      Shifted64(1);
    } else {
      PowerNotZero(n + 1);
    }
  }

  lemma ShlOneBit(w: bv64)
    requires OneBit(w)
    ensures OneBit(Shl(w)) && (TopSet(w) ==> Shl(w) == 0) && (!TopSet(w) ==> MUL64x(w, C) == Shl(w))
  {
  }

  lemma {:induction false} PowerIsOneBit(n: nat)
    ensures OneBit(Shifted(1, n))
    decreases n
  {
    assert OneBit(1);
    hide OneBit, Shl;
    if n > 0 {
      PowerIsOneBit(n - 1);
      ShlOneBit(Shifted(1, n - 1));
    }
  }

  lemma {:induction false} SquareOfPower(n: nat)
    requires n <= 63
    ensures Square(Shifted(1, n)) == Product(Shifted(1, n), Shifted(1, n), C)
    decreases n
  {
    hide Square, Product, OneBit, Shl, MUL64x, TopSet;
    if n == 0 {
      SmallSquares();
      Unit(1, C);
      assert Shifted(1, 0) == 1;
    } else {
      var w := Shifted(1, n - 1);
      SquareOfPower(n - 1);
      PowerIsOneBit(n - 1);
      PowerNotZero(n);
      ShlOneBit(w);
      SquareOfNextPower(w);
      ProductSquareX(w);
    }
  }

  lemma LowestBit(v: bv64)
    ensures v == Add(Shl(v >> 1), v & 1) && (v & 1 == 0 || v & 1 == 1)
  {
    assert ((v >> 1) << 1) ^ (v & 1) == v;
  }

  lemma {:induction false} SquareOfShifted(v: bv64, n: nat)
    requires n <= 64
    ensures Square(Shifted(v, n)) == Product(Shifted(v, n), Shifted(v, n), C)
    decreases 64 - n
  {
    hide *;
    if n == 64 {
      Shifted64(v);
      SmallSquares();
      Unit(0, C);
    } else {
      LowestBit(v);
      var w, b := v >> 1, v & 1;
      SquareOfShifted(w, n + 1);
      ShiftedAdd(Shl(w), b, n);
      ShiftedAdd(w, b, n);
      SquareAdd(Shifted(w, n + 1), Shifted(b, n));
      ProductSquareAdd(Shifted(w, n + 1), Shifted(b, n));
      if b == 1 {
        SquareOfPower(n);
      } else {
        ShiftedZero(n);
        SmallSquares();
        Unit(0, C);
      }
    }
  }

  lemma {:induction false} ShiftedZero(n: nat)
    ensures Shifted(0, n) == 0
  {
    if n > 0 {
      ShiftedZero(n - 1);
    }
  }

  lemma SquareIsProduct(v: bv64)
    ensures Square(v) == Product(v, v, C)
  {
    hide Square, Product;
    SquareOfShifted(v, 0);
    assert Shifted(v, 0) == v;
  }

  // ----- the 64th iterate of squaring is the identity

  function Frobenius(v: bv64, n: nat): bv64 { if n == 0 then v else Square(Frobenius(v, n - 1)) }

  lemma {:induction false} FrobeniusAdd(a: bv64, b: bv64, n: nat)
    ensures Frobenius(Add(a, b), n) == Add(Frobenius(a, n), Frobenius(b, n))
    decreases n
  {
    hide Add, Square;
    if n > 0 {
      FrobeniusAdd(a, b, n - 1);
      SquareAdd(Frobenius(a, n - 1), Frobenius(b, n - 1));
    }
  }

  lemma ProductSwap(a: bv64, b: bv64)
    ensures Product(Product(a, b, C), Product(a, b, C), C) == Product(Product(a, a, C), Product(b, b, C), C)
  {
    hide *;
    var ab := Product(a, b, C);
    Associative(a, b, ab, C);
    Commutative(a, b, C);
    Associative(b, b, a, C);
    Associative(b, a, b, C);
    Commutative(b, a, C);
    Commutative(Product(b, b, C), a, C);
    Associative(a, a, Product(b, b, C), C);
    Commutative(b, ab, C);
    Associative(a, b, b, C);
    Commutative(ab, b, C);
  }

  lemma {:induction false} FrobeniusProduct(a: bv64, b: bv64, n: nat)
    ensures Frobenius(Product(a, b, C), n) == Product(Frobenius(a, n), Frobenius(b, n), C)
    decreases n
  {
    hide Product, Square;
    if n > 0 {
      FrobeniusProduct(a, b, n - 1);
      var f, g := Frobenius(a, n - 1), Frobenius(b, n - 1);
      ProductSwap(f, g);
      SquareIsProduct(f);
      SquareIsProduct(g);
      SquareIsProduct(Product(f, g, C));
    }
  }

  lemma Frobenius4(v: bv64, n: nat)
    ensures Frobenius(v, n + 4) == Square(Square(Square(Square(Frobenius(v, n)))))
  {
    hide Square;
    var f := Frobenius(v, n);
    assert Frobenius(v, n + 2) == Square(Square(f));
  }

  lemma Squares0()
    ensures Square(0x2) == 0x4
    ensures Square(0x4) == 0x10
  {
    assert Square(0x2) == 0x4;
  }

  lemma Squares1()
    ensures Square(0x10) == 0x100
    ensures Square(0x100) == 0x10000
  {
    assert Square(0x10) == 0x100;
  }

  lemma Squares2()
    ensures Square(0x10000) == 0x100000000
    ensures Square(0x100000000) == 0x1b
  {
    assert Square(0x10000) == 0x100000000;
  }

  lemma Squares3()
    ensures Square(0x1b) == 0x145
    ensures Square(0x145) == 0x11011
  {
    assert Square(0x1b) == 0x145;
  }

  lemma Squares4()
    ensures Square(0x11011) == 0x101000101
    ensures Square(0x101000101) == 0x100000001001a
  {
    assert Square(0x11011) == 0x101000101;
  }

  lemma Squares5()
    ensures Square(0x100000001001a) == 0x1a00000144
    ensures Square(0x1a00000144) == 0x10dbc
  {
    assert Square(0x100000001001a) == 0x1a00000144;
  }

  lemma Squares6()
    ensures Square(0x10dbc) == 0x100514550
    ensures Square(0x100514550) == 0x11011011111b
  {
    assert Square(0x10dbc) == 0x100514550;
  }

  lemma Squares7()
    ensures Square(0x11011011111b) == 0x10001011a1a015e
    ensures Square(0x10001011a1a015e) == 0x15f0144001a114f
  {
    assert Square(0x11011011111b) == 0x10001011a1a015e;
  }

  lemma Squares8()
    ensures Square(0x15f0144001a114f) == 0x1aad43011ba1e5
    ensures Square(0x1aad43011ba1e5) == 0x11cefef6be466
  {
    assert Square(0x15f0144001a114f) == 0x1aad43011ba1e5;
  }

  lemma Squares9()
    ensures Square(0x11cefef6be466) == 0x5455145e48670f13
    ensures Square(0x5455145e48670f13) == 0xbaf1bebe1ae4ad02
  {
    assert Square(0x11cefef6be466) == 0x5455145e48670f13;
  }

  lemma Squares10()
    ensures Square(0xbaf1bebe1ae4ad02) == 0xb0ef530df44bb042
    ensures Square(0xb0ef530df44bb042) == 0xe2170b43ee771735
  {
    assert Square(0xbaf1bebe1ae4ad02) == 0xb0ef530df44bb042;
  }

  lemma Squares11()
    ensures Square(0xe2170b43ee771735) == 0x48380fd207a3b527
    ensures Square(0x48380fd207a3b527) == 0xb6d535c542116f62
  {
    assert Square(0xe2170b43ee771735) == 0x48380fd207a3b527;
  }

  lemma Squares12()
    ensures Square(0xb6d535c542116f62) == 0xa6df6baa62f965f5
    ensures Square(0xa6df6baa62f965f5) == 0xb9df3947cea0ffe7
  {
    assert Square(0xb6d535c542116f62) == 0xa6df6baa62f965f5;
  }

  lemma Squares13()
    ensures Square(0xb9df3947cea0ffe7) == 0xe1882807248fe588
    ensures Square(0xe1882807248fe588) == 0x180d86953ed141c6
  {
    assert Square(0xb9df3947cea0ffe7) == 0xe1882807248fe588;
  }

  lemma Squares14()
    ensures Square(0x180d86953ed141c6) == 0x1894566cd1db8abf
    ensures Square(0x1894566cd1db8abf) == 0x4cc78bf4ea999e25
  {
    assert Square(0x180d86953ed141c6) == 0x1894566cd1db8abf;
  }

  lemma Squares15()
    ensures Square(0x4cc78bf4ea999e25) == 0xe333308087e402ba
    ensures Square(0xe333308087e402ba) == 0x5c62236777028505
  {
    assert Square(0x4cc78bf4ea999e25) == 0xe333308087e402ba;
  }

  lemma Squares16()
    ensures Square(0x5c62236777028505) == 0xb964dc682c67ddcd
    ensures Square(0xb964dc682c67ddcd) == 0xb58ac9a23d208acb
  {
    assert Square(0x5c62236777028505) == 0xb964dc682c67ddcd;
  }

  lemma Squares17()
    ensures Square(0xb58ac9a23d208acb) == 0xb3fcc2ab3699fc73
    ensures Square(0xb3fcc2ab3699fc73) == 0xb2644136253abfe8
  {
    assert Square(0xb58ac9a23d208acb) == 0xb3fcc2ab3699fc73;
  }

  lemma Squares18()
    ensures Square(0xb2644136253abfe8) == 0xb37cd8f5f54e22c6
    ensures Square(0xb37cd8f5f54e22c6) == 0xe267d02369c356e5
  {
    assert Square(0xb2644136253abfe8) == 0xb37cd8f5f54e22c6;
  }

  lemma Squares19()
    ensures Square(0xe267d02369c356e5) == 0x82c8dc57a143827
    ensures Square(0x82c8dc57a143827) == 0x13846a66c22c75be
  {
    assert Square(0xe267d02369c356e5) == 0x82c8dc57a143827;
  }

  lemma Squares20()
    ensures Square(0x13846a66c22c75be) == 0x4b75c5e1cfbc9888
    ensures Square(0x4b75c5e1cfbc9888) == 0xe6e383fc30ec5c40
  {
    assert Square(0x13846a66c22c75be) == 0x4b75c5e1cfbc9888;
  }

  lemma Squares21()
    ensures Square(0xe6e383fc30ec5c40) == 0x18db4821d1201031
    ensures Square(0x18db4821d1201031) == 0x4cc669b6b7c0691a
  {
    assert Square(0xe6e383fc30ec5c40) == 0x18db4821d1201031;
  }

  lemma Squares22()
    ensures Square(0x4cc669b6b7c0691a) == 0xf26221ddce9cb783
    ensures Square(0xf26221ddce9cb783) == 0x57399d3c29092c2f
  {
    assert Square(0x4cc669b6b7c0691a) == 0xf26221ddce9cb783;
  }

  lemma Squares23()
    ensures Square(0x57399d3c29092c2f) == 0xae86719cd83b743e
    ensures Square(0xae86719cd83b743e) == 0xfa5ac498d20dd97e
  {
    assert Square(0x57399d3c29092c2f) == 0xae86719cd83b743e;
  }

  lemma Squares24()
    ensures Square(0xfa5ac498d20dd97e) == 0x50a9adfa20f7c8d5
    ensures Square(0x50a9adfa20f7c8d5) == 0xaf06ffc8fb2c50a6
  {
    assert Square(0xfa5ac498d20dd97e) == 0x50a9adfa20f7c8d5;
  }

  lemma Squares25()
    ensures Square(0xaf06ffc8fb2c50a6) == 0xfe42058b1100328e
    ensures Square(0xfe42058b1100328e) == 0x11cb06c04a986a2
  {
    assert Square(0xaf06ffc8fb2c50a6) == 0xfe42058b1100328e;
  }

  lemma Squares26()
    ensures Square(0x11cb06c04a986a2) == 0xb5837f7159f74
    ensures Square(0xb5837f7159f74) == 0x551507a7ec9563d7
  {
    assert Square(0x11cb06c04a986a2) == 0xb5837f7159f74;
  }

  lemma Squares27()
    ensures Square(0x551507a7ec9563d7) == 0xfefb5bba15c4fcc9
    ensures Square(0xfefb5bba15c4fcc9) == 0x10a51a6f8e1e1ac
  {
    assert Square(0x551507a7ec9563d7) == 0xfefb5bba15c4fcc9;
  }

  lemma Squares28()
    ensures Square(0x10a51a6f8e1e1ac) == 0x555b52acff1ce98c
    ensures Square(0x555b52acff1ce98c) == 0xfffface6ff2beb3b
  {
    assert Square(0x10a51a6f8e1e1ac) == 0x555b52acff1ce98c;
  }

  lemma Squares29()
    ensures Square(0xfffface6ff2beb3b) == 0x55550444ff3218d8
    ensures Square(0x55550444ff3218d8) == 0xffffafaf00f1e0eb
  {
    assert Square(0xfffface6ff2beb3b) == 0x55550444ff3218d8;
  }

  lemma Squares30()
    ensures Square(0xffffafaf00f1e0eb) == 0x5500ff01ff03
    ensures Square(0x5500ff01ff03) == 0x55550000fffe0005
  {
    assert Square(0xffffafaf00f1e0eb) == 0x5500ff01ff03;
  }

  lemma Squares31()
    ensures Square(0x55550000fffe0005) == 0xffffffff0000000a
    ensures Square(0xffffffff0000000a) == 0x2
  {
    assert Square(0x55550000fffe0005) == 0xffffffff0000000a;
  }

  lemma Orbit1()
    ensures Frobenius(2, 4) == 0x10000
  {
    assert Frobenius(2, 0) == 2;
    hide Square, Frobenius;
    Frobenius4(2, 0);
    Squares0();
    Squares1();
  }

  lemma Orbit2()
    ensures Frobenius(2, 8) == 0x11011
  {
    hide Square, Frobenius;
    Orbit1();
    Frobenius4(2, 4);
    Squares2();
    Squares3();
  }

  lemma Orbit3()
    ensures Frobenius(2, 12) == 0x10dbc
  {
    hide Square, Frobenius;
    Orbit2();
    Frobenius4(2, 8);
    Squares4();
    Squares5();
  }

  lemma Orbit4()
    ensures Frobenius(2, 16) == 0x15f0144001a114f
  {
    hide Square, Frobenius;
    Orbit3();
    Frobenius4(2, 12);
    Squares6();
    Squares7();
  }

  lemma Orbit5()
    ensures Frobenius(2, 20) == 0xbaf1bebe1ae4ad02
  {
    hide Square, Frobenius;
    Orbit4();
    Frobenius4(2, 16);
    Squares8();
    Squares9();
  }

  lemma Orbit6()
    ensures Frobenius(2, 24) == 0xb6d535c542116f62
  {
    hide Square, Frobenius;
    Orbit5();
    Frobenius4(2, 20);
    Squares10();
    Squares11();
  }

  lemma Orbit7()
    ensures Frobenius(2, 28) == 0x180d86953ed141c6
  {
    hide Square, Frobenius;
    Orbit6();
    Frobenius4(2, 24);
    Squares12();
    Squares13();
  }

  lemma Orbit8()
    ensures Frobenius(2, 32) == 0x5c62236777028505
  {
    hide Square, Frobenius;
    Orbit7();
    Frobenius4(2, 28);
    Squares14();
    Squares15();
  }

  lemma Orbit9()
    ensures Frobenius(2, 36) == 0xb2644136253abfe8
  {
    hide Square, Frobenius;
    Orbit8();
    Frobenius4(2, 32);
    Squares16();
    Squares17();
  }

  lemma Orbit10()
    ensures Frobenius(2, 40) == 0x13846a66c22c75be
  {
    hide Square, Frobenius;
    Orbit9();
    Frobenius4(2, 36);
    Squares18();
    Squares19();
  }

  lemma Orbit11()
    ensures Frobenius(2, 44) == 0x4cc669b6b7c0691a
  {
    hide Square, Frobenius;
    Orbit10();
    Frobenius4(2, 40);
    Squares20();
    Squares21();
  }

  lemma Orbit12()
    ensures Frobenius(2, 48) == 0xfa5ac498d20dd97e
  {
    hide Square, Frobenius;
    Orbit11();
    Frobenius4(2, 44);
    Squares22();
    Squares23();
  }

  lemma Orbit13()
    ensures Frobenius(2, 52) == 0x11cb06c04a986a2
  {
    hide Square, Frobenius;
    Orbit12();
    Frobenius4(2, 48);
    Squares24();
    Squares25();
  }

  lemma Orbit14()
    ensures Frobenius(2, 56) == 0x10a51a6f8e1e1ac
  {
    hide Square, Frobenius;
    Orbit13();
    Frobenius4(2, 52);
    Squares26();
    Squares27();
  }

  lemma Orbit15()
    ensures Frobenius(2, 60) == 0xffffafaf00f1e0eb
  {
    hide Square, Frobenius;
    Orbit14();
    Frobenius4(2, 56);
    Squares28();
    Squares29();
  }

  /** x^(2^64) is x. */
  lemma Orbit16()
    ensures Frobenius(2, 64) == 0x2
  {
    hide Square, Frobenius;
    Orbit15();
    Frobenius4(2, 60);
    Squares30();
    Squares31();
  }

  lemma TimesX(w: bv64)
    ensures MUL64x(w, C) == Product(w, 2, C)
  {
    assert MUL64x(1, C) == 2;
    hide MUL64x, Product;
    ProductXRight(w, 1, C);
    Unit(w, C);
  }

  lemma {:induction false} SmallFrobenius(n: nat)
    ensures Frobenius(0, n) == 0 && Frobenius(1, n) == 1
  {
    hide Square;
    SmallSquares();
    if n > 0 {
      SmallFrobenius(n - 1);
    }
  }

  /** Squaring 64 times gives every element back. */
  lemma {:induction false} FrobeniusIsIdentity(v: bv64)
    ensures Frobenius(v, 64) == v
    decreases v
  {
    hide *;
    if v == 0 {
      SmallFrobenius(64);
    } else {
      var w := v >> 1;
      assert w < v;
      FrobeniusIsIdentity(w);
      LowBit(v, C);
      TimesX(w);
      Orbit16();
      SmallFrobenius(64);
      FrobeniusAdd(MUL64x(w, C), v & 1, 64);
      FrobeniusProduct(w, 2, 64);
    }
  }

  // ----- inverses

  /** The product of all the iterates of squaring of a but the first and those from the n-th on. */
  function Conjugates(a: bv64, n: nat): bv64 {
    if n <= 1 then 1 else Product(Conjugates(a, n - 1), Frobenius(a, n - 1), C)
  }

  lemma {:induction false} Telescope(a: bv64, n: nat)
    requires n >= 1
    ensures Product(a, Product(a, Conjugates(a, n), C), C) == Frobenius(a, n)
    decreases n
  {
    hide Product, Square;
    if n == 1 {
      Unit(a, C);
      SquareIsProduct(a);
      assert Frobenius(a, 0) == a;
    } else {
      Telescope(a, n - 1);
      var c, f := Conjugates(a, n - 1), Frobenius(a, n - 1);
      Associative(a, c, f, C);
      Associative(a, Product(a, c, C), f, C);
      SquareIsProduct(f);
    }
  }

  function Inverse(a: bv64): bv64 { Conjugates(a, 64) }

  /** Everything but zero has an inverse. */
  lemma InverseLaw(a: bv64)
    requires a != 0
    ensures Product(a, Inverse(a), C) == 1
  {
    hide Product, Square, Conjugates, Frobenius;
    var n := Product(a, Inverse(a), C);
    Telescope(a, 64);
    FrobeniusIsIdentity(a);
    assert Product(a, n, C) == a;
    Associative(n, a, Inverse(a), C);
    Commutative(a, n, C);
    SquareIsProduct(n);
    assert Product(n, n, C) == n;
    Idempotents(n);
    Unit(a, C);
  }

  /** No product of two elements other than zero is zero. */
  lemma NoZeroDivisors(a: bv64, b: bv64)
    ensures Product(a, b, C) == 0 <==> a == 0 || b == 0
  {
    hide Product, Inverse;
    Unit(a, C);
    Unit(b, C);
    if a != 0 && Product(a, b, C) == 0 {
      InverseLaw(a);
      Commutative(a, Inverse(a), C);
      Associative(Inverse(a), a, b, C);
      Unit(Inverse(a), C);
    }
  }

  /** Dividing by d. */
  lemma Quotient(d: bv64, q: bv64, w: bv64)
    requires d != 0
    ensures Product(d, q, C) == w <==> q == Product(Inverse(d), w, C)
  {
    hide Product, Inverse;
    InverseLaw(d);
    Commutative(d, Inverse(d), C);
    Associative(Inverse(d), d, q, C);
    Associative(d, Inverse(d), w, C);
    Unit(q, C);
    Unit(w, C);
  }
}
