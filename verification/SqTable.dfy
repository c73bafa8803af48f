/** The table of SQ against the Dickson polynomial over GF(2^8) that it is made from.

    Its coefficients are 0 and 1, so that it commutes with squaring. It is worked out at one octet of each of the 36
    cycles in which squaring runs, and the table followed from there. */
module SqTable {
  import opened Gf8
  import opened SBox

  /** The product with x in GF(2)[x] / (x^8 + x^6 + x^5 + x^3 + 1). */
  function Double(v: bv8): bv8 { if v & 0x80 != 0 then (v << 1) ^ 0x69 else v << 1 }

  lemma DoubleIsMULx(v: bv8)
    ensures Double(v) == MULx(v, 0x69)
  {
  }

  /** The sum of those of four values whose bits are set. */
  function Pick4(p: bv8, a: bv8, b: bv8, c: bv8, d: bv8): bv8 {
    (Pick(p, 1, a) ^ Pick(p, 2, b)) ^ (Pick(p, 4, c) ^ Pick(p, 8, d))
  }

  function Pick8(p: bv8, a: bv8, b: bv8, c: bv8, d: bv8, e: bv8, f: bv8, g: bv8, h: bv8): bv8 {
    Pick4(p, a, b, c, d) ^ Pick4(p >> 4, e, f, g, h)
  }

  function Product(v: bv8, p: bv8): bv8 {
    var v1 := Double(v);
    var v2 := Double(v1);
    var v3 := Double(v2);
    var v4 := Double(v3);
    var v5 := Double(v4);
    var v6 := Double(v5);
    Pick8(p, v, v1, v2, v3, v4, v5, v6, Double(v6))
  }

  /** The square: the sum of the squares of the bits. */
  function Square(a: bv8): bv8 {
    (((if a & 1 != 0 then 0x01 else 0) ^ (if a & 2 != 0 then 0x04 else 0)) ^
     ((if a & 4 != 0 then 0x10 else 0) ^ (if a & 8 != 0 then 0x40 else 0))) ^
    (((if (a >> 4) & 1 != 0 then 0x69 else 0) ^ (if (a >> 4) & 2 != 0 then 0xcd else 0)) ^
     ((if (a >> 4) & 4 != 0 then 0x8f else 0) ^ (if (a >> 4) & 8 != 0 then 0xee else 0)))
  }

  lemma SquareQuarter0(a: bv8)
    requires 0x00 <= a <= 0x3f
    ensures Square(a) == Product(a, a)
  {
  }

  lemma SquareQuarter1(a: bv8)
    requires 0x40 <= a <= 0x7f
    ensures Square(a) == Product(a, a)
  {
  }

  lemma SquareQuarter2(a: bv8)
    requires 0x80 <= a <= 0xbf
    ensures Square(a) == Product(a, a)
  {
  }

  lemma SquareQuarter3(a: bv8)
    requires 0xc0 <= a <= 0xff
    ensures Square(a) == Product(a, a)
  {
  }

  lemma SquareIsProduct(a: bv8)
    ensures Square(a) == Product(a, a)
  {
    hide *;
    if a <= 0x3f {
      SquareQuarter0(a);
    } else if a <= 0x7f {
      SquareQuarter1(a);
    } else if a <= 0xbf {
      SquareQuarter2(a);
    } else {
      SquareQuarter3(a);
    }
  }

  /** x + x^9 + x^13 + x^15 + x^33 + x^41 + x^45 + x^47 + x^49, common factors taken out. */
  function Dickson(x: bv8): bv8 {
    var x2 := Square(x);
    var x4 := Square(x2);
    var x8 := Square(x4);
    var x16 := Square(x8);
    var a := Xor8(1, Product(x8, Xor8(1, Product(x4, Xor8(1, x2)))));
    Product(x, Xor8(a, Product(Square(x16), Xor8(a, x16))))
  }

  // ----- squaring is additive and multiplicative

  lemma PickIsPicks(p: bv8, a: bv8, b: bv8, c: bv8, d: bv8)
    ensures Pick4(p, a, b, c, d) == Xor8(Xor8(Pick(p, 1, a), Pick(p, 2, b)), Xor8(Pick(p, 4, c), Pick(p, 8, d)))
  {
    hide Pick;
  }

  lemma OnePick(p: bv8, q: bv8, m: bv8, a: bv8)
    requires m == 1 || m == 2 || m == 4 || m == 8
    ensures Pick(Xor8(p, q), m, a) == Xor8(Pick(p, m, a), Pick(q, m, a))
  {
    Cancel(a, 0);
    Cancel(0, 0);
    OneBit(p, q, m);
    hide Xor8;
  }

  lemma OneBit(p: bv8, q: bv8, m: bv8)
    requires m == 1 || m == 2 || m == 4 || m == 8
    ensures Xor8(p, q) & m != 0 <==> (p & m != 0) != (q & m != 0)
  {
  }

  lemma PickAdd(p: bv8, q: bv8, a: bv8, b: bv8, c: bv8, d: bv8)
    ensures Pick4(Xor8(p, q), a, b, c, d) == Xor8(Pick4(p, a, b, c, d), Pick4(q, a, b, c, d))
  {
    hide *;
    PickIsPicks(p, a, b, c, d);
    PickIsPicks(q, a, b, c, d);
    PickIsPicks(Xor8(p, q), a, b, c, d);
    OnePick(p, q, 1, a);
    OnePick(p, q, 2, b);
    OnePick(p, q, 4, c);
    OnePick(p, q, 8, d);
    Swap(Pick(p, 1, a), Pick(q, 1, a), Pick(p, 2, b), Pick(q, 2, b));
    Swap(Pick(p, 4, c), Pick(q, 4, c), Pick(p, 8, d), Pick(q, 8, d));
    Swap(Xor8(Pick(p, 1, a), Pick(p, 2, b)), Xor8(Pick(q, 1, a), Pick(q, 2, b)),
         Xor8(Pick(p, 4, c), Pick(p, 8, d)), Xor8(Pick(q, 4, c), Pick(q, 8, d)));
  }

  /** Two picks of four, from the lower and the upper half of an octet. */
  lemma HalvesAdd(p: bv8, q: bv8, a: bv8, b: bv8, c: bv8, d: bv8, e: bv8, f: bv8, g: bv8, h: bv8)
    ensures Pick8(Xor8(p, q), a, b, c, d, e, f, g, h)
         == Xor8(Pick8(p, a, b, c, d, e, f, g, h), Pick8(q, a, b, c, d, e, f, g, h))
  {
    HalvesForm(p, a, b, c, d, e, f, g, h);
    HalvesForm(q, a, b, c, d, e, f, g, h);
    HalvesForm(Xor8(p, q), a, b, c, d, e, f, g, h);
    hide *;
    HighAdd(p, q);
    PickAdd(p, q, a, b, c, d);
    PickAdd(High(p), High(q), e, f, g, h);
    Swap(Pick4(p, a, b, c, d), Pick4(q, a, b, c, d), Pick4(High(p), e, f, g, h), Pick4(High(q), e, f, g, h));
  }

  function High(p: bv8): bv8 { p >> 4 }

  lemma HighAdd(p: bv8, q: bv8)
    ensures High(Xor8(p, q)) == Xor8(High(p), High(q))
  {
  }

  lemma HalvesForm(p: bv8, a: bv8, b: bv8, c: bv8, d: bv8, e: bv8, f: bv8, g: bv8, h: bv8)
    ensures Pick8(p, a, b, c, d, e, f, g, h) == Xor8(Pick4(p, a, b, c, d), Pick4(High(p), e, f, g, h))
  {
    hide Pick4;
  }

  lemma SquareAdd(a: bv8, b: bv8)
    ensures Square(Xor8(a, b)) == Xor8(Square(a), Square(b))
  {
    hide *;
    HalvesAdd(a, b, 0x01, 0x04, 0x10, 0x40, 0x69, 0xcd, 0x8f, 0xee);
    SquareForm(a);
    SquareForm(b);
    SquareForm(Xor8(a, b));
  }

  lemma SquareForm(a: bv8)
    ensures Square(a) == Pick8(a, 0x01, 0x04, 0x10, 0x40, 0x69, 0xcd, 0x8f, 0xee)
  {
    LowForm(a);
    HighForm(a >> 4);
    hide Pick4;
  }

  lemma LowForm(p: bv8)
    ensures ((if p & 1 != 0 then 0x01 else 0) ^ (if p & 2 != 0 then 0x04 else 0)) ^
            ((if p & 4 != 0 then 0x10 else 0) ^ (if p & 8 != 0 then 0x40 else 0)) == Pick4(p, 0x01, 0x04, 0x10, 0x40)
  {
  }

  lemma HighForm(p: bv8)
    ensures ((if p & 1 != 0 then 0x69 else 0) ^ (if p & 2 != 0 then 0xcd else 0)) ^
            ((if p & 4 != 0 then 0x8f else 0) ^ (if p & 8 != 0 then 0xee else 0)) == Pick4(p, 0x69, 0xcd, 0x8f, 0xee)
  {
  }

  lemma ProductAdd(v: bv8, p: bv8, q: bv8)
    ensures Product(v, Xor8(p, q)) == Xor8(Product(v, p), Product(v, q))
  {
    hide Pick8, Double, Xor8;
    var v1 := Double(v);
    var v2 := Double(v1);
    var v3 := Double(v2);
    var v4 := Double(v3);
    var v5 := Double(v4);
    var v6 := Double(v5);
    HalvesAdd(p, q, v, v1, v2, v3, v4, v5, v6, Double(v6));
  }

  lemma ProductOne(v: bv8)
    ensures Product(v, 1) == v
  {
  }

  /** Four terms, from four terms without a common factor. */
  lemma FourTerms(v: bv8, a: bv8, b: bv8, c: bv8)
    ensures Product(v, Xor8(1, Xor8(a, Xor8(b, c))))
         == Xor8(v, Xor8(Product(v, a), Xor8(Product(v, b), Product(v, c))))
  {
    hide *;
    ProductAdd(v, 1, Xor8(a, Xor8(b, c)));
    ProductAdd(v, a, Xor8(b, c));
    ProductAdd(v, b, c);
    ProductOne(v);
  }

  /** The polynomial term by term. */
  lemma DicksonIsSum(x: bv8, x2: bv8, x4: bv8, x8: bv8, x16: bv8, x32: bv8)
    requires x2 == Product(x, x) && x4 == Product(x2, x2) && x8 == Product(x4, x4)
    requires x16 == Product(x8, x8) && x32 == Product(x16, x16)
    ensures
      var x9, x13, x15 := Product(x, x8), Product(x, Product(x8, x4)), Product(x, Product(x8, Product(x4, x2)));
      var x33, x41 := Product(x, x32), Product(x, Product(x32, x8));
      var x45, x47 := Product(x, Product(x32, Product(x8, x4))),
                      Product(x, Product(x32, Product(x8, Product(x4, x2))));
      var x49 := Product(x, Product(x32, x16));
      Dickson(x) == Xor8(Xor8(x, Xor8(x9, Xor8(x13, x15))), Xor8(Xor8(x33, Xor8(x41, Xor8(x45, x47))), x49))
  {
    SquareIsProduct(x);
    SquareIsProduct(x2);
    SquareIsProduct(x4);
    SquareIsProduct(x8);
    SquareIsProduct(x16);
    hide Square, Product, Xor8;
    var b, c := Product(x8, x4), Product(x8, Product(x4, x2));
    ProductAdd(x4, 1, x2);
    ProductOne(x4);
    ProductAdd(x8, 1, Xor8(x4, Product(x4, x2)));
    ProductOne(x8);
    ProductAdd(x8, x4, Product(x4, x2));
    var a := Xor8(1, Xor8(x8, Xor8(b, c)));
    ProductAdd(x32, a, x16);
    FourTerms(x32, x8, b, c);
    var d := Xor8(x32, Xor8(Product(x32, x8), Xor8(Product(x32, b), Product(x32, c))));
    ProductAdd(x, a, Xor8(d, Product(x32, x16)));
    ProductAdd(x, d, Product(x32, x16));
    FourTerms(x, x8, b, c);
    ProductAdd(x, x32, Xor8(Product(x32, x8), Xor8(Product(x32, b), Product(x32, c))));
    ProductAdd(x, Product(x32, x8), Xor8(Product(x32, b), Product(x32, c)));
    ProductAdd(x, Product(x32, b), Product(x32, c));
  }

  predicate Multiplicative(a: bv8, b: bv8) { Square(Product(a, b)) == Product(Square(a), Square(b)) }

  lemma MultiplicativeAdd(a: bv8, b: bv8, d: bv8)
    requires Multiplicative(a, b) && Multiplicative(a, d)
    ensures Multiplicative(a, Xor8(b, d))
  {
    ProductAdd(a, b, d);
    ProductAdd(Square(a), Square(b), Square(d));
    SquareAdd(b, d);
    SquareAdd(Product(a, b), Product(a, d));
    hide Square, Product, Xor8;
  }

  lemma MultiplicativeBit0(a: bv8)
    ensures Multiplicative(a, 0x01)
  {
  }

  lemma MultiplicativeBit1(a: bv8)
    ensures Multiplicative(a, 0x02)
  {
  }

  lemma MultiplicativeBit2(a: bv8)
    ensures Multiplicative(a, 0x04)
  {
  }

  lemma MultiplicativeBit3(a: bv8)
    ensures Multiplicative(a, 0x08)
  {
  }

  lemma MultiplicativeBit4(a: bv8)
    ensures Multiplicative(a, 0x10)
  {
  }

  lemma MultiplicativeBit5(a: bv8)
    ensures Multiplicative(a, 0x20)
  {
  }

  lemma MultiplicativeBit6(a: bv8)
    ensures Multiplicative(a, 0x40)
  {
  }

  lemma MultiplicativeBit7(a: bv8)
    ensures Multiplicative(a, 0x80)
  {
  }

  lemma BitsOf(b: bv8)
    ensures b == Xor8(Xor8(Xor8(Pick(b, 0x01, 0x01), Pick(b, 0x02, 0x02)),
                           Xor8(Pick(b, 0x04, 0x04), Pick(b, 0x08, 0x08))),
                      Xor8(Xor8(Pick(b, 0x10, 0x10), Pick(b, 0x20, 0x20)),
                           Xor8(Pick(b, 0x40, 0x40), Pick(b, 0x80, 0x80))))
  {
  }

  lemma PickOne(b: bv8, m: bv8)
    ensures Pick(b, m, m) == 0 || Pick(b, m, m) == m
  {
  }

  lemma MultiplicativePicks(a: bv8, b: bv8, m: bv8, n: bv8)
    requires Multiplicative(a, 0) && Multiplicative(a, m) && Multiplicative(a, n)
    ensures Multiplicative(a, Xor8(Pick(b, m, m), Pick(b, n, n)))
  {
    hide *;
    PickOne(b, m);
    PickOne(b, n);
    MultiplicativeAdd(a, Pick(b, m, m), Pick(b, n, n));
  }

  lemma MultiplicativeZero(a: bv8)
    ensures Multiplicative(a, 0)
  {
    hide *;
    MultiplicativeBit0(a);
    MultiplicativeAdd(a, 1, 1);
    Cancel(1, 0);
  }

  lemma SquareMultiplies(a: bv8, b: bv8)
    ensures Multiplicative(a, b)
  {
    hide *;
    MultiplicativeZero(a);
    MultiplicativeBit0(a);
    MultiplicativeBit1(a);
    MultiplicativeBit2(a);
    MultiplicativeBit3(a);
    MultiplicativeBit4(a);
    MultiplicativeBit5(a);
    MultiplicativeBit6(a);
    MultiplicativeBit7(a);
    BitsOf(b);
    var b0, b1 := Xor8(Pick(b, 0x01, 0x01), Pick(b, 0x02, 0x02)), Xor8(Pick(b, 0x04, 0x04), Pick(b, 0x08, 0x08));
    var b2, b3 := Xor8(Pick(b, 0x10, 0x10), Pick(b, 0x20, 0x20)), Xor8(Pick(b, 0x40, 0x40), Pick(b, 0x80, 0x80));
    MultiplicativePicks(a, b, 0x01, 0x02);
    MultiplicativePicks(a, b, 0x04, 0x08);
    MultiplicativePicks(a, b, 0x10, 0x20);
    MultiplicativePicks(a, b, 0x40, 0x80);
    MultiplicativeAdd(a, b0, b1);
    MultiplicativeAdd(a, b2, b3);
    MultiplicativeAdd(a, Xor8(b0, b1), Xor8(b2, b3));
  }

  lemma SquareOfProduct(a: bv8, b: bv8)
    ensures Square(Product(a, b)) == Product(Square(a), Square(b))
  {
    SquareMultiplies(a, b);
    hide Square, Product;
  }

  lemma SquareOfOne()
    ensures Square(1) == 1
  {
  }

  lemma SquareOfSum(a: bv8)
    ensures Square(Xor8(1, a)) == Xor8(1, Square(a))
  {
    SquareAdd(1, a);
    SquareOfOne();
    hide Square, Xor8;
  }

  lemma DicksonOfSquare(x: bv8)
    ensures Dickson(Square(x)) == Square(Dickson(x))
  {
    hide Square, Product, Xor8;
    var x2 := Square(x);
    var x4 := Square(x2);
    var x8 := Square(x4);
    var x16 := Square(x8);
    SquareOfSum(x2);
    SquareOfProduct(x4, Xor8(1, x2));
    SquareOfSum(Product(x4, Xor8(1, x2)));
    var b := Product(x8, Xor8(1, Product(x4, Xor8(1, x2))));
    SquareOfProduct(x8, Xor8(1, Product(x4, Xor8(1, x2))));
    SquareOfSum(b);
    var a := Xor8(1, b);
    SquareAdd(a, x16);
    SquareOfProduct(Square(x16), Xor8(a, x16));
    SquareAdd(a, Product(Square(x16), Xor8(a, x16)));
    SquareOfProduct(x, Xor8(a, Product(Square(x16), Xor8(a, x16))));
  }

  // ----- one octet of each cycle, and from it the others

  /** Each is the square of the one before. */
  predicate Squares(x: bv8, x1: bv8, x2: bv8, x3: bv8, x4: bv8, x5: bv8, x6: bv8, x7: bv8) {
    && Square(x) == x1 && Square(x1) == x2 && Square(x2) == x3 && Square(x3) == x4
    && Square(x4) == x5 && Square(x5) == x6 && Square(x6) == x7
  }

  /** Squares that the table sends to squares, but for the constant. */
  predicate Entries(x: bv8, x1: bv8, x2: bv8, x3: bv8, x4: bv8, x5: bv8, x6: bv8, x7: bv8,
                    d: bv8, d1: bv8, d2: bv8, d3: bv8, d4: bv8, d5: bv8, d6: bv8, d7: bv8) {
    && Squares(x, x1, x2, x3, x4, x5, x6, x7) && Squares(d, d1, d2, d3, d4, d5, d6, d7)
    && SQ(x) == d ^ 0x25 && SQ(x1) == d1 ^ 0x25 && SQ(x2) == d2 ^ 0x25 && SQ(x3) == d3 ^ 0x25
    && SQ(x4) == d4 ^ 0x25 && SQ(x5) == d5 ^ 0x25 && SQ(x6) == d6 ^ 0x25 && SQ(x7) == d7 ^ 0x25
  }

  predicate Equal(x: bv8) { SQ(x) ^ 0x25 == Dickson(x) }

  lemma EntryEqual(x: bv8, d: bv8)
    requires Dickson(x) == d && SQ(x) == d ^ 0x25
    ensures Equal(x)
  {
    Constant(d);
    hide SQ, Dickson;
  }

  lemma Constant(d: bv8)
    ensures (d ^ 0x25) ^ 0x25 == d
  {
  }

  /** From the polynomial at one octet to the table at all octets of its cycle. */
  lemma Cycle(y: bv8, x: bv8, x1: bv8, x2: bv8, x3: bv8, x4: bv8, x5: bv8, x6: bv8, x7: bv8,
              d: bv8, d1: bv8, d2: bv8, d3: bv8, d4: bv8, d5: bv8, d6: bv8, d7: bv8)
    requires Entries(x, x1, x2, x3, x4, x5, x6, x7, d, d1, d2, d3, d4, d5, d6, d7) && Dickson(x) == d
    ensures y in {x, x1, x2, x3, x4, x5, x6, x7} ==> Equal(y)
  {
    hide Equal, SQ, Dickson, Square;
    DicksonOfSquare(x);
    DicksonOfSquare(x1);
    DicksonOfSquare(x2);
    DicksonOfSquare(x3);
    DicksonOfSquare(x4);
    DicksonOfSquare(x5);
    DicksonOfSquare(x6);
    EntryEqual(x, d);
    EntryEqual(x1, d1);
    EntryEqual(x2, d2);
    EntryEqual(x3, d3);
    EntryEqual(x4, d4);
    EntryEqual(x5, d5);
    EntryEqual(x6, d6);
    EntryEqual(x7, d7);
  }

  lemma Fixed()
    ensures Dickson(0) == 0 && SQ(0) == 0x25 && Dickson(1) == 1 && SQ(1) == 0x24
  {
  }

  lemma Polynomial0()
    ensures Dickson(0x02) == 0x56 && Dickson(0x06) == 0x79 && Dickson(0x07) == 0x15 && Dickson(0x08) == 0x81
  {
    assert Product(0x10, 0x05) == 0x50 && Product(0x69, 0x51) == 0x08;
    assert Product(0x05, 0x0a) == 0x22 && Product(0x02, 0x2b) == 0x56;
    assert Product(0x79, 0x15) == 0x12 && Product(0x6a, 0x13) == 0x01;
    assert Product(0x14, 0x06) == 0x78 && Product(0x06, 0x78) == 0x79;
    assert Product(0x78, 0x14) == 0x7f && Product(0x6b, 0x7e) == 0x06;
    assert Product(0x15, 0x00) == 0x00 && Product(0x07, 0x07) == 0x15;
    assert Product(0x8f, 0x41) == 0x83 && Product(0xbb, 0x82) == 0xa9;
    assert Product(0x55, 0xa7) == 0x95 && Product(0x08, 0x3d) == 0x81;
  }

  lemma Polynomial1()
    ensures Dickson(0x09) == 0xcb && Dickson(0x0a) == 0x4b && Dickson(0x0b) == 0xee && Dickson(0x12) == 0x6d
  {
    assert Product(0x8e, 0x40) == 0x4c && Product(0xba, 0x4d) == 0xef;
    assert Product(0x54, 0xe0) == 0xdc && Product(0x09, 0x32) == 0xcb;
    assert Product(0x9f, 0x45) == 0xf0 && Product(0xd2, 0xf1) == 0xfd;
    assert Product(0x50, 0xf0) == 0x43 && Product(0x0a, 0xbf) == 0x4b;
    assert Product(0x9e, 0x44) == 0x2b && Product(0xd3, 0x2a) == 0x86;
    assert Product(0x51, 0x8a) == 0xfc && Product(0x0b, 0x7b) == 0xee;
    assert Product(0x13, 0x6c) == 0x6b && Product(0x6c, 0x6a) == 0x13;
    assert Product(0x6d, 0x00) == 0x00 && Product(0x12, 0x12) == 0x6d;
  }

  lemma Polynomial2()
    ensures Dickson(0x16) == 0x4f && Dickson(0x18) == 0x55 && Dickson(0x19) == 0xad && Dickson(0x1a) == 0xcd
  {
    assert Product(0x7a, 0x7c) == 0x1a && Product(0x6f, 0x1b) == 0x9d;
    assert Product(0x7c, 0x8b) == 0xcb && Product(0x16, 0x57) == 0x4f;
    assert Product(0x8c, 0x28) == 0xcb && Product(0xbe, 0xca) == 0xd7;
    assert Product(0x3d, 0xc8) == 0xa7 && Product(0x18, 0x71) == 0x55;
    assert Product(0x8d, 0x29) == 0x6e && Product(0xbf, 0x6f) == 0xf1;
    assert Product(0x3c, 0xef) == 0x2d && Product(0x19, 0xdd) == 0xad;
    assert Product(0x9c, 0x2c) == 0x3b && Product(0xd7, 0x3a) == 0x09;
    assert Product(0x38, 0x15) == 0xe3 && Product(0x1a, 0xeb) == 0xcd;
  }

  lemma Polynomial3()
    ensures Dickson(0x1b) == 0x7a && Dickson(0x20) == 0xfd && Dickson(0x21) == 0xcc && Dickson(0x24) == 0x65
  {
    assert Product(0x9d, 0x2d) == 0x8a && Product(0xd6, 0x8b) == 0x6d;
    assert Product(0x39, 0x70) == 0xd1 && Product(0x1b, 0xbd) == 0x7a;
    assert Product(0x30, 0xcc) == 0x6b && Product(0xa4, 0x6a) == 0x8a;
    assert Product(0xa1, 0xb8) == 0x1e && Product(0x20, 0x95) == 0xfd;
    assert Product(0x31, 0xcd) == 0x96 && Product(0xa5, 0x97) == 0x82;
    assert Product(0xa0, 0xb1) == 0xa2 && Product(0x21, 0x21) == 0xcc;
    assert Product(0x59, 0xdc) == 0x3a && Product(0xa7, 0x3b) == 0xef;
    assert Product(0xb0, 0xd8) == 0xb7 && Product(0x24, 0x59) == 0x65;
  }

  lemma Polynomial4()
    ensures Dickson(0x25) == 0x0a && Dickson(0x26) == 0x34 && Dickson(0x27) == 0x0d && Dickson(0x2a) == 0x89
  {
    assert Product(0x58, 0xdd) == 0xbe && Product(0xa6, 0xbf) == 0x44;
    assert Product(0xb1, 0x72) == 0xea && Product(0x25, 0xaf) == 0x0a;
    assert Product(0x49, 0xd8) == 0xe0 && Product(0xce, 0xe1) == 0x37;
    assert Product(0xb5, 0x03) == 0xb6 && Product(0x26, 0x80) == 0x34;
    assert Product(0x48, 0xd9) == 0x70 && Product(0xcf, 0x71) == 0x77;
    assert Product(0xb4, 0x42) == 0x21 && Product(0x27, 0x57) == 0x0d;
    assert Product(0xaf, 0x88) == 0x4b && Product(0x76, 0x4a) == 0xbf;
    assert Product(0xf1, 0x81) == 0x94 && Product(0x2a, 0x2a) == 0x89;
  }

  lemma Polynomial5()
    ensures Dickson(0x2b) == 0xc6 && Dickson(0x2e) == 0x3e && Dickson(0x2f) == 0x9c && Dickson(0x42) == 0x63
  {
    assert Product(0xae, 0x89) == 0x6d && Product(0x77, 0x6c) == 0xa2;
    assert Product(0xf0, 0x9d) == 0x1d && Product(0x2b, 0xbe) == 0xc6;
    assert Product(0xc6, 0x98) == 0x53 && Product(0x75, 0x52) == 0x54;
    assert Product(0xe0, 0x6f) == 0xbe && Product(0x2e, 0xeb) == 0x3e;
    assert Product(0xc7, 0x99) == 0x0c && Product(0x74, 0x0d) == 0xd6;
    assert Product(0xe1, 0xec) == 0x0d && Product(0x2f, 0xda) == 0x9c;
    assert Product(0xab, 0x8a) == 0x86 && Product(0x66, 0x87) == 0x18;
    assert Product(0xf2, 0x4f) == 0xac && Product(0x42, 0xb5) == 0x63;
  }

  lemma Polynomial6()
    ensures Dickson(0x43) == 0x96 && Dickson(0x46) == 0x61 && Dickson(0x47) == 0x5e && Dickson(0x4c) == 0xba
  {
    assert Product(0xaa, 0x8b) == 0xa6 && Product(0x67, 0xa7) == 0x41;
    assert Product(0xf3, 0x17) == 0xbe && Product(0x43, 0xfe) == 0x96;
    assert Product(0xc2, 0x9a) == 0x0c && Product(0x65, 0x0d) == 0x0b;
    assert Product(0xe3, 0x59) == 0x9a && Product(0x46, 0x90) == 0x61;
    assert Product(0xc3, 0x9b) == 0x55 && Product(0x64, 0x54) == 0xb3;
    assert Product(0xe2, 0xe0) == 0x05 && Product(0x47, 0xb7) == 0x5e;
    assert Product(0x5d, 0xde) == 0x4b && Product(0xb7, 0x4a) == 0xfb;
    assert Product(0xb3, 0xa5) == 0x26 && Product(0x4c, 0xdc) == 0xba;
  }

  lemma Polynomial7()
    ensures Dickson(0x4d) == 0x05 && Dickson(0x7e) == 0x7e && Dickson(0x80) == 0xce && Dickson(0x81) == 0xbf
  {
    assert Product(0x5c, 0xdf) == 0xc9 && Product(0xb6, 0xc8) == 0x9d;
    assert Product(0xb2, 0xc2) == 0x3f && Product(0x4d, 0xa3) == 0x05;
    assert Product(0x7e, 0x7e) == 0x7f && Product(0x7f, 0x7e) == 0x01;
    assert Product(0x7f, 0x7e) == 0x01 && Product(0x7e, 0x01) == 0x7e;
    assert Product(0xf8, 0xef) == 0xba && Product(0x85, 0xbb) == 0x33;
    assert Product(0x90, 0xcd) == 0xe8 && Product(0x80, 0xda) == 0xce;
    assert Product(0xf9, 0xee) == 0xac && Product(0x84, 0xad) == 0x98;
    assert Product(0x91, 0x67) == 0xcb && Product(0x81, 0x52) == 0xbf;
  }

  lemma Polynomial8()
    ensures Dickson(0x82) == 0x39 && Dickson(0x83) == 0x8c
  {
    assert Product(0xe8, 0xeb) == 0xbd && Product(0xec, 0xbc) == 0x60;
    assert Product(0x95, 0x9d) == 0xf3 && Product(0x82, 0x92) == 0x39;
    assert Product(0xe9, 0xea) == 0xbf && Product(0xed, 0xbe) == 0x6f;
    assert Product(0x94, 0x93) == 0xc0 && Product(0x83, 0xae) == 0x8c;
  }

  lemma Cycle0()
    ensures Entries(0x02, 0x04, 0x10, 0x69, 0x03, 0x05, 0x11, 0x68,
                    0x56, 0xf2, 0xc1, 0x60, 0x42, 0x8b, 0xab, 0x66)
  {
  }

  lemma Cycle1()
    ensures Entries(0x06, 0x14, 0x79, 0x6a, 0x06, 0x14, 0x79, 0x6a,
                    0x79, 0x6a, 0x06, 0x14, 0x79, 0x6a, 0x06, 0x14)
  {
  }

  lemma Cycle2()
    ensures Entries(0x07, 0x15, 0x78, 0x6b, 0x07, 0x15, 0x78, 0x6b,
                    0x15, 0x78, 0x6b, 0x07, 0x15, 0x78, 0x6b, 0x07)
  {
  }

  lemma Cycle3()
    ensures Entries(0x08, 0x40, 0x8f, 0xbb, 0x0f, 0x55, 0xf7, 0xd0,
                    0x81, 0xef, 0xf9, 0x84, 0xfe, 0x91, 0x86, 0xfa)
  {
  }

  lemma Cycle4()
    ensures Entries(0x09, 0x41, 0x8e, 0xba, 0x0e, 0x54, 0xf6, 0xd1,
                    0xcb, 0x24, 0xdd, 0x59, 0xa7, 0x36, 0xb0, 0x4a)
  {
  }

  lemma Cycle5()
    ensures Entries(0x0a, 0x44, 0x9f, 0xd2, 0x0c, 0x50, 0xe6, 0xb8,
                    0x4b, 0xca, 0x25, 0xdc, 0x58, 0xa6, 0x37, 0xb1)
  {
  }

  lemma Cycle6()
    ensures Entries(0x0b, 0x45, 0x9e, 0xd3, 0x0d, 0x51, 0xe7, 0xb9,
                    0xee, 0xf8, 0x85, 0xff, 0x90, 0x87, 0xfb, 0x80)
  {
  }

  lemma Cycle7()
    ensures Entries(0x12, 0x6d, 0x13, 0x6c, 0x12, 0x6d, 0x13, 0x6c,
                    0x6d, 0x13, 0x6c, 0x12, 0x6d, 0x13, 0x6c, 0x12)
  {
  }

  lemma Cycle8()
    ensures Entries(0x16, 0x7d, 0x7a, 0x6f, 0x17, 0x7c, 0x7b, 0x6e,
                    0x4f, 0xda, 0x4c, 0xdf, 0x5d, 0xb7, 0x5f, 0xb3)
  {
  }

  lemma Cycle9()
    ensures Entries(0x18, 0x29, 0x8c, 0xbe, 0x1e, 0x3d, 0xf5, 0xd4,
                    0x55, 0xf7, 0xd0, 0x08, 0x40, 0x8f, 0xbb, 0x0f)
  {
  }

  lemma Cycle10()
    ensures Entries(0x19, 0x28, 0x8d, 0xbf, 0x1f, 0x3c, 0xf4, 0xd5,
                    0xad, 0x72, 0x2f, 0x98, 0xc7, 0x74, 0x3b, 0xe1)
  {
  }

  lemma Cycle11()
    ensures Entries(0x1a, 0x2d, 0x9c, 0xd7, 0x1d, 0x38, 0xe4, 0xbc,
                    0xcd, 0x30, 0xa4, 0x33, 0xa1, 0x22, 0xc9, 0x20)
  {
  }

  lemma Cycle12()
    ensures Entries(0x1b, 0x2c, 0x9d, 0xd6, 0x1c, 0x39, 0xe5, 0xbd,
                    0x7a, 0x6f, 0x17, 0x7c, 0x7b, 0x6e, 0x16, 0x7d)
  {
  }

  lemma Cycle13()
    ensures Entries(0x20, 0xcd, 0x30, 0xa4, 0x33, 0xa1, 0x22, 0xc9,
                    0xfd, 0x94, 0x97, 0x92, 0x83, 0xeb, 0xe9, 0xed)
  {
  }

  lemma Cycle14()
    ensures Entries(0x21, 0xcc, 0x31, 0xa5, 0x32, 0xa0, 0x23, 0xc8,
                    0xcc, 0x31, 0xa5, 0x32, 0xa0, 0x23, 0xc8, 0x21)
  {
  }

  lemma Cycle15()
    ensures Entries(0x24, 0xdd, 0x59, 0xa7, 0x36, 0xb0, 0x4a, 0xcb,
                    0x65, 0x53, 0xe3, 0xa9, 0x62, 0x46, 0x9b, 0xc2)
  {
  }

  lemma Cycle16()
    ensures Entries(0x25, 0xdc, 0x58, 0xa6, 0x37, 0xb1, 0x4b, 0xca,
                    0x0a, 0x44, 0x9f, 0xd2, 0x0c, 0x50, 0xe6, 0xb8)
  {
  }

  lemma Cycle17()
    ensures Entries(0x26, 0xd9, 0x49, 0xce, 0x35, 0xb5, 0x5b, 0xa3,
                    0x34, 0xb4, 0x5a, 0xa2, 0x27, 0xd8, 0x48, 0xcf)
  {
  }

  lemma Cycle18()
    ensures Entries(0x27, 0xd8, 0x48, 0xcf, 0x34, 0xb4, 0x5a, 0xa2,
                    0x0d, 0x51, 0xe7, 0xb9, 0x0b, 0x45, 0x9e, 0xd3)
  {
  }

  lemma Cycle19()
    ensures Entries(0x2a, 0x89, 0xaf, 0x76, 0x3f, 0xf1, 0xc4, 0x71,
                    0x89, 0xaf, 0x76, 0x3f, 0xf1, 0xc4, 0x71, 0x2a)
  {
  }

  lemma Cycle20()
    ensures Entries(0x2b, 0x88, 0xae, 0x77, 0x3e, 0xf0, 0xc5, 0x70,
                    0xc6, 0x75, 0x3a, 0xe0, 0xac, 0x73, 0x2e, 0x99)
  {
  }

  lemma Cycle21()
    ensures Entries(0x2e, 0x99, 0xc6, 0x75, 0x3a, 0xe0, 0xac, 0x73,
                    0x3e, 0xf0, 0xc5, 0x70, 0x2b, 0x88, 0xae, 0x77)
  {
  }

  lemma Cycle22()
    ensures Entries(0x2f, 0x98, 0xc7, 0x74, 0x3b, 0xe1, 0xad, 0x72,
                    0x9c, 0xd7, 0x1d, 0x38, 0xe4, 0xbc, 0x1a, 0x2d)
  {
  }

  lemma Cycle23()
    ensures Entries(0x42, 0x8b, 0xab, 0x66, 0x56, 0xf2, 0xc1, 0x60,
                    0x63, 0x47, 0x9a, 0xc3, 0x64, 0x52, 0xe2, 0xa8)
  {
  }

  lemma Cycle24()
    ensures Entries(0x43, 0x8a, 0xaa, 0x67, 0x57, 0xf3, 0xc0, 0x61,
                    0x96, 0x93, 0x82, 0xea, 0xe8, 0xec, 0xfc, 0x95)
  {
  }

  lemma Cycle25()
    ensures Entries(0x46, 0x9b, 0xc2, 0x65, 0x53, 0xe3, 0xa9, 0x62,
                    0x61, 0x43, 0x8a, 0xaa, 0x67, 0x57, 0xf3, 0xc0)
  {
  }

  lemma Cycle26()
    ensures Entries(0x47, 0x9a, 0xc3, 0x64, 0x52, 0xe2, 0xa8, 0x63,
                    0x5e, 0xb2, 0x4e, 0xdb, 0x4d, 0xde, 0x5c, 0xb6)
  {
  }

  lemma Cycle27()
    ensures Entries(0x4c, 0xdf, 0x5d, 0xb7, 0x5f, 0xb3, 0x4f, 0xda,
                    0xba, 0x0e, 0x54, 0xf6, 0xd1, 0x09, 0x41, 0x8e)
  {
  }

  lemma Cycle28()
    ensures Entries(0x4d, 0xde, 0x5c, 0xb6, 0x5e, 0xb2, 0x4e, 0xdb,
                    0x05, 0x11, 0x68, 0x02, 0x04, 0x10, 0x69, 0x03)
  {
  }

  lemma Cycle29()
    ensures Entries(0x7e, 0x7f, 0x7e, 0x7f, 0x7e, 0x7f, 0x7e, 0x7f,
                    0x7e, 0x7f, 0x7e, 0x7f, 0x7e, 0x7f, 0x7e, 0x7f)
  {
  }

  lemma Cycle30()
    ensures Entries(0x80, 0xee, 0xf8, 0x85, 0xff, 0x90, 0x87, 0xfb,
                    0xce, 0x35, 0xb5, 0x5b, 0xa3, 0x26, 0xd9, 0x49)
  {
  }

  lemma Cycle31()
    ensures Entries(0x81, 0xef, 0xf9, 0x84, 0xfe, 0x91, 0x86, 0xfa,
                    0xbf, 0x1f, 0x3c, 0xf4, 0xd5, 0x19, 0x28, 0x8d)
  {
  }

  lemma Cycle32()
    ensures Entries(0x82, 0xea, 0xe8, 0xec, 0xfc, 0x95, 0x96, 0x93,
                    0x39, 0xe5, 0xbd, 0x1b, 0x2c, 0x9d, 0xd6, 0x1c)
  {
  }

  lemma Cycle33()
    ensures Entries(0x83, 0xeb, 0xe9, 0xed, 0xfd, 0x94, 0x97, 0x92,
                    0x8c, 0xbe, 0x1e, 0x3d, 0xf5, 0xd4, 0x18, 0x29)
  {
  }

  /** The table is the polynomial plus 0x25. */
  lemma SQIsDickson(x: bv8)
    ensures SQ(x) ^ 0x25 == Dickson(x)
  {
    AllEqual(x);
    hide SQ, Dickson;
  }

  lemma AllEqual(x: bv8)
    ensures Equal(x)
  {
    hide *;
    Fixed();
    EntryEqual(0, 0);
    EntryEqual(1, 1);
    Polynomial0();
    Polynomial1();
    Polynomial2();
    Polynomial3();
    Polynomial4();
    Polynomial5();
    Polynomial6();
    Polynomial7();
    Polynomial8();
    Cycle0();
    Cycle(x, 0x02, 0x04, 0x10, 0x69, 0x03, 0x05, 0x11, 0x68,
          0x56, 0xf2, 0xc1, 0x60, 0x42, 0x8b, 0xab, 0x66);
    Cycle1();
    Cycle(x, 0x06, 0x14, 0x79, 0x6a, 0x06, 0x14, 0x79, 0x6a,
          0x79, 0x6a, 0x06, 0x14, 0x79, 0x6a, 0x06, 0x14);
    Cycle2();
    Cycle(x, 0x07, 0x15, 0x78, 0x6b, 0x07, 0x15, 0x78, 0x6b,
          0x15, 0x78, 0x6b, 0x07, 0x15, 0x78, 0x6b, 0x07);
    Cycle3();
    Cycle(x, 0x08, 0x40, 0x8f, 0xbb, 0x0f, 0x55, 0xf7, 0xd0,
          0x81, 0xef, 0xf9, 0x84, 0xfe, 0x91, 0x86, 0xfa);
    Cycle4();
    Cycle(x, 0x09, 0x41, 0x8e, 0xba, 0x0e, 0x54, 0xf6, 0xd1,
          0xcb, 0x24, 0xdd, 0x59, 0xa7, 0x36, 0xb0, 0x4a);
    Cycle5();
    Cycle(x, 0x0a, 0x44, 0x9f, 0xd2, 0x0c, 0x50, 0xe6, 0xb8,
          0x4b, 0xca, 0x25, 0xdc, 0x58, 0xa6, 0x37, 0xb1);
    Cycle6();
    Cycle(x, 0x0b, 0x45, 0x9e, 0xd3, 0x0d, 0x51, 0xe7, 0xb9,
          0xee, 0xf8, 0x85, 0xff, 0x90, 0x87, 0xfb, 0x80);
    Cycle7();
    Cycle(x, 0x12, 0x6d, 0x13, 0x6c, 0x12, 0x6d, 0x13, 0x6c,
          0x6d, 0x13, 0x6c, 0x12, 0x6d, 0x13, 0x6c, 0x12);
    Cycle8();
    Cycle(x, 0x16, 0x7d, 0x7a, 0x6f, 0x17, 0x7c, 0x7b, 0x6e,
          0x4f, 0xda, 0x4c, 0xdf, 0x5d, 0xb7, 0x5f, 0xb3);
    Cycle9();
    Cycle(x, 0x18, 0x29, 0x8c, 0xbe, 0x1e, 0x3d, 0xf5, 0xd4,
          0x55, 0xf7, 0xd0, 0x08, 0x40, 0x8f, 0xbb, 0x0f);
    Cycle10();
    Cycle(x, 0x19, 0x28, 0x8d, 0xbf, 0x1f, 0x3c, 0xf4, 0xd5,
          0xad, 0x72, 0x2f, 0x98, 0xc7, 0x74, 0x3b, 0xe1);
    Cycle11();
    Cycle(x, 0x1a, 0x2d, 0x9c, 0xd7, 0x1d, 0x38, 0xe4, 0xbc,
          0xcd, 0x30, 0xa4, 0x33, 0xa1, 0x22, 0xc9, 0x20);
    Cycle12();
    Cycle(x, 0x1b, 0x2c, 0x9d, 0xd6, 0x1c, 0x39, 0xe5, 0xbd,
          0x7a, 0x6f, 0x17, 0x7c, 0x7b, 0x6e, 0x16, 0x7d);
    Cycle13();
    Cycle(x, 0x20, 0xcd, 0x30, 0xa4, 0x33, 0xa1, 0x22, 0xc9,
          0xfd, 0x94, 0x97, 0x92, 0x83, 0xeb, 0xe9, 0xed);
    Cycle14();
    Cycle(x, 0x21, 0xcc, 0x31, 0xa5, 0x32, 0xa0, 0x23, 0xc8,
          0xcc, 0x31, 0xa5, 0x32, 0xa0, 0x23, 0xc8, 0x21);
    Cycle15();
    Cycle(x, 0x24, 0xdd, 0x59, 0xa7, 0x36, 0xb0, 0x4a, 0xcb,
          0x65, 0x53, 0xe3, 0xa9, 0x62, 0x46, 0x9b, 0xc2);
    Cycle16();
    Cycle(x, 0x25, 0xdc, 0x58, 0xa6, 0x37, 0xb1, 0x4b, 0xca,
          0x0a, 0x44, 0x9f, 0xd2, 0x0c, 0x50, 0xe6, 0xb8);
    Cycle17();
    Cycle(x, 0x26, 0xd9, 0x49, 0xce, 0x35, 0xb5, 0x5b, 0xa3,
          0x34, 0xb4, 0x5a, 0xa2, 0x27, 0xd8, 0x48, 0xcf);
    Cycle18();
    Cycle(x, 0x27, 0xd8, 0x48, 0xcf, 0x34, 0xb4, 0x5a, 0xa2,
          0x0d, 0x51, 0xe7, 0xb9, 0x0b, 0x45, 0x9e, 0xd3);
    Cycle19();
    Cycle(x, 0x2a, 0x89, 0xaf, 0x76, 0x3f, 0xf1, 0xc4, 0x71,
          0x89, 0xaf, 0x76, 0x3f, 0xf1, 0xc4, 0x71, 0x2a);
    Cycle20();
    Cycle(x, 0x2b, 0x88, 0xae, 0x77, 0x3e, 0xf0, 0xc5, 0x70,
          0xc6, 0x75, 0x3a, 0xe0, 0xac, 0x73, 0x2e, 0x99);
    Cycle21();
    Cycle(x, 0x2e, 0x99, 0xc6, 0x75, 0x3a, 0xe0, 0xac, 0x73,
          0x3e, 0xf0, 0xc5, 0x70, 0x2b, 0x88, 0xae, 0x77);
    Cycle22();
    Cycle(x, 0x2f, 0x98, 0xc7, 0x74, 0x3b, 0xe1, 0xad, 0x72,
          0x9c, 0xd7, 0x1d, 0x38, 0xe4, 0xbc, 0x1a, 0x2d);
    Cycle23();
    Cycle(x, 0x42, 0x8b, 0xab, 0x66, 0x56, 0xf2, 0xc1, 0x60,
          0x63, 0x47, 0x9a, 0xc3, 0x64, 0x52, 0xe2, 0xa8);
    Cycle24();
    Cycle(x, 0x43, 0x8a, 0xaa, 0x67, 0x57, 0xf3, 0xc0, 0x61,
          0x96, 0x93, 0x82, 0xea, 0xe8, 0xec, 0xfc, 0x95);
    Cycle25();
    Cycle(x, 0x46, 0x9b, 0xc2, 0x65, 0x53, 0xe3, 0xa9, 0x62,
          0x61, 0x43, 0x8a, 0xaa, 0x67, 0x57, 0xf3, 0xc0);
    Cycle26();
    Cycle(x, 0x47, 0x9a, 0xc3, 0x64, 0x52, 0xe2, 0xa8, 0x63,
          0x5e, 0xb2, 0x4e, 0xdb, 0x4d, 0xde, 0x5c, 0xb6);
    Cycle27();
    Cycle(x, 0x4c, 0xdf, 0x5d, 0xb7, 0x5f, 0xb3, 0x4f, 0xda,
          0xba, 0x0e, 0x54, 0xf6, 0xd1, 0x09, 0x41, 0x8e);
    Cycle28();
    Cycle(x, 0x4d, 0xde, 0x5c, 0xb6, 0x5e, 0xb2, 0x4e, 0xdb,
          0x05, 0x11, 0x68, 0x02, 0x04, 0x10, 0x69, 0x03);
    Cycle29();
    Cycle(x, 0x7e, 0x7f, 0x7e, 0x7f, 0x7e, 0x7f, 0x7e, 0x7f,
          0x7e, 0x7f, 0x7e, 0x7f, 0x7e, 0x7f, 0x7e, 0x7f);
    Cycle30();
    Cycle(x, 0x80, 0xee, 0xf8, 0x85, 0xff, 0x90, 0x87, 0xfb,
          0xce, 0x35, 0xb5, 0x5b, 0xa3, 0x26, 0xd9, 0x49);
    Cycle31();
    Cycle(x, 0x81, 0xef, 0xf9, 0x84, 0xfe, 0x91, 0x86, 0xfa,
          0xbf, 0x1f, 0x3c, 0xf4, 0xd5, 0x19, 0x28, 0x8d);
    Cycle32();
    Cycle(x, 0x82, 0xea, 0xe8, 0xec, 0xfc, 0x95, 0x96, 0x93,
          0x39, 0xe5, 0xbd, 0x1b, 0x2c, 0x9d, 0xd6, 0x1c);
    Cycle33();
    Cycle(x, 0x83, 0xeb, 0xe9, 0xed, 0xfd, 0x94, 0x97, 0x92,
          0x8c, 0xbe, 0x1e, 0x3d, 0xf5, 0xd4, 0x18, 0x29);
  }
}
