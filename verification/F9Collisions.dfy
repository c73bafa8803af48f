/** How often f9 can give two different messages the same MAC (3GPP TS 35.215, section 4). The field of 2^64 elements
    bounds the points at which their polynomials meet, and tells exactly which multipliers hide a difference. */
module F9Collisions {
  import opened Numbers
  import Alpha
  import opened MsbBits
  import opened UeaUia
  import opened Gf64
  import opened Gf64Field

  // ----- polynomials over the field

  /** The polynomial with these coefficients, the highest first, at x. */
  function Value(cs: seq<bv64>, x: bv64): bv64 {
    if cs == [] then 0
    else Add(Product(Value(cs[..|cs| - 1], x), x, C), cs[|cs| - 1])
  }

  predicate AllZero(cs: seq<bv64>) { forall i | 0 <= i < |cs| :: cs[i] == 0 }

  /** Synthetic division by x + r: the quotient's coefficients are the values of the leading parts at r. */
  function Divided(cs: seq<bv64>, r: bv64): (q: seq<bv64>)
    requires cs != []
    ensures |q| == |cs| - 1
  {
    seq(|cs| - 1, j requires 0 <= j < |cs| - 1 => Value(cs[..j + 1], r))
  }

  lemma DividedStep(cs: seq<bv64>, r: bv64)
    requires |cs| >= 2
    ensures Divided(cs, r)[..|cs| - 2] == Divided(cs[..|cs| - 1], r)
    ensures Divided(cs, r)[|cs| - 2] == Value(cs[..|cs| - 1], r)
  {
    hide Value;
    var head := cs[..|cs| - 1];
    assert forall j | 0 <= j < |cs| - 2 :: Divided(head, r)[j] == Divided(cs, r)[j] by {
      forall j | 0 <= j < |cs| - 2
        ensures Divided(head, r)[j] == Divided(cs, r)[j]
      {
        assert head[..j + 1] == cs[..j + 1];
      }
    }
  }

  /** p(x) = (x + r) * q(x) + p(r). */
  lemma {:induction false} Division(cs: seq<bv64>, r: bv64, x: bv64)
    requires cs != []
    ensures Value(cs, x) == Add(Product(Add(x, r), Value(Divided(cs, r), x), C), Value(cs, r))
    decreases |cs|
  {
    hide Product, Add, Divided;
    var head, m := cs[..|cs| - 1], cs[|cs| - 1];
    if |cs| == 1 {
      assert head == [] && Divided(cs, r) == [];
      Unit(x, C);
      Unit(r, C);
      Unit(Add(x, r), C);
      AddZero(m);
    } else {
      Division(head, r, x);
      DividedStep(cs, r);
      DivisionAlgebra(x, r, Value(Divided(head, r), x), Value(head, r), Value(head, x), m);
    }
  }

  /** With p = (x + r) * q + s: p * x + m = (x + r) * (q * x + s) + (s * r + m). */
  lemma DivisionAlgebra(x: bv64, r: bv64, q: bv64, s: bv64, p: bv64, m: bv64)
    requires p == Add(Product(Add(x, r), q, C), s)
    ensures Add(Product(p, x, C), m)
         == Add(Product(Add(x, r), Add(Product(q, x, C), s), C), Add(Product(s, r, C), m))
  {
    hide *;
    var d := Add(x, r);
    var t, sx, sr := Product(Product(d, q, C), x, C), Product(s, x, C), Product(s, r, C);
    Distributive(x, Product(d, q, C), s, C);
    Distributive(d, Product(q, x, C), s, C);
    Associative(d, q, x, C);
    Distributive(s, x, r, C);
    Commutative(d, s, C);
    AddAssoc(t, Add(sx, sr), Add(sr, m));
    AddAssoc(sx, sr, Add(sr, m));
    AddAssoc(sr, sr, m);
    AddZero(sr);
    AddZero(m);
    AddAssoc(t, sx, m);
  }

  /** Only the zero polynomial has a zero quotient and a zero remainder. */
  lemma {:induction false} ZeroQuotient(cs: seq<bv64>, r: bv64)
    requires cs != [] && AllZero(Divided(cs, r)) && Value(cs, r) == 0
    ensures AllZero(cs)
    decreases |cs|
  {
    hide Product, Add, Divided;
    var head, m := cs[..|cs| - 1], cs[|cs| - 1];
    if |cs| > 1 {
      DividedStep(cs, r);
      assert Divided(cs, r)[|cs| - 2] == 0;
      assert AllZero(Divided(head, r)) by {
        assert forall i | 0 <= i < |cs| - 2 :: Divided(head, r)[i] == Divided(cs, r)[i];
      }
      ZeroQuotient(head, r);
      assert forall i | 0 <= i < |cs| - 1 :: cs[i] == head[i];
    }
    assert Value(head, r) == 0;
    Unit(r, C);
    AddZero(m);
  }

  predicate Distinct(xs: seq<bv64>) { forall i, j | 0 <= i < j < |xs| :: xs[i] != xs[j] }

  /** A polynomial that is not zero has fewer roots than coefficients. */
  lemma {:induction false} FewRoots(cs: seq<bv64>, xs: seq<bv64>)
    requires !AllZero(cs) && Distinct(xs) && forall i | 0 <= i < |xs| :: Value(cs, xs[i]) == 0
    ensures |xs| < |cs|
    decreases |cs|
  {
    assert cs != [];
    hide Product, Add, Value, Divided, AllZero;
    if xs != [] {
      var r, rest, q := xs[0], xs[1..], Divided(cs, xs[0]);
      if AllZero(q) {
        ZeroQuotient(cs, r);
      }
      forall i | 0 <= i < |rest|
        ensures Value(q, rest[i]) == 0
      {
        assert rest[i] == xs[i + 1];
        RootOfQuotient(cs, r, rest[i]);
      }
      FewRoots(q, rest);
    }
  }

  lemma RootOfQuotient(cs: seq<bv64>, r: bv64, x: bv64)
    requires cs != [] && x != r && Value(cs, r) == 0 && Value(cs, x) == 0
    ensures Value(Divided(cs, r), x) == 0
  {
    hide *;
    var q := Value(Divided(cs, r), x);
    Division(cs, r, x);
    AddZero(Product(Add(x, r), q, C));
    NoZeroDivisors(Add(x, r), q);
    DifferentSum(x, r);
  }

  // ----- messages as polynomials

  function Blocks(data: seq<bv8>, length: nat, n: nat): seq<bv64>
    requires length <= 8 * |data|
  {
    seq(n, j requires 0 <= j < n => Block(data, length, j))
  }

  /** EVAL plus a constant is the polynomial with the blocks as coefficients and the constant as the last. */
  lemma {:induction false} HornerIsValue(data: seq<bv8>, length: nat, P: bv64, n: nat, last: bv64)
    requires length <= 8 * |data|
    ensures Add(Horner(data, length, P, n), last) == Value(Blocks(data, length, n) + [last], P)
    decreases n
  {
    hide Product, Add, Block;
    var cs := Blocks(data, length, n);
    assert (cs + [last])[..n] == cs;
    if n == 0 {
      Unit(P, C);
    } else {
      var m := Block(data, length, n - 1);
      HornerIsValue(data, length, P, n - 1, m);
      assert cs == Blocks(data, length, n - 1) + [m];
    }
  }

  function Sum(a: seq<bv64>, b: seq<bv64>): (r: seq<bv64>)
    requires |a| == |b|
    ensures |r| == |a|
  {
    seq(|a|, i requires 0 <= i < |a| => Add(a[i], b[i]))
  }

  lemma {:induction false} ValueOfSum(a: seq<bv64>, b: seq<bv64>, x: bv64)
    requires |a| == |b|
    ensures Value(Sum(a, b), x) == Add(Value(a, x), Value(b, x))
    decreases |a|
  {
    hide Product, Add;
    if a == [] {
      AddZero(0);
    } else {
      var n := |a| - 1;
      ValueOfSum(a[..n], b[..n], x);
      assert Sum(a, b)[..n] == Sum(a[..n], b[..n]);
      var v, w := Value(a[..n], x), Value(b[..n], x);
      Distributive(x, v, w, C);
      AddSwap(Product(v, x, C), Product(w, x, C), a[n], b[n]);
    }
  }

  function NoCoefficients(n: nat): (r: seq<bv64>)
    ensures |r| == n
  {
    seq(n, _ => 0)
  }

  /** Leading coefficients of zero make no difference. */
  lemma {:induction false} ValueOfPadded(cs: seq<bv64>, n: nat, x: bv64)
    ensures Value(NoCoefficients(n) + cs, x) == Value(cs, x)
    decreases n + |cs|
  {
    hide Product, Add;
    var all := NoCoefficients(n) + cs;
    if cs != [] {
      ValueOfPadded(cs[..|cs| - 1], n, x);
      assert all[..|all| - 1] == NoCoefficients(n) + cs[..|cs| - 1];
    } else if n > 0 {
      ValueOfPadded([], n - 1, x);
      assert all[..n - 1] == NoCoefficients(n - 1) + [];
      Unit(x, C);
      AddZero(0);
    } else {
      assert all == cs;
    }
  }

  lemma JoinInjective(a: bv8, b: bv8, c: bv8, d: bv8, e: bv8, f: bv8, g: bv8, h: bv8,
                      a': bv8, b': bv8, c': bv8, d': bv8, e': bv8, f': bv8, g': bv8, h': bv8)
    requires Join(a, b, c, d, e, f, g, h) == Join(a', b', c', d', e', f', g', h')
    ensures a == a' && b == b' && c == c' && d == d' && e == e' && f == f' && g == g' && h == h'
  {
  }

  lemma SameBlock(data: seq<bv8>, data': seq<bv8>, length: nat, k: nat)
    requires length <= 8 * |data| && length <= 8 * |data'|
    requires Block(data, length, k / 8) == Block(data', length, k / 8)
    ensures MessageOctet(data, length, k) == MessageOctet(data', length, k)
  {
    hide Join, MessageOctet;
    var j := k / 8;
    JoinInjective(MessageOctet(data, length, 8 * j), MessageOctet(data, length, 8 * j + 1),
                  MessageOctet(data, length, 8 * j + 2), MessageOctet(data, length, 8 * j + 3),
                  MessageOctet(data, length, 8 * j + 4), MessageOctet(data, length, 8 * j + 5),
                  MessageOctet(data, length, 8 * j + 6), MessageOctet(data, length, 8 * j + 7),
                  MessageOctet(data', length, 8 * j), MessageOctet(data', length, 8 * j + 1),
                  MessageOctet(data', length, 8 * j + 2), MessageOctet(data', length, 8 * j + 3),
                  MessageOctet(data', length, 8 * j + 4), MessageOctet(data', length, 8 * j + 5),
                  MessageOctet(data', length, 8 * j + 6), MessageOctet(data', length, 8 * j + 7));
  }

  /** Messages that differ in one of their bits differ in one of their blocks. */
  lemma DifferentBlock(data: seq<bv8>, data': seq<bv8>, length: nat)
    requires length <= 8 * |data| && length <= 8 * |data'| && !SameBits(data, data', length)
    ensures exists j | 0 <= j < BlockCount(length) :: Block(data, length, j) != Block(data', length, j)
  {
    hide Block, OctetBit;
    var i :| 0 <= i < length && Bit(data, i) != Bit(data', i);
    var k := i / 8;
    var r := if length - 8 * k < 8 then length - 8 * k else 8;
    assert k / 8 < BlockCount(length);
    if Block(data, length, k / 8) == Block(data', length, k / 8) {
      SameBlock(data, data', length, k);
      MaskKeepsBit(data[k], i % 8, r);
      MaskKeepsBit(data'[k], i % 8, r);
    }
  }

  // ----- the bounds

  lemma NotAllZero(cs: seq<bv64>, j: nat)
    requires j < |cs| && cs[j] != 0
    ensures !AllZero(cs)
  {
  }

  /** The polynomial of a message with a constant added, filled up with zero coefficients to a given degree. */
  function Coefficients(data: seq<bv8>, length: nat, last: bv64, degree: nat): (r: seq<bv64>)
    requires length <= 8 * |data| && BlockCount(length) <= degree
    ensures |r| == degree + 1
  {
    var n := BlockCount(length);
    NoCoefficients(degree - n) + (Blocks(data, length, n) + [last])
  }

  lemma CoefficientsValue(data: seq<bv8>, length: nat, last: bv64, degree: nat, P: bv64)
    requires length <= 8 * |data| && BlockCount(length) <= degree
    ensures Value(Coefficients(data, length, last, degree), P) == Add(Eval(data, length, P), last)
  {
    hide Value, Add, Horner, BlockCount;
    var n := BlockCount(length);
    HornerIsValue(data, length, P, n, last);
    ValueOfPadded(Blocks(data, length, n) + [last], degree - n, P);
  }

  /** Two messages with a constant added to EVAL, different in the constant or, when equally long, in one of their bits,
      meet at no more points P than the longer one has blocks. */
  lemma FewMeetingPoints(data: seq<bv8>, length: nat, last: bv64, data': seq<bv8>, length': nat, last': bv64,
                         points: seq<bv64>)
    requires length <= 8 * |data| && length' <= 8 * |data'|
    requires last != last' || (length == length' && !SameBits(data, data', length))
    requires Distinct(points)
    requires forall i | 0 <= i < |points| ::
               Add(Eval(data, length, points[i]), last) == Add(Eval(data', length', points[i]), last')
    ensures |points| <= Max(BlockCount(length), BlockCount(length'))
  {
    hide Product, Add, Block, SameBits, Value, Eval, BlockCount, Distinct, AllZero;
    var m := Max(BlockCount(length), BlockCount(length'));
    var a, b := Coefficients(data, length, last, m), Coefficients(data', length', last', m);
    var j := DifferentCoefficient(data, length, last, data', length', last', m);
    DifferentSum(a[j], b[j]);
    NotAllZero(Sum(a, b), j);
    forall i | 0 <= i < |points|
      ensures Value(Sum(a, b), points[i]) == 0
    {
      ValueOfSum(a, b, points[i]);
      CoefficientsValue(data, length, last, m, points[i]);
      CoefficientsValue(data', length', last', m, points[i]);
      AddZero(Value(a, points[i]));
    }
    FewRoots(Sum(a, b), points);
  }

  lemma DifferentCoefficient(data: seq<bv8>, length: nat, last: bv64, data': seq<bv8>, length': nat, last': bv64,
                             m: nat)
    returns (j: nat)
    requires length <= 8 * |data| && length' <= 8 * |data'| && m == Max(BlockCount(length), BlockCount(length'))
    requires last != last' || (length == length' && !SameBits(data, data', length))
    ensures j <= m && Coefficients(data, length, last, m)[j] != Coefficients(data', length', last', m)[j]
  {
    hide Block, SameBits, BlockCount;
    if last != last' {
      j := m;
    } else {
      DifferentBlock(data, data', length);
      var k :| 0 <= k < m && Block(data, length, k) != Block(data', length, k);
      j := k;
    }
  }

  /** Two different messages of the same length, with n blocks of 64 bits, have the same EVAL at no more than n of the
      2^64 points P. */
  lemma FewCollidingPoints(data: seq<bv8>, data': seq<bv8>, length: nat, points: seq<bv64>)
    requires length <= 8 * |data| && length <= 8 * |data'| && !SameBits(data, data', length)
    requires Distinct(points)
    requires forall i | 0 <= i < |points| :: Eval(data, length, points[i]) == Eval(data', length, points[i])
    ensures |points| <= BlockCount(length)
  {
    hide Add, SameBits, Eval, BlockCount, Distinct;
    FewMeetingPoints(data, length, 0, data', length, 0, points);
  }

  lemma DigitInjective(m: nat, n: nat)
    requires Digit(m) == Digit(n)
    ensures m % 256 == n % 256
  {
    OctetAndBack(m % 256);
    OctetAndBack(n % 256);
  }

  lemma SameQuotient(m: nat, n: nat)
    requires m / 256 == n / 256 && m % 256 == n % 256
    ensures m == n
  {
  }

  lemma SmallQuotient(n: nat)
    requires n < 0x1_0000_0000_0000_0000
    ensures n / 256 / 256 / 256 / 256 / 256 / 256 / 256 / 256 == 0
  {
  }

  lemma WordOfInjective(m: nat, n: nat)
    requires m < 0x1_0000_0000_0000_0000 && n < 0x1_0000_0000_0000_0000 && WordOf(m) == WordOf(n)
    ensures m == n
  {
    hide Digit, Join;
    var m1, n1 := m / 256, n / 256;
    var m2, n2 := m1 / 256, n1 / 256;
    var m3, n3 := m2 / 256, n2 / 256;
    var m4, n4 := m3 / 256, n3 / 256;
    var m5, n5 := m4 / 256, n4 / 256;
    var m6, n6 := m5 / 256, n5 / 256;
    var m7, n7 := m6 / 256, n6 / 256;
    JoinInjective(Digit(m7), Digit(m6), Digit(m5), Digit(m4), Digit(m3), Digit(m2), Digit(m1), Digit(m),
                  Digit(n7), Digit(n6), Digit(n5), Digit(n4), Digit(n3), Digit(n2), Digit(n1), Digit(n));
    SmallQuotient(m);
    SmallQuotient(n);
    SameDigit(m7, n7);
    SameDigit(m6, n6);
    SameDigit(m5, n5);
    SameDigit(m4, n4);
    SameDigit(m3, n3);
    SameDigit(m2, n2);
    SameDigit(m1, n1);
    SameDigit(m, n);
  }

  lemma SameDigit(m: nat, n: nat)
    requires Digit(m) == Digit(n) && m / 256 == n / 256
    ensures m == n
  {
    hide Digit;
    DigitInjective(m, n);
    SameQuotient(m, n);
  }

  /** Messages of different lengths: EVAL with the length added, which f9 multiplies by Q, is the same for both at no
      more points than the longer one has blocks. */
  lemma FewCollidingLengths(data: seq<bv8>, length: nat, data': seq<bv8>, length': nat, points: seq<bv64>)
    requires length <= 8 * |data| && length' <= 8 * |data'| && length != length'
    requires length < 0x1_0000_0000_0000_0000 && length' < 0x1_0000_0000_0000_0000
    requires Distinct(points)
    requires forall i | 0 <= i < |points| ::
               Add(Eval(data, length, points[i]), WordOf(length))
               == Add(Eval(data', length', points[i]), WordOf(length'))
    ensures |points| <= Max(BlockCount(length), BlockCount(length'))
  {
    hide Add, Eval, BlockCount, Distinct, WordOf;
    if WordOf(length) == WordOf(length') {
      WordOfInjective(length, length');
    }
    FewMeetingPoints(data, length, WordOf(length), data', length', WordOf(length'), points);
  }

  /** The difference at P of what two messages, of any lengths, have f9 multiply by Q. */
  function Difference(data: seq<bv8>, length: nat, data': seq<bv8>, length': nat, P: bv64): bv64
    requires length <= 8 * |data| && length' <= 8 * |data'|
    requires length < 0x1_0000_0000_0000_0000 && length' < 0x1_0000_0000_0000_0000
  {
    Add(Add(Eval(data, length, P), WordOf(length)), Add(Eval(data', length', P), WordOf(length')))
  }

  /** When this is not zero, two MACs from the same keystream words differ by m for exactly the multipliers Q that are w
      divided by it, for the 2^32 words w with m as the upper half. */
  lemma MacsDifferExactly(z: seq<bv32>, data: seq<bv8>, length: nat, data': seq<bv8>, length': nat, m: bv32)
    requires |z| == 5 && length <= 8 * |data| && length' <= 8 * |data'|
    requires length < 0x1_0000_0000_0000_0000 && length' < 0x1_0000_0000_0000_0000
    requires Difference(data, length, data', length', P(z)) != 0
    ensures Alpha.Xor(Mac(z, Eval(data, length, P(z)), length), Mac(z, Eval(data', length', P(z)), length')) == m
            <==> (exists w: bv64 ::
                    Top32(w) == m && Q(z) == Product(Inverse(Difference(data, length, data', length', P(z))), w, C))
  {
    hide Product, Add, Eval, P, Q, Top32, Inverse, Alpha.Xor;
    var d := Difference(data, length, data', length', P(z));
    var x, x' := Add(Eval(data, length, P(z)), WordOf(length)), Add(Eval(data', length', P(z)), WordOf(length'));
    Distributive(Q(z), x, x', C);
    Top32Add(Product(x, Q(z), C), Product(x', Q(z), C));
    XorOfMasked(Top32(Product(x, Q(z), C)), Top32(Product(x', Q(z), C)), z[4]);
    var w := Product(d, Q(z), C);
    Quotient(d, Q(z), w);
    if v: bv64 :| Top32(v) == m && Q(z) == Product(Inverse(d), v, C) {
      Quotient(d, Q(z), v);
    }
  }

  /** When the polynomials differ at P, by d, the MACs differ by m for exactly those multipliers Q that d times Q has m
      as its upper half: the 2^32 values w / d with m on top of w. */
  lemma DifferenceExactly(z: seq<bv32>, delta: seq<bv8>, length: nat, m: bv32)
    requires |z| == 5 && length <= 8 * |delta| && Eval(delta, length, P(z)) != 0
    ensures MacDelta(z, delta, length) == m
            <==> exists w: bv64 :: Top32(w) == m && Q(z) == Product(Inverse(Eval(delta, length, P(z))), w, C)
  {
    hide Product, Eval, P, Q, Top32, Inverse;
    var d := Eval(delta, length, P(z));
    var w := Product(d, Q(z), C);
    Quotient(d, Q(z), w);
    if v: bv64 :| Top32(v) == m && Q(z) == Product(Inverse(d), v, C) {
      Quotient(d, Q(z), v);
    }
  }
}
