/** At which lengths f9 is the MAC of the standard (3GPP TS 35.215, section 4): the source counts blocks and octets in
    32 bits, so that very long messages, and the empty one, are not read as they should be. */
module F9Lengths {
  import opened Numbers
  import opened UeaUia
  import opened Gf64
  import opened Gf64Field
  import opened Alpha

  /** 2^35 bits, the last length at which neither counter wraps. */
  const LONGEST := 0x8_0000_0000

  // ----- what is read

  /** For every memory, f9 may be run exactly if the message is there: this holds exactly from 1 bit to 2^35 bits. With
      no bits at all it reads 2^32 octets, and longer messages are never read beyond so many. */
  lemma ReadsMessageExactly(length: nat)
    ensures (forall data: seq<bv8> :: Readable(data, length) <==> length <= 8 * |data|) <==> 1 <= length <= LONGEST
  {
    hide Readable;
    if 1 <= length <= LONGEST {
      forall data: seq<bv8>
        ensures Readable(data, length) <==> length <= 8 * |data|
      {
        ReadableExactly(data, length);
      }
    } else if length == 0 {
      NothingIsNotEnough();
    } else {
      var data := Silence(WRAP);
      WrapIsEnough(data, length);
    }
  }

  lemma NothingIsNotEnough()
    ensures !Readable([], 0)
  {
  }

  lemma WrapIsEnough(data: seq<bv8>, length: nat)
    requires |data| >= WRAP
    ensures Readable(data, length)
  {
    hide At, FullBlocks, LastBits;
    LastBitsBound(length);
    AtInside();
  }

  // ----- too long: one bit behind the first 2^32 octets

  /** Nothing but zeros, and one bit set right behind the octets that are read. */
  function LateBit(n: nat): (r: seq<bv8>)
    requires n > WRAP
    ensures |r| == n
  {
    Silence(n)[WRAP := 0x80]
  }

  lemma SilentBlock(data: seq<bv8>, length: nat, j: nat)
    requires length <= 8 * |data| && forall k | 8 * j <= k < 8 * j + 8 && k < |data| :: data[k] == 0
    ensures Block(data, length, j) == 0
  {
    hide Keep, Join;
    forall k | 8 * j <= k < 8 * j + 8
      ensures MessageOctet(data, length, k) == 0
    {
      KeepZero();
    }
    JoinZero();
  }

  lemma KeepZero()
    ensures forall r: nat | r <= 8 :: Keep(0, r) == 0
    ensures forall r: nat | 1 <= r <= 8 :: Keep(0x80, r) == 0x80
  {
  }

  lemma JoinZero()
    ensures Join(0, 0, 0, 0, 0, 0, 0, 0) == 0
    ensures Join(0x80, 0, 0, 0, 0, 0, 0, 0) == 0x8000_0000_0000_0000
    ensures Join(0, 0, 0, 0, 0, 0, 0, 1) == 1
  {
  }

  lemma LateBlock(length: nat, n: nat)
    requires n > WRAP && LONGEST < length <= 8 * n
    ensures Block(LateBit(n), length, WRAP / 8) == 0x8000_0000_0000_0000
  {
    hide Keep, Join, LateBit;
    var data, k := LateBit(n), WRAP;
    LateOctets(n);
    KeepZero();
    forall k | WRAP < k < WRAP + 8
      ensures MessageOctet(data, length, k) == 0
    {
    }
    assert MessageOctet(data, length, WRAP) == 0x80;
    JoinZero();
  }

  lemma LateOctets(n: nat)
    requires n > WRAP
    ensures forall k | 0 <= k < n :: LateBit(n)[k] == if k == WRAP then 0x80 else 0
  {
  }

  /** The standard's EVAL at P = 1 is the sum of the blocks. */
  lemma {:induction false} LateHorner(length: nat, n: nat, j: nat)
    requires n > WRAP && LONGEST < length <= 8 * n
    ensures Horner(LateBit(n), length, 1, j) == if j <= WRAP / 8 then 0 else 0x8000_0000_0000_0000
    decreases j
  {
    hide Block, LateBit, Add, Product;
    if j > 0 {
      LateHorner(length, n, j - 1);
      LateOctets(n);
      if j - 1 == WRAP / 8 {
        LateBlock(length, n);
      } else {
        SilentBlock(LateBit(n), length, j - 1);
      }
      AddZero(Block(LateBit(n), length, j - 1));
      AddZero(Horner(LateBit(n), length, 1, j - 1));
      Unit(Add(Horner(LateBit(n), length, 1, j - 1), Block(LateBit(n), length, j - 1)), C);
    }
  }

  lemma RawZero(data: seq<bv8>, at: nat)
    requires at + 8 <= |data| && forall k | at <= k < at + 8 :: data[k] == 0
    ensures Raw(data, at) == 0
  {
    hide Join;
    JoinZero();
  }

  lemma {:induction false} SilentLoop(data: seq<bv8>, P: bv64, n: nat)
    requires |data| >= WRAP && forall k | 0 <= k < WRAP :: data[k] == 0
    ensures forall i: nat :: At(i) + 8 <= WRAP
    ensures SourceLoop(data, P, n) == 0
    decreases n
  {
    hide Raw, Add, Product, At;
    AtInside();
    if n > 0 {
      SilentLoop(data, P, n - 1);
      RawZero(data, At(n - 1));
      AddZero(0);
      Unit(P, C);
    }
  }

  lemma SilentSource(data: seq<bv8>, length: nat, P: bv64)
    requires |data| >= WRAP && forall k | 0 <= k < WRAP :: data[k] == 0
    ensures Readable(data, length) && SourceEval(data, length, P) == 0
  {
    hide Block, Add, Product, At, FullBlocks, LastBits;
    var n := FullBlocks(length);
    WrapIsEnough(data, length);
    LastBitsBound(length);
    SilentLoop(data, P, n);
    SilentBlock(data[At(n)..], LastBits(length), 0);
    AddZero(0);
    Unit(P, C);
  }

  /** The input that shows it: the source's EVAL is 0 and the standard's, at P = 1, is not. */
  lemma LateBitMissed(length: nat)
    requires length > LONGEST
    ensures (length + 7) / 8 > WRAP
    ensures
      var data := LateBit((length + 7) / 8);
      && Readable(data, length) && SourceEval(data, length, 1) == 0
      && Eval(data, length, 1) == 0x8000_0000_0000_0000
  {
    hide Readable, SourceEval, LateBit;
    var n := (length + 7) / 8;
    LateOctets(n);
    SilentSource(LateBit(n), length, 1);
    LateHorner(length, n, BlockCount(length));
  }

  // ----- too short: the empty message

  /** The blocks in the octets that are read. */
  const ROUND: nat := 0x2000_0000

  /** Nothing but zeros, and one bit set at the very end of the octets that are read. */
  function LastBit(): (r: seq<bv8>)
    ensures |r| == WRAP
    ensures forall k | 0 <= k < WRAP :: r[k] == if k == WRAP - 1 then 1 else 0
  {
    Silence(WRAP)[WRAP - 1 := 1]
  }

  lemma AtForm(i: nat)
    ensures At(i) == 8 * (i % ROUND)
  {
    var q, r := i / ROUND, i % ROUND;
    assert 8 * i == WRAP * q + 8 * r;
    Remainder(8 * i, WRAP, q, 8 * r);
  }

  /** The source's loop over these octets. */
  function Run(P: bv64, n: nat): bv64 {
    AtInside();
    SourceLoop(LastBit(), P, n)
  }

  lemma RunStart(P: bv64)
    ensures Run(P, 0) == 0
  {
  }

  lemma RunNext(P: bv64, n: nat)
    ensures Run(P, n + 1) == Product(Add(Run(P, n), if n % ROUND == ROUND - 1 then 1 else 0), P, C)
  {
    hide Raw, Add, Product, At, LastBit;
    AtInside();
    LoopNext(LastBit(), P, n);
    LastBitRaw(n);
  }

  lemma LastBitRaw(i: nat)
    ensures At(i) + 8 <= WRAP
    ensures Raw(LastBit(), At(i)) == if i % ROUND == ROUND - 1 then 1 else 0
  {
    hide Join, At, LastBit;
    AtForm(i);
    JoinZero();
  }

  lemma LoopNext(data: seq<bv8>, P: bv64, n: nat)
    requires forall i | 0 <= i < n + 1 :: At(i) + 8 <= |data|
    ensures SourceLoop(data, P, n + 1) == Product(Add(SourceLoop(data, P, n), Raw(data, At(n))), P, C)
  {
    hide Raw, Add, Product, At;
  }

  lemma {:induction false} PowerAdd(p: bv64, m: nat, n: nat)
    ensures Power(p, m + n, C) == Product(Power(p, m, C), Power(p, n, C), C)
    decreases n
  {
    hide Product;
    if n == 0 {
      Unit(Power(p, m, C), C);
    } else {
      PowerAdd(p, m, n - 1);
      Associative(Power(p, m, C), Power(p, n - 1, C), p, C);
    }
  }

  lemma {:induction false} PowerIsFrobenius(p: bv64, k: nat)
    ensures Power(p, Pow2(k), C) == Frobenius(p, k)
    decreases k
  {
    hide Product, Square, Power;
    if k == 0 {
      PowerOne(p, C);
    } else {
      PowerIsFrobenius(p, k - 1);
      PowerAdd(p, Pow2(k - 1), Pow2(k - 1));
      SquareIsProduct(Frobenius(p, k - 1));
    }
  }

  lemma {:induction false} FrobeniusTwice(p: bv64, m: nat, n: nat)
    ensures Frobenius(Frobenius(p, m), n) == Frobenius(p, m + n)
    decreases n
  {
    hide Square;
    if n > 0 {
      FrobeniusTwice(p, m, n - 1);
    }
  }

  /** A point P of which the power that a round multiplies by is x. */
  function RootOfX(): bv64 { Frobenius(2, 35) }

  lemma Round()
    ensures Pow2(29) == ROUND
  {
    assert Pow2(7) == 0x80;
    assert Pow2(14) == 0x4000;
    assert Pow2(21) == 0x20_0000;
    assert Pow2(28) == 0x1000_0000;
  }

  lemma RootLaws()
    ensures Power(RootOfX(), ROUND, C) == 2 && RootOfX() != 0
  {
    hide Power, Square, Product;
    var p := RootOfX();
    Round();
    PowerIsFrobenius(p, 29);
    FrobeniusTwice(2, 35, 29);
    FrobeniusIsIdentity(2);
    if p == 0 {
      PowerAdd(p, ROUND - 1, 1);
      PowerOne(p, C);
      Unit(Power(p, ROUND - 1, C), C);
    }
  }

  /** Within a round the loop only multiplies by P. */
  lemma {:induction false} WithinRound(P: bv64, r: nat, k: nat)
    requires k < ROUND
    ensures Run(P, ROUND * r + k) == Product(Run(P, ROUND * r), Power(P, k, C), C)
    decreases k
  {
    hide Add, Product, Run, Power;
    var v := Run(P, ROUND * r);
    if k == 0 {
      PowerZero(P);
      Unit(v, C);
    } else {
      WithinRound(P, r, k - 1);
      RunNext(P, ROUND * r + (k - 1));
      Remainder(ROUND * r + (k - 1), ROUND, r, k - 1);
      AddZero(Run(P, ROUND * r + (k - 1)));
      Associative(v, Power(P, k - 1, C), P, C);
      PowerNext(P, k - 1, C);
    }
  }

  lemma PowerZero(p: bv64)
    ensures Power(p, 0, C) == 1
  {
  }

  /** A round multiplies by a power of P and adds P. */
  lemma OneRound(P: bv64, r: nat)
    ensures Run(P, ROUND * r + ROUND) == Add(Product(Run(P, ROUND * r), Power(P, ROUND, C), C), P)
  {
    hide Add, Product, Run, Power;
    var v, k := Run(P, ROUND * r), ROUND - 1;
    WithinRound(P, r, k);
    RunNext(P, ROUND * r + k);
    Remainder(ROUND * r + k, ROUND, r, k);
    Distributive(P, Product(v, Power(P, k, C), C), 1, C);
    Unit(P, C);
    Associative(v, Power(P, k, C), P, C);
    PowerNext(P, k, C);
  }

  /** At the root of x, r rounds come to P times x^(r - 1) + ... + 1. */
  lemma {:induction false} Rounds(r: nat)
    requires r <= 8
    ensures Run(RootOfX(), ROUND * r) == Product(RootOfX(), Ones(r), C)
    decreases r
  {
    hide Add, Product, Run, Power, RootOfX, Ones;
    var p := RootOfX();
    OnesLaws();
    Unit(p, C);
    if r == 0 {
      RunStart(p);
    } else {
      Rounds(r - 1);
      OneRound(p, r - 1);
      RootLaws();
      Associative(p, Ones(r - 1), 2, C);
      Distributive(p, Product(Ones(r - 1), 2, C), 1, C);
    }
  }

  function Ones(r: nat): bv64
    requires r <= 8
  {
    if r == 0 then 0 else if r == 1 then 1 else if r == 2 then 3 else if r == 3 then 7 else if r == 4 then 0xf else
    if r == 5 then 0x1f else if r == 6 then 0x3f else if r == 7 then 0x7f else 0xff
  }

  lemma OnesLaws()
    ensures Ones(0) == 0 && Ones(8) != 0
    ensures forall r: nat | r < 8 :: Ones(r + 1) == Add(Product(Ones(r), 2, C), 1)
  {
    forall r: nat | r < 8
      ensures Ones(r + 1) == Add(Product(Ones(r), 2, C), 1)
    {
      TimesX(Ones(r));
    }
  }

  lemma TimesX(v: bv64)
    ensures Product(v, 2, C) == MUL64x(v, C)
  {
    hide Product;
    ProductXRight(v, 1, C);
    Unit(v, C);
    assert MUL64x(1, C) == 2;
  }

  /** The input that shows it: the standard's EVAL of the empty message is 0, and the source's is not at this point. */
  lemma EmptyMisread()
    ensures Readable(LastBit(), 0) && SourceEval(LastBit(), 0, RootOfX()) != 0 && Eval(LastBit(), 0, RootOfX()) == 0
  {
    hide Raw, Add, Product, At, LastBit, RootOfX, Ones, SourceLoop, Run;
    var p, n := RootOfX(), FullBlocks(0);
    WrapIsEnough(LastBit(), 0);
    assert n == ROUND * 8 - 1 && LastBits(0) == 64;
    Rounds(8);
    OnesLaws();
    RootLaws();
    NoZeroDivisors(p, Ones(8));
    RunNext(p, n);
    RunForm(p, n);
    LastBitRaw(n);
    Remainder(n, ROUND, 7, ROUND - 1);
    FullBlock(LastBit()[At(n)..], 64, 0);
    SameRawBehind(LastBit(), At(n));
  }

  lemma RunForm(P: bv64, n: nat)
    ensures forall i: nat :: At(i) + 8 <= WRAP
    ensures Run(P, n) == SourceLoop(LastBit(), P, n)
  {
    hide At, SourceLoop;
    AtInside();
  }

  lemma SameRawBehind(data: seq<bv8>, at: nat)
    requires at + 8 <= |data|
    ensures Raw(data[at..], 0) == Raw(data, at)
  {
    hide Join;
  }

  // ----- the MAC

  /** The keystream words with given P and Q. */
  function WordsFor(p: bv64, q: bv64): (z: seq<bv32>)
    ensures |z| == 5 && P(z) == p && Q(z) == q
  {
    JoinTop(p);
    JoinTop(q);
    [Top32(p), Low32(p), Top32(q), Low32(q), 0]
  }

  /** Two values of EVAL that differ have different MACs with some of these words. */
  lemma ToldApart(p: bv64, e: bv64, e': bv64, length: nat) returns (z: seq<bv32>)
    requires e != e' && length < 0x1_0000_0000_0000_0000
    ensures |z| == 5 && P(z) == p && Mac(z, e, length) != Mac(z, e', length)
  {
    hide Product, Inverse, Top32, Add, WordsFor, P, Q, Xor, WordOf;
    var d, top: bv64 := Add(e, e'), 0x8000_0000_0000_0000;
    var q := Product(Inverse(d), top, C);
    z := WordsFor(p, q);
    DifferentSum(e, e');
    InverseLaw(d);
    Associative(d, Inverse(d), top, C);
    Unit(top, C);
    var l := WordOf(length);
    var t, t' := Product(Add(e, l), q, C), Product(Add(e', l), q, C);
    Distributive(q, Add(e, l), Add(e', l), C);
    AddSwap(e, l, e', l);
    AddZero(l);
    AddZero(d);
    Top32Add(t, t');
    TopOfTop();
    SameXor(Top32(t), Top32(t'), z[4]);
  }

  lemma TopOfTop()
    ensures Top32(0x8000_0000_0000_0000) == 0x8000_0000
  {
  }

  lemma SameXor(a: bv32, b: bv32, z: bv32)
    ensures Xor(a, z) == Xor(b, z) ==> Xor(a, b) == 0
  {
  }

  /** The source's MAC, with these keystream words, is the standard's, wherever both can be computed. */
  predicate AsStandard(z: seq<bv32>, data: seq<bv8>, length: nat)
    requires length < 0x1_0000_0000_0000_0000
  {
    |z| == 5 && length <= 8 * |data| && Readable(data, length) ==>
      Mac(z, SourceEval(data, length, P(z)), length) == Mac(z, Eval(data, length, P(z)), length)
  }

  /** For all messages and keystream words: the source's MAC is the standard's exactly from 1 bit to 2^35 bits. */
  lemma StandardExactly(length: nat)
    requires length < 0x1_0000_0000_0000_0000
    ensures (forall z: seq<bv32>, data: seq<bv8> :: AsStandard(z, data, length)) <==> 1 <= length <= LONGEST
  {
    hide Mac, Eval, SourceEval, Readable, P;
    if 1 <= length <= LONGEST {
      forall z: seq<bv32>, data: seq<bv8>
        ensures AsStandard(z, data, length)
      {
        if |z| == 5 && length <= 8 * |data| {
          SourceEvalIsEval(data, length, P(z));
        }
      }
    } else if length == 0 {
      EmptyMisread();
      var z := ToldApart(RootOfX(), SourceEval(LastBit(), 0, RootOfX()), 0, 0);
      assert !AsStandard(z, LastBit(), 0);
    } else {
      LateBitMissed(length);
      var z := ToldApart(1, 0, 0x8000_0000_0000_0000, length);
      assert !AsStandard(z, LateBit((length + 7) / 8), length);
    }
  }
}
