/** Which pairs of flipped bits the three codes of this project detect: the orders of x modulo their generators, and
    what they mean for LLC frames and for headers and payloads of the Iu user plane. */
module CrcDoubleErrors {
  import opened Numbers
  import opened CrcTheory
  import opened CrcOrder
  import IuUp
  import LlcFcs

  // ----- the LLC frame check sequence: n clocks lead from c to d, and before that never through 1

  predicate Leads24(c: bv32, d: bv32, n: nat)
    decreases n
  {
    if n == 0 then c == d else c != 0x800000 && Leads24(LlcFcs.Clock(c), d, n - 1)
  }

  lemma Leads24From225()
    ensures Leads24(0xb06fb3, 0x800000, 30)
  {
    assert Leads24(0xe22103, 0x800000, 6);
    assert Leads24(0x8fe409, 0x800000, 14);
    assert Leads24(0x35e2f5, 0x800000, 22);
  }

  lemma Leads24From193()
    ensures Leads24(0xd331c5, 0x800000, 62)
  {
    Leads24From225();
    assert Leads24(0x349f9e, 0x800000, 38);
    assert Leads24(0x960f08, 0x800000, 46);
    assert Leads24(0x3737bc, 0x800000, 54);
  }

  lemma Leads24From161()
    ensures Leads24(0xf3dc1c, 0x800000, 94)
  {
    Leads24From193();
    assert Leads24(0xfa9ded, 0x800000, 70);
    assert Leads24(0x81d5fb, 0x800000, 78);
    assert Leads24(0xeb687a, 0x800000, 86);
  }

  lemma Leads24From129()
    ensures Leads24(0x3b86a3, 0x800000, 126)
  {
    Leads24From161();
    assert Leads24(0xf565ee, 0x800000, 102);
    assert Leads24(0xcda5cf, 0x800000, 110);
    assert Leads24(0x5d7a3e, 0x800000, 118);
  }

  lemma Leads24From97()
    ensures Leads24(0x448f70, 0x800000, 158)
  {
    Leads24From129();
    assert Leads24(0x3b413c, 0x800000, 134);
    assert Leads24(0xfcde3c, 0x800000, 142);
    assert Leads24(0x4336da, 0x800000, 150);
  }

  lemma Leads24From65()
    ensures Leads24(0xa54c99, 0x800000, 190)
  {
    Leads24From97();
    assert Leads24(0x271cea, 0x800000, 166);
    assert Leads24(0x24f299, 0x800000, 174);
    assert Leads24(0x279d54, 0x800000, 182);
  }

  lemma Leads24From33()
    ensures Leads24(0x982c00, 0x800000, 222)
  {
    Leads24From65();
    assert Leads24(0xa70e2e, 0x800000, 198);
    assert Leads24(0x53ae58, 0x800000, 206);
    assert Leads24(0x00982c, 0x800000, 214);
  }

  lemma Leads24From1()
    ensures Leads24(0x400000, 0x800000, 254)
  {
    Leads24From33();
    assert Leads24(0xfb4733, 0x800000, 230);
    assert Leads24(0x000040, 0x800000, 238);
    assert Leads24(0x004000, 0x800000, 246);
  }

  // ----- CRC-6 and CRC-10 of the Iu user plane

  function Clock6(c: bv8): bv8 { if c & 0x20 != 0 then ((c << 1) & 0x3f) ^ 47 else (c << 1) & 0x3f }

  function Clock10(c: bv16): bv16 { if c & 0x200 != 0 then ((c << 1) & 0x3ff) ^ 563 else (c << 1) & 0x3ff }

  predicate Leads6(c: bv8, d: bv8, n: nat)
    decreases n
  {
    if n == 0 then c == d else c != 0x01 && Leads6(Clock6(c), d, n - 1)
  }

  predicate Leads10(c: bv16, d: bv16, n: nat)
    decreases n
  {
    if n == 0 then c == d else c != 0x001 && Leads10(Clock10(c), d, n - 1)
  }

  lemma Leads6From1()
    ensures Leads6(0x02, 0x01, 30)
  {
    assert Leads6(0x19, 0x01, 6);
    assert Leads6(0x13, 0x01, 14);
    assert Leads6(0x1a, 0x01, 22);
  }

  lemma Leads10From449()
    ensures Leads10(0x0fe, 0x001, 62)
  {
    assert Leads10(0x08c, 0x001, 6);
    assert Leads10(0x28d, 0x001, 14);
    assert Leads10(0x2ac, 0x001, 22);
    assert Leads10(0x0dc, 0x001, 30);
    assert Leads10(0x228, 0x001, 38);
    assert Leads10(0x349, 0x001, 46);
    assert Leads10(0x3ad, 0x001, 54);
  }

  lemma Leads10From385()
    ensures Leads10(0x1ff, 0x001, 126)
  {
    Leads10From449();
    assert Leads10(0x03d, 0x001, 70);
    assert Leads10(0x1d4, 0x001, 78);
    assert Leads10(0x331, 0x001, 86);
    assert Leads10(0x043, 0x001, 94);
    assert Leads10(0x2f0, 0x001, 102);
    assert Leads10(0x1ed, 0x001, 110);
    assert Leads10(0x269, 0x001, 118);
  }

  lemma Leads10From321()
    ensures Leads10(0x0a7, 0x001, 190)
  {
    Leads10From385();
    assert Leads10(0x01f, 0x001, 134);
    assert Leads10(0x3c1, 0x001, 142);
    assert Leads10(0x1ac, 0x001, 150);
    assert Leads10(0x0df, 0x001, 158);
    assert Leads10(0x24d, 0x001, 166);
    assert Leads10(0x320, 0x001, 174);
    assert Leads10(0x250, 0x001, 182);
  }

  lemma Leads10From257()
    ensures Leads10(0x35b, 0x001, 254)
  {
    Leads10From321();
    assert Leads10(0x1a3, 0x001, 198);
    assert Leads10(0x12e, 0x001, 206);
    assert Leads10(0x380, 0x001, 214);
    assert Leads10(0x31a, 0x001, 222);
    assert Leads10(0x36d, 0x001, 230);
    assert Leads10(0x172, 0x001, 238);
    assert Leads10(0x2b1, 0x001, 246);
  }

  lemma Leads10From193()
    ensures Leads10(0x26a, 0x001, 318)
  {
    Leads10From257();
    assert Leads10(0x1db, 0x001, 262);
    assert Leads10(0x2c0, 0x001, 270);
    assert Leads10(0x18e, 0x001, 278);
    assert Leads10(0x2ca, 0x001, 286);
    assert Leads10(0x0d0, 0x001, 294);
    assert Leads10(0x3bc, 0x001, 302);
    assert Leads10(0x2ed, 0x001, 310);
  }

  lemma Leads10From129()
    ensures Leads10(0x109, 0x001, 382)
  {
    Leads10From193();
    assert Leads10(0x19a, 0x001, 326);
    assert Leads10(0x076, 0x001, 334);
    assert Leads10(0x23c, 0x001, 342);
    assert Leads10(0x1f5, 0x001, 350);
    assert Leads10(0x141, 0x001, 358);
    assert Leads10(0x2b7, 0x001, 366);
    assert Leads10(0x391, 0x001, 374);
  }

  lemma Leads10From65()
    ensures Leads10(0x0a4, 0x001, 446)
  {
    Leads10From129();
    assert Leads10(0x13a, 0x001, 390);
    assert Leads10(0x13c, 0x001, 398);
    assert Leads10(0x1f6, 0x001, 406);
    assert Leads10(0x124, 0x001, 414);
    assert Leads10(0x2de, 0x001, 422);
    assert Leads10(0x26c, 0x001, 430);
    assert Leads10(0x150, 0x001, 438);
  }

  lemma Leads10From1()
    ensures Leads10(0x002, 0x001, 510)
  {
    Leads10From65();
    assert Leads10(0x1c6, 0x001, 454);
    assert Leads10(0x147, 0x001, 462);
    assert Leads10(0x27d, 0x001, 470);
    assert Leads10(0x343, 0x001, 478);
    assert Leads10(0x2f3, 0x001, 486);
    assert Leads10(0x188, 0x001, 494);
    assert Leads10(0x200, 0x001, 502);
  }

  // ----- from the machine words to the division registers

  lemma Clock24IsStep(c: bv32)
    requires c < 0x100_0000
    ensures LlcFcs.Clock(c) < 0x100_0000
    ensures LlcFcs.Register24(LlcFcs.Clock(c)) == Step(LlcFcs.G24, LlcFcs.Register24(c), false)
  {
    hide LlcFcs.Clock, LlcFcs.Register24, Step;
    LlcFcs.ClockIsStep(c, false);
    LlcFcs.Cancel(c, 0);
    assert LlcFcs.Bit(false) == 0;
  }

  lemma Clock6IsStep(c: bv8)
    requires c < 0x40
    ensures Clock6(c) < 0x40
    ensures IuUp.Register6(Clock6(c)) == Step(IuUp.G6, IuUp.Register6(c), false)
  {
    IuUp.Iterate6IsStep(c, false);
    IuUp.Iterate6Form(c, false);
    hide IuUp.Register6, Step;
    assert IuUp.Iterate8(IuUp.HEADER_CODE, c, IuUp.Ubit(false)) == Clock6(c);
  }

  lemma Clock10IsStep(c: bv16)
    requires c < 0x400
    ensures Clock10(c) < 0x400
    ensures IuUp.Register10(Clock10(c)) == Step(IuUp.G10, IuUp.Register10(c), false)
  {
    IuUp.Iterate10IsStep(c, false);
    IuUp.Iterate10Form(c, false);
    hide IuUp.Register10, Step;
    assert IuUp.Iterate16(IuUp.DATA_CODE, c, IuUp.Ubit(false) as bv16) == Clock10(c);
  }

  lemma Sizes()
    ensures |LlcFcs.G24| == 24 && LlcFcs.G24[23]
    ensures |IuUp.G6| == 6 && IuUp.G6[5] && |IuUp.G10| == 10 && IuUp.G10[9]
  {
    LlcFcs.GeneratorEnds();
    IuUp.Generators();
  }

  lemma Clear24(d: bv32)
    requires d < 0x100_0000
    requires !LlcFcs.Test(d, 0x1) && !LlcFcs.Test(d, 0x2) && !LlcFcs.Test(d, 0x4) && !LlcFcs.Test(d, 0x8)
    requires !LlcFcs.Test(d, 0x10) && !LlcFcs.Test(d, 0x20) && !LlcFcs.Test(d, 0x40) && !LlcFcs.Test(d, 0x80)
    requires !LlcFcs.Test(d, 0x100) && !LlcFcs.Test(d, 0x200) && !LlcFcs.Test(d, 0x400) && !LlcFcs.Test(d, 0x800)
    requires !LlcFcs.Test(d, 0x1000) && !LlcFcs.Test(d, 0x2000) && !LlcFcs.Test(d, 0x4000)
    requires !LlcFcs.Test(d, 0x8000) && !LlcFcs.Test(d, 0x10000) && !LlcFcs.Test(d, 0x20000)
    requires !LlcFcs.Test(d, 0x40000) && !LlcFcs.Test(d, 0x80000) && !LlcFcs.Test(d, 0x100000)
    requires !LlcFcs.Test(d, 0x200000) && !LlcFcs.Test(d, 0x400000) && !LlcFcs.Test(d, 0x800000)
    ensures d == 0
  {
  }

  lemma AllClear(d: bv32)
    requires d < 0x100_0000 && forall k | 0 <= k < 24 :: !LlcFcs.Test(d, LlcFcs.Mask24(k))
    ensures d == 0
  {
    hide LlcFcs.Test;
    assert LlcFcs.Mask24(0) == 0x1 && LlcFcs.Mask24(1) == 0x2 && LlcFcs.Mask24(2) == 0x4 && LlcFcs.Mask24(3) == 0x8;
    assert LlcFcs.Mask24(4) == 0x10 && LlcFcs.Mask24(5) == 0x20 && LlcFcs.Mask24(6) == 0x40;
    assert LlcFcs.Mask24(7) == 0x80 && LlcFcs.Mask24(8) == 0x100 && LlcFcs.Mask24(9) == 0x200;
    assert LlcFcs.Mask24(10) == 0x400 && LlcFcs.Mask24(11) == 0x800 && LlcFcs.Mask24(12) == 0x1000;
    assert LlcFcs.Mask24(13) == 0x2000 && LlcFcs.Mask24(14) == 0x4000 && LlcFcs.Mask24(15) == 0x8000;
    assert LlcFcs.Mask24(16) == 0x10000 && LlcFcs.Mask24(17) == 0x20000 && LlcFcs.Mask24(18) == 0x40000;
    assert LlcFcs.Mask24(19) == 0x80000 && LlcFcs.Mask24(20) == 0x100000 && LlcFcs.Mask24(21) == 0x200000;
    assert LlcFcs.Mask24(22) == 0x400000 && LlcFcs.Mask24(23) == 0x800000;
    Clear24(d);
  }

  lemma Register24Injective(a: bv32, b: bv32)
    requires a < 0x100_0000 && b < 0x100_0000 && LlcFcs.Register24(a) == LlcFcs.Register24(b)
    ensures a == b
  {
    hide LlcFcs.Test, LlcFcs.Mask24, LlcFcs.Xor32;
    var d := LlcFcs.Xor32(a, b);
    forall k | 0 <= k < 24
      ensures !LlcFcs.Test(d, LlcFcs.Mask24(k))
    {
      LlcFcs.TestXor(a, b, k);
      assert LlcFcs.Register24(a)[k] == LlcFcs.Register24(b)[k];
    }
    LlcFcs.XorBound(a, b);
    AllClear(d);
    LlcFcs.Cancel(a, b);
    LlcFcs.Cancel(b, 0);
  }

  lemma Register6Injective(a: bv8, b: bv8)
    requires a < 0x40 && b < 0x40 && IuUp.Register6(a) == IuUp.Register6(b)
    ensures a == b
  {
    forall k | 0 <= k < 6
      ensures IuUp.Test8(a, IuUp.Mask6(k)) == IuUp.Test8(b, IuUp.Mask6(k))
    {
      assert IuUp.Register6(a)[k] == IuUp.Register6(b)[k];
    }
    hide IuUp.Register6;
    assert IuUp.Test8(a, 0x20) == IuUp.Test8(b, 0x20) by { assert IuUp.Mask6(0) == 0x20; }
    assert IuUp.Test8(a, 0x10) == IuUp.Test8(b, 0x10) by { assert IuUp.Mask6(1) == 0x10; }
    assert IuUp.Test8(a, 0x08) == IuUp.Test8(b, 0x08) by { assert IuUp.Mask6(2) == 0x08; }
    assert IuUp.Test8(a, 0x04) == IuUp.Test8(b, 0x04) by { assert IuUp.Mask6(3) == 0x04; }
    assert IuUp.Test8(a, 0x02) == IuUp.Test8(b, 0x02) by { assert IuUp.Mask6(4) == 0x02; }
    assert IuUp.Test8(a, 0x01) == IuUp.Test8(b, 0x01) by { assert IuUp.Mask6(5) == 0x01; }
  }

  lemma Clear10(d: bv16)
    requires d < 0x400
    requires !IuUp.Test16(d, 0x200) && !IuUp.Test16(d, 0x100) && !IuUp.Test16(d, 0x80) && !IuUp.Test16(d, 0x40)
    requires !IuUp.Test16(d, 0x20) && !IuUp.Test16(d, 0x10) && !IuUp.Test16(d, 0x08) && !IuUp.Test16(d, 0x04)
    requires !IuUp.Test16(d, 0x02) && !IuUp.Test16(d, 0x01)
    ensures d == 0
  {
  }

  function And16(a: bv16, m: bv16): bv16 { a & m }

  lemma RawAndXor16(a: bv16, b: bv16, m: bv16)
    ensures And16(a ^ b, m) == And16(a, m) ^ And16(b, m)
  {
  }

  lemma OneBit16(a: bv16, k: nat)
    requires k < 10
    ensures And16(a, IuUp.Mask10(k)) == 0 || And16(a, IuUp.Mask10(k)) == IuUp.Mask10(k)
  {
  }

  lemma XorTest16(a: bv16, b: bv16, k: nat)
    requires k < 10 && IuUp.Test16(a, IuUp.Mask10(k)) == IuUp.Test16(b, IuUp.Mask10(k))
    ensures !IuUp.Test16(IuUp.Xor16(a, b), IuUp.Mask10(k))
  {
    hide *;
    var m := IuUp.Mask10(k);
    OneBit16(a, k);
    OneBit16(b, k);
    AndXor16(a, b, m);
    TestForm16(a, m);
    TestForm16(b, m);
    TestForm16(IuUp.Xor16(a, b), m);
  }

  lemma AndXor16(a: bv16, b: bv16, m: bv16)
    ensures And16(a, m) == And16(b, m) ==> And16(IuUp.Xor16(a, b), m) == 0
  {
    RawAndXor16(a, b, m);
  }

  lemma TestForm16(c: bv16, m: bv16)
    ensures IuUp.Test16(c, m) <==> And16(c, m) != 0
  {
  }

  lemma Xor16Zero(a: bv16, b: bv16)
    ensures IuUp.Xor16(a, b) == 0 ==> a == b
    ensures a < 0x400 && b < 0x400 ==> IuUp.Xor16(a, b) < 0x400
  {
  }

  lemma Register10Injective(a: bv16, b: bv16)
    requires a < 0x400 && b < 0x400 && IuUp.Register10(a) == IuUp.Register10(b)
    ensures a == b
  {
    hide IuUp.Test16, IuUp.Xor16;
    var d := IuUp.Xor16(a, b);
    assert IuUp.Mask10(0) == 0x200 && IuUp.Mask10(1) == 0x100 && IuUp.Mask10(2) == 0x80 && IuUp.Mask10(3) == 0x40;
    assert IuUp.Mask10(4) == 0x20 && IuUp.Mask10(5) == 0x10 && IuUp.Mask10(6) == 0x08 && IuUp.Mask10(7) == 0x04;
    assert IuUp.Mask10(8) == 0x02 && IuUp.Mask10(9) == 0x01;
    forall k | 0 <= k < 10
      ensures !IuUp.Test16(d, IuUp.Mask10(k))
    {
      assert IuUp.Register10(a)[k] == IuUp.Register10(b)[k];
      XorTest16(a, b, k);
    }
    Xor16Zero(a, b);
    Clear10(d);
  }

  lemma Ones()
    ensures LlcFcs.Register24(0x800000) == One(LlcFcs.G24)
    ensures IuUp.Register6(0x01) == One(IuUp.G6)
    ensures IuUp.Register10(0x001) == One(IuUp.G10)
  {
    Sizes();
    assert forall k | 0 <= k < 23 :: LlcFcs.Mask24(k) & 0x800000 == 0;
    assert forall k | 0 <= k < 24 :: LlcFcs.Register24(0x800000)[k] == (k == 23);
  }

  // ----- the orders

  lemma {:induction false} Leads24IsLeads(c: bv32, n: nat)
    requires c < 0x100_0000 && Leads24(c, 0x800000, n)
    ensures |LlcFcs.G24| == 24
    ensures Leads(LlcFcs.G24, LlcFcs.Register24(c), One(LlcFcs.G24), n)
    decreases n
  {
    hide LlcFcs.Clock, LlcFcs.Register24, LlcFcs.G24, Step, One;
    Sizes();
    Ones();
    if n > 0 {
      Clock24IsStep(c);
      Leads24IsLeads(LlcFcs.Clock(c), n - 1);
      if LlcFcs.Register24(c) == LlcFcs.Register24(0x800000) {
        Register24Injective(c, 0x800000);
      }
    }
  }

  lemma {:induction false} Leads6IsLeads(c: bv8, n: nat)
    requires c < 0x40 && Leads6(c, 0x01, n)
    ensures |IuUp.G6| == 6
    ensures Leads(IuUp.G6, IuUp.Register6(c), One(IuUp.G6), n)
    decreases n
  {
    hide Clock6, IuUp.Register6, IuUp.G6, Step, One;
    Sizes();
    Ones();
    if n > 0 {
      Clock6IsStep(c);
      Leads6IsLeads(Clock6(c), n - 1);
      if IuUp.Register6(c) == IuUp.Register6(0x01) {
        Register6Injective(c, 0x01);
      }
    }
  }

  lemma {:induction false} Leads10IsLeads(c: bv16, n: nat)
    requires c < 0x400 && Leads10(c, 0x001, n)
    ensures |IuUp.G10| == 10
    ensures Leads(IuUp.G10, IuUp.Register10(c), One(IuUp.G10), n)
    decreases n
  {
    hide Clock10, IuUp.Register10, IuUp.G10, Step, One;
    Sizes();
    Ones();
    if n > 0 {
      Clock10IsStep(c);
      Leads10IsLeads(Clock10(c), n - 1);
      if IuUp.Register10(c) == IuUp.Register10(0x001) {
        Register10Injective(c, 0x001);
      }
    }
  }

  /** The orders of x modulo the three generators. */
  lemma Orders()
    ensures |LlcFcs.G24| == 24 && IsOrder(LlcFcs.G24, 255)
    ensures |IuUp.G6| == 6 && IsOrder(IuUp.G6, 31)
    ensures |IuUp.G10| == 10 && IsOrder(IuUp.G10, 511)
  {
    FirstClocks();
    hide *;
    Sizes();
    Ones();
    Leads24From1();
    Leads24IsLeads(0x400000, 254);
    Clock24IsStep(0x800000);
    FirstReturn(LlcFcs.G24, 254);
    Leads6From1();
    Leads6IsLeads(0x02, 30);
    Clock6IsStep(0x01);
    FirstReturn(IuUp.G6, 30);
    Leads10From1();
    Leads10IsLeads(0x002, 510);
    Clock10IsStep(0x001);
    FirstReturn(IuUp.G10, 510);
  }

  lemma FirstClocks()
    ensures LlcFcs.Clock(0x800000) == 0x400000 && Clock6(0x01) == 0x02 && Clock10(0x001) == 0x002
  {
  }

  // ----- what two flipped bits do

  /** Two messages that differ in the bits i and j, counted from the lowest of each octet on, have the same frame check
      sequence exactly if the distance between the bits is a multiple of 255. */
  lemma FcsMissesExactly(m: seq<bv8>, m': seq<bv8>, i: nat, j: nat)
    requires |m| == |m'| && i < j < 8 * |m|
    requires LlcFcs.Unpack(m') == Xor(LlcFcs.Unpack(m), TwoFlips(8 * |m|, i, j))
    ensures LlcFcs.Fcs(m') == LlcFcs.Fcs(m) <==> (j - i) % 255 == 0
  {
    var reg := LlcFcs.Register24(LlcFcs.INIT_CRC24);
    Orders();
    Sizes();
    TwoFlipsExactly(LlcFcs.G24, 255, reg, LlcFcs.Unpack(m), i, j);
    assert Undetected(LlcFcs.G24, reg, LlcFcs.Unpack(m), i, j)
      <==> Feed(LlcFcs.G24, reg, LlcFcs.Unpack(m')) == Feed(LlcFcs.G24, reg, LlcFcs.Unpack(m));
    hide *;
    FcsIsRegister(m, m');
  }

  lemma FcsIsRegister(m: seq<bv8>, m': seq<bv8>)
    ensures |LlcFcs.G24| == 24
    ensures
      var reg := LlcFcs.Register24(LlcFcs.INIT_CRC24);
      LlcFcs.Fcs(m') == LlcFcs.Fcs(m)
      <==> Feed(LlcFcs.G24, reg, LlcFcs.Unpack(m')) == Feed(LlcFcs.G24, reg, LlcFcs.Unpack(m))
  {
    hide *;
    var c, c' := LlcFcs.Crc24(LlcFcs.INIT_CRC24, m), LlcFcs.Crc24(LlcFcs.INIT_CRC24, m');
    Sizes();
    LlcFcs.InitBound();
    LlcFcs.TableRefinesSerial(LlcFcs.INIT_CRC24, m);
    LlcFcs.TableRefinesSerial(LlcFcs.INIT_CRC24, m');
    LlcFcs.FcsPack(m);
    LlcFcs.FcsPack(m');
    LlcFcs.Cancel(c, 0xff_ffff);
    LlcFcs.Cancel(c', 0xff_ffff);
    FcsOfCrc(m);
    FcsOfCrc(m');
    if LlcFcs.Register24(c) == LlcFcs.Register24(c') {
      Register24Injective(c, c');
    }
  }

  function Octets24(n: bv32): seq<bv8> {
    [LlcFcs.Low8(n), LlcFcs.Low8(LlcFcs.Shr8(n)), LlcFcs.Low8(LlcFcs.Shr8(LlcFcs.Shr8(n)))]
  }

  lemma FcsOfCrc(m: seq<bv8>)
    ensures LlcFcs.Fcs(m) == Octets24(LlcFcs.Invert(LlcFcs.Crc24(LlcFcs.INIT_CRC24, m)))
  {
    hide LlcFcs.Crc24, LlcFcs.Invert, LlcFcs.Low8, LlcFcs.Shr8;
  }

  /** The same for CRC-6 with 31, the bits counted from the highest of each octet on. */
  lemma Crc6MissesExactly(m: seq<bv8>, m': seq<bv8>, i: nat, j: nat)
    requires |m| == |m'| && i < j < 8 * |m|
    requires IuUp.Unpack(m') == Xor(IuUp.Unpack(m), TwoFlips(8 * |m|, i, j))
    ensures IuUp.Crc6(m') == IuUp.Crc6(m) <==> (j - i) % 31 == 0
  {
    Orders();
    Sizes();
    TwoFlipsExactly(IuUp.G6, 31, Zeros(6), IuUp.Unpack(m), i, j);
    assert Undetected(IuUp.G6, Zeros(6), IuUp.Unpack(m), i, j)
      <==> Feed(IuUp.G6, Zeros(6), IuUp.Unpack(m')) == Feed(IuUp.G6, Zeros(6), IuUp.Unpack(m));
    hide *;
    Crc6IsRegister(m, m');
  }

  lemma Crc6IsRegister(m: seq<bv8>, m': seq<bv8>)
    ensures |IuUp.G6| == 6
    ensures IuUp.Crc6(m') == IuUp.Crc6(m)
            <==> Feed(IuUp.G6, Zeros(6), IuUp.Unpack(m')) == Feed(IuUp.G6, Zeros(6), IuUp.Unpack(m))
  {
    hide *;
    Sizes();
    IuUp.CrcBounds(m, m);
    IuUp.CrcBounds(m', m');
    if IuUp.Register6(IuUp.Crc6(m)) == IuUp.Register6(IuUp.Crc6(m')) {
      Register6Injective(IuUp.Crc6(m), IuUp.Crc6(m'));
    }
  }

  /** And for CRC-10 with 511. */
  lemma Crc10MissesExactly(m: seq<bv8>, m': seq<bv8>, i: nat, j: nat)
    requires |m| == |m'| && i < j < 8 * |m|
    requires IuUp.Unpack(m') == Xor(IuUp.Unpack(m), TwoFlips(8 * |m|, i, j))
    ensures IuUp.Crc10(m') == IuUp.Crc10(m) <==> (j - i) % 511 == 0
  {
    Orders();
    Sizes();
    TwoFlipsExactly(IuUp.G10, 511, Zeros(10), IuUp.Unpack(m), i, j);
    assert Undetected(IuUp.G10, Zeros(10), IuUp.Unpack(m), i, j)
      <==> Feed(IuUp.G10, Zeros(10), IuUp.Unpack(m')) == Feed(IuUp.G10, Zeros(10), IuUp.Unpack(m));
    hide *;
    Crc10IsRegister(m, m');
  }

  lemma Crc10IsRegister(m: seq<bv8>, m': seq<bv8>)
    ensures |IuUp.G10| == 10
    ensures IuUp.Crc10(m') == IuUp.Crc10(m)
            <==> Feed(IuUp.G10, Zeros(10), IuUp.Unpack(m')) == Feed(IuUp.G10, Zeros(10), IuUp.Unpack(m))
  {
    hide *;
    Sizes();
    IuUp.CrcBounds(m, m);
    IuUp.CrcBounds(m', m');
    if IuUp.Register10(IuUp.Crc10(m)) == IuUp.Register10(IuUp.Crc10(m')) {
      Register10Injective(IuUp.Crc10(m), IuUp.Crc10(m'));
    }
  }

  /** So a header, of two octets, never hides two flipped bits, and neither does a payload of up to 63 octets. */
  lemma ShortFramesProtected(m: seq<bv8>, m': seq<bv8>, i: nat, j: nat)
    requires |m| == |m'| && i < j < 8 * |m|
    requires IuUp.Unpack(m') == Xor(IuUp.Unpack(m), TwoFlips(8 * |m|, i, j))
    ensures |m| == 2 ==> IuUp.Crc6(m') != IuUp.Crc6(m)
    ensures |m| <= 63 ==> IuUp.Crc10(m') != IuUp.Crc10(m)
  {
    hide *;
    Crc6MissesExactly(m, m', i, j);
    Crc10MissesExactly(m, m', i, j);
  }

  /** Nor does a message of less than 32 octets for the frame check sequence. */
  lemma ShortMessagesProtected(m: seq<bv8>, m': seq<bv8>, i: nat, j: nat)
    requires |m| == |m'| < 32 && i < j < 8 * |m|
    requires LlcFcs.Unpack(m') == Xor(LlcFcs.Unpack(m), TwoFlips(8 * |m|, i, j))
    ensures LlcFcs.Fcs(m') != LlcFcs.Fcs(m)
  {
    hide *;
    FcsMissesExactly(m, m', i, j);
  }

  /** In 32 octets, the first and the last bit are 255 places apart. */
  lemma FcsMissesTwoBits()
    ensures LlcFcs.Fcs([0x01] + Silence(30) + [0x80]) == LlcFcs.Fcs(Silence(32))
  {
    hide *;
    var m, m' := Silence(32), [0x01] + Silence(30) + [0x80];
    SilentBits(32);
    SilentBits(30);
    LlcFcs.UnpackAppend([0x01] + Silence(30), [0x80]);
    LlcFcs.UnpackAppend([0x01], Silence(30));
    EndBits();
    FlippedEnds();
    FcsMissesExactly(m, m', 0, 255);
  }

  lemma {:induction false} SilentBits(n: nat)
    ensures LlcFcs.Unpack(Silence(n)) == Zeros(8 * n)
  {
    hide LlcFcs.BitsLsb, LlcFcs.Wide;
    if n > 0 {
      SilentBits(n - 1);
      assert Silence(n)[1..] == Silence(n - 1);
      SilentOctet();
    }
  }

  lemma SilentOctet()
    ensures LlcFcs.BitsLsb(LlcFcs.Wide(0), 8) == Zeros(8)
  {
    assert LlcFcs.Shr1(0) == 0 && !LlcFcs.Odd(0);
    assert LlcFcs.BitsLsb(0, 4) == [false, false, false, false];
  }

  lemma EndBits()
    ensures LlcFcs.Unpack([0x01]) == [true] + Zeros(7)
    ensures LlcFcs.Unpack([0x80]) == Zeros(7) + [true]
  {
    assert LlcFcs.Shr1(0) == 0 && LlcFcs.Shr1(1) == 0;
    assert LlcFcs.BitsLsb(0, 4) == [false, false, false, false];
    assert LlcFcs.BitsLsb(0, 7) == Zeros(7);
    assert LlcFcs.BitsLsb(0x08, 4) == [false, false, false, true];
    assert LlcFcs.BitsLsb(0x10, 5) == [false] + LlcFcs.BitsLsb(0x08, 4);
    assert LlcFcs.BitsLsb(0x20, 6) == [false] + LlcFcs.BitsLsb(0x10, 5);
    assert LlcFcs.BitsLsb(0x40, 7) == [false] + LlcFcs.BitsLsb(0x20, 6);
    assert LlcFcs.BitsLsb(0x80, 8) == [false] + LlcFcs.BitsLsb(0x40, 7);
    assert [0x01 as bv8][1..] == [] && [0x80 as bv8][1..] == [];
  }

  lemma FlippedEnds()
    ensures ([true] + Zeros(7)) + Zeros(240) + (Zeros(7) + [true]) == Xor(Zeros(256), TwoFlips(256, 0, 255))
  {
  }
}
