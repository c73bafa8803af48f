/** The check sequences of LLC and IuUP frames as their standards define them (3GPP TS 44.064, section 5.5; TS 25.415,
    section 6.6.3.8): remainders of divisions by polynomials that are written out here, bit by bit in the frames. */
module FrameChecks {
  import opened Options
  import opened CrcTheory
  import LlcFcs
  import IuUp
  import CrcDoubleErrors
  import MsbBits

  // ----- octets as bits

  predicate Has(o: bv8, m: bv8) { o & m != 0 }

  /** The lowest bit of an octet first; the highest bit first. */
  predicate LowFirst(o: bv8, u: Bits) {
    && |u| == 8
    && u[0] == Has(o, 0x01) && u[1] == Has(o, 0x02) && u[2] == Has(o, 0x04) && u[3] == Has(o, 0x08)
    && u[4] == Has(o, 0x10) && u[5] == Has(o, 0x20) && u[6] == Has(o, 0x40) && u[7] == Has(o, 0x80)
  }

  predicate HighFirst(o: bv8, u: Bits) {
    && |u| == 8
    && u[0] == Has(o, 0x80) && u[1] == Has(o, 0x40) && u[2] == Has(o, 0x20) && u[3] == Has(o, 0x10)
    && u[4] == Has(o, 0x08) && u[5] == Has(o, 0x04) && u[6] == Has(o, 0x02) && u[7] == Has(o, 0x01)
  }

  predicate AllLowFirst(m: seq<bv8>, u: Bits) {
    |u| == 8 * |m| && forall i | 0 <= i < |m| :: LowFirst(m[i], u[8 * i..8 * i + 8])
  }

  predicate AllHighFirst(m: seq<bv8>, u: Bits) {
    |u| == 8 * |m| && forall i | 0 <= i < |m| :: HighFirst(m[i], u[8 * i..8 * i + 8])
  }

  // ----- LLC

  /** x^24 + x^23 + x^21 + x^20 + x^19 + x^17 + x^16 + x^15 + x^13 + x^8 + x^7 + x^5 + x^4 + x^2 + 1. */
  predicate IsLlcGenerator(g: Bits) {
    |g| == 24 && forall k | 0 <= k < 24 :: g[k] == (23 - k in {23, 21, 20, 19, 17, 16, 15, 13, 8, 7, 5, 4, 2, 0})
  }

  function Inverted(u: Bits): (r: Bits)
    ensures |r| == |u|
  {
    seq(|u|, k requires 0 <= k < |u| => !u[k])
  }

  /** The message with 24 zeros behind it, and the first 24 bits inverted. */
  predicate IsLlcDividend(u: Bits, d: Bits) {
    && |d| == |u| + 24
    && forall k | 0 <= k < |d| :: d[k] == if k < 24 then !(k < |u| && u[k]) else k < |u| && u[k]
  }

  lemma {:induction false} LowUnpacked(m: seq<bv8>, u: Bits)
    requires AllLowFirst(m, u)
    ensures LlcFcs.Unpack(m) == u
    decreases |m|
  {
    hide LowFirst, LlcFcs.Wide, LlcFcs.BitsLsb;
    if m != [] {
      LowOctet(m[0], u[..8]);
      forall i | 0 <= i < |m| - 1
        ensures LowFirst(m[1..][i], u[8..][8 * i..8 * i + 8])
      {
        assert u[8..][8 * i..8 * i + 8] == u[8 * (i + 1)..8 * (i + 1) + 8];
      }
      LowUnpacked(m[1..], u[8..]);
      assert u[8 * 0..8 * 0 + 8] == u[..8];
    }
  }

  lemma LowOctet(o: bv8, u: Bits)
    requires LowFirst(o, u)
    ensures LlcFcs.BitsLsb(LlcFcs.Wide(o), 8) == u
  {
    hide LlcFcs.Wide, LlcFcs.Shr1, LlcFcs.Odd, Has, LlcFcs.BitsLsb;
    OddParts(o);
    var v := LlcFcs.Wide(o);
    var v2 := LlcFcs.Shr1(LlcFcs.Shr1(v));
    var v4 := LlcFcs.Shr1(LlcFcs.Shr1(v2));
    var v6 := LlcFcs.Shr1(LlcFcs.Shr1(v4));
    NoBits(LlcFcs.Shr1(LlcFcs.Shr1(v6)));
    TwoBits(v6, 0, u, 6);
    TwoBits(v4, 2, u, 4);
    TwoBits(v2, 4, u, 2);
    TwoBits(v, 6, u, 0);
  }

  lemma NoBits(v: bv32)
    ensures LlcFcs.BitsLsb(v, 0) == []
  {
  }

  lemma TwoBits(v: bv32, n: nat, u: Bits, i: nat)
    requires |u| == i + n + 2 && u[i] == LlcFcs.Odd(v) && u[i + 1] == LlcFcs.Odd(LlcFcs.Shr1(v))
    requires LlcFcs.BitsLsb(LlcFcs.Shr1(LlcFcs.Shr1(v)), n) == u[i + 2..]
    ensures LlcFcs.BitsLsb(v, n + 2) == u[i..]
  {
    hide LlcFcs.Shr1, LlcFcs.Odd, LlcFcs.BitsLsb;
    OneBit(LlcFcs.Shr1(v), n);
    OneBit(v, n + 1);
  }

  lemma OneBit(v: bv32, n: nat)
    ensures LlcFcs.BitsLsb(v, n + 1) == [LlcFcs.Odd(v)] + LlcFcs.BitsLsb(LlcFcs.Shr1(v), n)
  {
  }

  lemma OddParts(o: bv8)
    ensures
      var v := LlcFcs.Wide(o);
      var v4 := LlcFcs.Shr1(LlcFcs.Shr1(LlcFcs.Shr1(LlcFcs.Shr1(v))));
      && LlcFcs.Odd(v) == Has(o, 0x01) && LlcFcs.Odd(LlcFcs.Shr1(v)) == Has(o, 0x02)
      && LlcFcs.Odd(LlcFcs.Shr1(LlcFcs.Shr1(v))) == Has(o, 0x04)
      && LlcFcs.Odd(LlcFcs.Shr1(LlcFcs.Shr1(LlcFcs.Shr1(v)))) == Has(o, 0x08)
      && LlcFcs.Odd(v4) == Has(o, 0x10) && LlcFcs.Odd(LlcFcs.Shr1(v4)) == Has(o, 0x20)
      && LlcFcs.Odd(LlcFcs.Shr1(LlcFcs.Shr1(v4))) == Has(o, 0x40)
      && LlcFcs.Odd(LlcFcs.Shr1(LlcFcs.Shr1(LlcFcs.Shr1(v4)))) == Has(o, 0x80)
  {
  }

  lemma LlcGenerator(g: Bits)
    requires IsLlcGenerator(g)
    ensures g == LlcFcs.G24
  {
    forall k | 0 <= k < 24
      ensures g[k] == LlcFcs.G24[k]
    {
      Coefficient(k);
    }
  }

  lemma Coefficient(k: nat)
    requires k < 24
    ensures LlcFcs.Test(0xad85dd, LlcFcs.Mask24(k)) <==> 23 - k in {23, 21, 20, 19, 17, 16, 15, 13, 8, 7, 5, 4, 2, 0}
  {
  }

  /** The frame check sequence of a message is complemented, lowest bits first, the remainder of the message with 24
      zeros behind and its first 24 bits inverted. */
  lemma FcsStandard(m: seq<bv8>, u: Bits, f: seq<bv8>, v: Bits, g: Bits, d: Bits)
    requires AllLowFirst(m, u) && |f| == 3 && AllLowFirst(f, v) && IsLlcGenerator(g) && IsLlcDividend(u, d)
    ensures f == LlcFcs.Fcs(m) <==> exists q: Bits :: |q| == |u| && Divides(g, d, q, Inverted(v))
  {
    hide AllLowFirst, LlcFcs.Unpack, LlcFcs.Fcs, IsLlcGenerator, LlcFcs.G24, LlcFcs.Crc24, LlcFcs.Register24;
    LowUnpacked(m, u);
    LlcGenerator(g);
    LlcDividend(u, d);
    LlcFcs.TableRefinesSerial(LlcFcs.INIT_CRC24, m);
    InitOnes();
    RegisterIsRemainder(g, LlcFcs.Register24(LlcFcs.INIT_CRC24), u, Inverted(v));
    FcsBits(m, f, v);
  }

  lemma InitOnes()
    ensures LlcFcs.INIT_CRC24 < 0x100_0000
    ensures LlcFcs.Register24(LlcFcs.INIT_CRC24) == seq(24, _ => true)
  {
    forall k | 0 <= k < 24
      ensures LlcFcs.Test(0xff_ffff, LlcFcs.Mask24(k))
    {
      OnesTest(k);
    }
  }

  lemma OnesTest(k: nat)
    requires k < 24
    ensures LlcFcs.Test(0xff_ffff, LlcFcs.Mask24(k))
  {
  }

  lemma LlcDividend(u: Bits, d: Bits)
    requires IsLlcDividend(u, d)
    ensures Dividend(seq(24, _ => true), u) == d
  {
  }

  lemma FcsBits(m: seq<bv8>, f: seq<bv8>, v: Bits)
    requires |f| == 3 && AllLowFirst(f, v)
    ensures f == LlcFcs.Fcs(m) <==> LlcFcs.Register24(LlcFcs.Crc24(LlcFcs.INIT_CRC24, m)) == Inverted(v)
  {
    var crc, fcs := LlcFcs.Crc24(LlcFcs.INIT_CRC24, m), LlcFcs.Fcs(m);
    LlcFcs.FcsPack(m);
    PackBits(f, v);
    InvertedRegister(crc);
    TwiceInverted(LlcFcs.Register24(crc));
    TwiceInverted(v);
    SameRegister(f, fcs);
    hide *;
  }

  lemma TwiceInverted(u: Bits)
    ensures Inverted(Inverted(u)) == u
  {
  }

  lemma SameRegister(f: seq<bv8>, f': seq<bv8>)
    requires |f| == 3 && |f'| == 3
    ensures LlcFcs.Register24(LlcFcs.Pack(f)) == LlcFcs.Register24(LlcFcs.Pack(f')) ==> f == f'
  {
    hide *;
    LlcFcs.PackBounds(f);
    LlcFcs.PackBounds(f');
    if LlcFcs.Register24(LlcFcs.Pack(f)) == LlcFcs.Register24(LlcFcs.Pack(f')) {
      CrcDoubleErrors.Register24Injective(LlcFcs.Pack(f), LlcFcs.Pack(f'));
      assert f == f';
    }
  }

  lemma InvertedRegister(c: bv32)
    ensures LlcFcs.Register24(LlcFcs.Xor32(c, 0xff_ffff)) == Inverted(LlcFcs.Register24(c))
  {
    hide LlcFcs.Test, LlcFcs.Mask24, LlcFcs.Xor32;
    var a, b := LlcFcs.Register24(LlcFcs.Xor32(c, 0xff_ffff)), Inverted(LlcFcs.Register24(c));
    forall k | 0 <= k < 24
      ensures a[k] == b[k]
    {
      LlcFcs.TestXor(c, 0xff_ffff, k);
      OnesTest(k);
    }
  }

  lemma PackBits(f: seq<bv8>, v: Bits)
    requires |f| == 3 && AllLowFirst(f, v)
    ensures LlcFcs.Register24(LlcFcs.Pack(f)) == v
  {
    hide LowFirst, LlcFcs.Test, LlcFcs.Mask24, LlcFcs.Xor32, LlcFcs.Shl8, LlcFcs.Wide;
    assert LowFirst(f[0], v[8 * 0..8 * 0 + 8]) && LowFirst(f[1], v[8 * 1..8 * 1 + 8]);
    assert LowFirst(f[2], v[8 * 2..8 * 2 + 8]);
    var a, b, c := LlcFcs.Wide(f[0]), LlcFcs.Wide(f[1]), LlcFcs.Wide(f[2]);
    var upper := LlcFcs.Xor32(b, LlcFcs.Shl8(c));
    var r := LlcFcs.Register24(LlcFcs.Pack(f));
    forall k | 0 <= k < 24
      ensures r[k] == v[k]
    {
      LlcFcs.TestXor(a, LlcFcs.Shl8(upper), k);
      TestWide(f[0], v[..8], k);
      TestShifted(upper, k);
      if k >= 8 {
        LlcFcs.TestXor(b, LlcFcs.Shl8(c), k - 8);
        TestWide(f[1], v[8..16], k - 8);
        TestShifted(c, k - 8);
        if k >= 16 {
          TestWide(f[2], v[16..24], k - 16);
        }
      }
    }
  }

  lemma TestWide(o: bv8, u: Bits, k: nat)
    requires k < 24 && LowFirst(o, u)
    ensures LlcFcs.Test(LlcFcs.Wide(o), LlcFcs.Mask24(k)) <==> k < 8 && u[k]
  {
    WideMasks(o, k);
    hide LlcFcs.Test, LlcFcs.Wide, LlcFcs.Mask24, Has;
  }

  lemma WideMasks(o: bv8, k: nat)
    requires k < 24
    ensures LlcFcs.Test(LlcFcs.Wide(o), LlcFcs.Mask24(k))
         == if k == 0 then Has(o, 0x01) else if k == 1 then Has(o, 0x02) else if k == 2 then Has(o, 0x04)
            else if k == 3 then Has(o, 0x08) else if k == 4 then Has(o, 0x10) else if k == 5 then Has(o, 0x20)
            else if k == 6 then Has(o, 0x40) else k == 7 && Has(o, 0x80)
  {
  }

  lemma TestShifted(c: bv32, k: nat)
    requires k < 24
    ensures LlcFcs.Test(LlcFcs.Shl8(c), LlcFcs.Mask24(k)) <==> k >= 8 && LlcFcs.Test(c, LlcFcs.Mask24(k - 8))
  {
    if k < 8 {
      assert LlcFcs.Mask24(k) < 0x100;
      BelowShifted(c, LlcFcs.Mask24(k));
    } else {
      assert LlcFcs.Mask24(k - 8) < 0x1_0000 && LlcFcs.Mask24(k) == LlcFcs.Mask24(k - 8) << 8;
      AboveShifted(c, LlcFcs.Mask24(k - 8));
    }
    hide *;
  }

  lemma BelowShifted(c: bv32, m: bv32)
    requires m < 0x100
    ensures !LlcFcs.Test(LlcFcs.Shl8(c), m)
  {
  }

  lemma AboveShifted(c: bv32, m: bv32)
    requires m < 0x1_0000
    ensures LlcFcs.Test(LlcFcs.Shl8(c), m << 8) <==> LlcFcs.Test(c, m)
  {
    assert (c << 8) & (m << 8) == (c & m) << 8;
  }

  // ----- IuUP

  /** x^6 + x^5 + x^3 + x^2 + x + 1; x^10 + x^9 + x^5 + x^4 + x + 1. */
  predicate IsHeaderGenerator(g: Bits) {
    |g| == 6 && forall k | 0 <= k < 6 :: g[k] == (5 - k in {5, 3, 2, 1, 0})
  }

  predicate IsPayloadGenerator(g: Bits) {
    |g| == 10 && forall k | 0 <= k < 10 :: g[k] == (9 - k in {9, 5, 4, 1, 0})
  }

  lemma IuupGenerators(g6: Bits, g10: Bits)
    requires IsHeaderGenerator(g6) && IsPayloadGenerator(g10)
    ensures g6 == IuUp.G6 && g10 == IuUp.G10
  {
  }

  lemma HighOctet(o: bv8, u: Bits)
    requires |u| == 8
    ensures HighFirst(o, u) <==> forall k | 0 <= k < 8 :: MsbBits.OctetBit(o, k) == u[k]
  {
    OctetBits(o);
    hide Has, MsbBits.And8, MsbBits.OctetBit;
  }

  lemma OctetBits(o: bv8)
    ensures MsbBits.OctetBit(o, 0) == Has(o, 0x80) && MsbBits.OctetBit(o, 1) == Has(o, 0x40)
    ensures MsbBits.OctetBit(o, 2) == Has(o, 0x20) && MsbBits.OctetBit(o, 3) == Has(o, 0x10)
    ensures MsbBits.OctetBit(o, 4) == Has(o, 0x08) && MsbBits.OctetBit(o, 5) == Has(o, 0x04)
    ensures MsbBits.OctetBit(o, 6) == Has(o, 0x02) && MsbBits.OctetBit(o, 7) == Has(o, 0x01)
  {
  }

  lemma HighUnpacked(m: seq<bv8>, u: Bits)
    requires AllHighFirst(m, u)
    ensures IuUp.Unpack(m) == u
  {
    hide HighFirst, MsbBits.OctetBit;
    forall i | 0 <= i < |u|
      ensures IuUp.Unpack(m)[i] == u[i]
    {
      var j, k := i / 8, i % 8;
      assert i == 8 * j + k;
      HighOctet(m[j], u[8 * j..8 * j + 8]);
    }
  }

  /** What stands in for the payload checksum: its remainder in frames of type 0 and 14, zeros in those of type 1, and
      ones in any other. */
  function TenBits(first: bv8, r10: Bits): Bits {
    if first < 0x10 || 0xe0 <= first < 0xf0 then r10
    else seq(10, _ => !(0x10 <= first < 0x20))
  }

  /** Octets 2 and 3 of an encoded frame are the remainder of its first two octets, with six zeros behind, and that of
      its payload, with ten; every other octet stays. */
  lemma FrameStandard(raw: seq<bv8>, u: Bits, g6: Bits, q6: Bits, r6: Bits, g10: Bits, q10: Bits, r10: Bits)
    requires |raw| >= 4 && AllHighFirst(raw, u) && IsHeaderGenerator(g6) && IsPayloadGenerator(g10)
    requires Divides(g6, u[..16] + Zeros(6), q6, r6) && Divides(g10, u[32..] + Zeros(10), q10, r10)
    ensures IuUp.Encode(raw).Some?
    ensures
      var out, t := IuUp.Encode(raw).value, TenBits(raw[0], r10);
      && |out| == |raw| && out[..2] == raw[..2] && out[4..] == raw[4..]
      && HighFirst(out[2], r6 + t[..2]) && HighFirst(out[3], t[2..])
  {
    hide *;
    Remainders(raw, u, g6, q6, r6, g10, q10, r10);
    IuUp.CrcBounds(raw[..2], raw[4..]);
    var h, p, t := IuUp.Crc6(raw[..2]), TenOf(raw), TenBits(raw[0], r10);
    TenIs(raw, r10);
    Checksums(raw);
    ChecksumOctets(h, p);
    var out := IuUp.Encode(raw).value;
    assert out[..2] == raw[..2] && out[4..] == raw[4..];
  }

  lemma Remainders(raw: seq<bv8>, u: Bits, g6: Bits, q6: Bits, r6: Bits, g10: Bits, q10: Bits, r10: Bits)
    requires |raw| >= 4 && AllHighFirst(raw, u) && IsHeaderGenerator(g6) && IsPayloadGenerator(g10)
    requires Divides(g6, u[..16] + Zeros(6), q6, r6) && Divides(g10, u[32..] + Zeros(10), q10, r10)
    ensures IuUp.Register6(IuUp.Crc6(raw[..2])) == r6 && IuUp.Register10(IuUp.Crc10(raw[4..])) == r10
  {
    IuupGenerators(g6, g10);
    HighUnpacked(raw, u);
    HeaderAndPayload(raw);
    NoRegister(u[..16], 6);
    NoRegister(u[32..], 10);
    QuotientSize(g6, u[..16] + Zeros(6), q6, r6);
    QuotientSize(g10, u[32..] + Zeros(10), q10, r10);
    hide *;
    IuUp.CrcIsRemainder(raw[..2], r6, r10);
    IuUp.CrcIsRemainder(raw[4..], r6, r10);
  }

  lemma QuotientSize(g: Bits, d: Bits, q: Bits, r: Bits)
    requires Divides(g, d, q, r)
    ensures |q| + |g| == |d|
  {
  }

  lemma TenIs(raw: seq<bv8>, r10: Bits)
    requires |raw| >= 4 && IuUp.Register10(IuUp.Crc10(raw[4..])) == r10
    ensures TenOf(raw) < 0x400 && IuUp.Register10(TenOf(raw)) == TenBits(raw[0], r10)
  {
    hide IuUp.Crc10, IuUp.Crc6, IuUp.Register10, IuUp.Register6;
    IuUp.CrcBounds([], raw[4..]);
    TenRegisters();
  }

  lemma NoRegister(u: Bits, n: nat)
    ensures Dividend(Zeros(n), u) == u + Zeros(n)
  {
  }

  lemma HeaderAndPayload(raw: seq<bv8>)
    requires |raw| >= 4
    ensures IuUp.Unpack(raw[..2]) == IuUp.Unpack(raw)[..16] && IuUp.Unpack(raw[4..]) == IuUp.Unpack(raw)[32..]
  {
    hide MsbBits.OctetBit;
  }

  function TenOf(raw: seq<bv8>): bv16
    requires |raw| >= 4
  {
    if raw[0] < 0x10 || 0xe0 <= raw[0] < 0xf0 then IuUp.Crc10(raw[4..])
    else if 0x10 <= raw[0] < 0x20 then 0 else 0x3ff
  }

  lemma Checksums(raw: seq<bv8>)
    requires |raw| >= 4
    ensures
      var h, p := IuUp.Wide8(IuUp.Crc6(raw[..2])), IuUp.Wide(TenOf(raw));
      IuUp.Encode(raw) == Some(raw[..2] + [IuUp.ChecksumHigh(h, p), IuUp.ChecksumLow(p)] + raw[4..])
  {
    hide IuUp.Crc6, IuUp.Crc10, IuUp.ChecksumHigh, IuUp.ChecksumLow, IuUp.Wide8;
    Types(raw[0]);
    CutOff(IuUp.Wide8(IuUp.Crc6(raw[..2])));
  }

  lemma Types(o: bv8)
    ensures IuUp.PduType(o) == 0 <==> o < 0x10
    ensures IuUp.PduType(o) == 1 <==> 0x10 <= o < 0x20
    ensures IuUp.PduType(o) == 14 <==> 0xe0 <= o < 0xf0
  {
  }

  lemma CutOff(h: bv32)
    ensures IuUp.ChecksumHigh(h, 0xffff_ffff) == IuUp.ChecksumHigh(h, 0x3ff)
    ensures IuUp.ChecksumLow(0xffff_ffff) == IuUp.ChecksumLow(0x3ff)
  {
  }

  lemma TenRegisters()
    ensures IuUp.Register10(0) == seq(10, _ => false) && IuUp.Register10(0x3ff) == seq(10, _ => true)
  {
  }

  lemma ChecksumOctets(c6: bv8, c10: bv16)
    requires c6 < 0x40 && c10 < 0x400
    ensures HighFirst(IuUp.ChecksumHigh(IuUp.Wide8(c6), IuUp.Wide(c10)),
                      IuUp.Register6(c6) + IuUp.Register10(c10)[..2])
    ensures HighFirst(IuUp.ChecksumLow(IuUp.Wide(c10)), IuUp.Register10(c10)[2..])
  {
    var a, b := IuUp.ChecksumHigh(IuUp.Wide8(c6), IuUp.Wide(c10)), IuUp.ChecksumLow(IuUp.Wide(c10));
    hide HighFirst, IuUp.ChecksumHigh, IuUp.ChecksumLow, IuUp.Wide8, IuUp.Wide, IuUp.Test8, IuUp.Test16, IuUp.Mask6,
         IuUp.Mask10, MsbBits.OctetBit;
    HighOctet(a, IuUp.Register6(c6) + IuUp.Register10(c10)[..2]);
    HighOctet(b, IuUp.Register10(c10)[2..]);
    forall k | 0 <= k < 8
      ensures MsbBits.OctetBit(a, k) == (IuUp.Register6(c6) + IuUp.Register10(c10)[..2])[k]
      ensures MsbBits.OctetBit(b, k) == IuUp.Register10(c10)[2..][k]
    {
      if k < 6 {
        IuUp.ChecksumBits6(c6, c10, k);
      } else {
        IuUp.ChecksumBits10(c6, c10, k - 6);
      }
      IuUp.ChecksumBits10(c6, c10, k + 2);
    }
  }
}
