/** The fields of uplink RLC data blocks (3GPP TS 44.060, sections 10.2.2 and 10.3a.4): EGPRS headers, whose numbers are
    split across octets, and length indicators. */
module RlcUplink {
  import opened Numbers
  import opened RlcBits

  // ----- numbers as bits, least significant first

  function Num(n: nat, k: nat): (r: seq<bool>)
    ensures |r| == k
  {
    if k == 0 then [] else [n % 2 == 1] + Num(n / 2, k - 1)
  }

  function Val(b: seq<bool>): nat {
    if b == [] then 0 else (if b[0] then 1 else 0) + 2 * Val(b[1..])
  }

  lemma {:induction false} ValNum(n: nat, k: nat)
    requires n < Pow2(k)
    ensures Val(Num(n, k)) == n
    decreases k
  {
    if k > 0 {
      ValNum(n / 2, k - 1);
      assert Num(n, k)[1..] == Num(n / 2, k - 1);
    }
  }

  /** n >> k. */
  function Drop(n: nat, k: nat): nat { if k == 0 then n else Drop(n / 2, k - 1) }

  /** A field cut in two: the low bits, and the number shifted right by as many. */
  lemma {:induction false} NumSplit(n: nat, low: nat, high: nat)
    ensures Num(n, low) + Num(Drop(n, low), high) == Num(n, low + high)
    decreases low
  {
    if low > 0 {
      NumSplit(n / 2, low - 1, high);
      var a, b := Num(n / 2, low - 1), Num(Drop(n, low), high);
      assert [n % 2 == 1] + (a + b) == [n % 2 == 1] + a + b;
    } else {
      assert [] + Num(n, high) == Num(n, high);
    }
  }

  /** v << k. */
  function Up(v: nat, k: nat): nat { if k == 0 then v else 2 * Up(v, k - 1) }

  lemma {:induction false} ValJoin(a: seq<bool>, b: seq<bool>)
    ensures Val(a + b) == Val(a) + Up(Val(b), |a|)
    decreases |a|
  {
    if a == [] {
      assert a + b == b;
    } else {
      ValJoin(a[1..], b);
      assert (a + b)[1..] == a[1..] + b && (a + b)[0] == a[0];
    }
  }

  function OctetBits(o: bv8): (r: seq<bool>)
    ensures |r| == 8
  {
    seq(8, j requires 0 <= j < 8 => Bit(o, j))
  }

  function OctetOf(b: seq<bool>): bv8
    requires |b| == 8
  {
    Or(Or(Or(Place(b, 0), Place(b, 1)), Or(Place(b, 2), Place(b, 3))),
       Or(Or(Place(b, 4), Place(b, 5)), Or(Place(b, 6), Place(b, 7))))
  }

  function Place(b: seq<bool>, j: nat): bv8
    requires |b| == 8 && j < 8
  {
    if b[j] then Mask(j) else 0
  }

  lemma PlaceBit(b: seq<bool>, i: nat, j: nat)
    requires |b| == 8 && i < 8 && j < 8
    ensures Bit(Place(b, i), j) <==> b[i] && i == j
  {
  }

  lemma OctetBitsOf(b: seq<bool>)
    requires |b| == 8
    ensures OctetBits(OctetOf(b)) == b
  {
    hide Or, Bit, Place;
    forall j | 0 <= j < 8
      ensures Bit(OctetOf(b), j) == b[j]
    {
      var p := seq(8, i requires 0 <= i < 8 => Place(b, i));
      forall i: nat | i < 8
        ensures Bit(p[i], j) <==> b[i] && i == j
      {
        PlaceBit(b, i, j);
      }
      OrBit(p[0], p[1], j);
      OrBit(p[2], p[3], j);
      OrBit(p[4], p[5], j);
      OrBit(p[6], p[7], j);
      OrBit(Or(p[0], p[1]), Or(p[2], p[3]), j);
      OrBit(Or(p[4], p[5]), Or(p[6], p[7]), j);
      OrBit(Or(Or(p[0], p[1]), Or(p[2], p[3])), Or(Or(p[4], p[5]), Or(p[6], p[7])), j);
    }
  }

  // ----- the EGPRS uplink headers

  /** The fields of all three types but for the second block's number. cps counts for its low bits where a type has
      fewer; spb, which only type 3 has, is the two-bit number that the header carries. */
  datatype UlHeader = UlHeader(tfi: nat, countdown: nat, foi_si: bool, r_ri: bool, bsn1: nat, cps: nat, pfi_ind: bool,
                         rsb: bool, spb: nat)

  predicate InRange(h: UlHeader) {
    && h.tfi < Pow2(5) && h.countdown < Pow2(4) && h.bsn1 < Pow2(11) && h.cps < Pow2(4) && h.spb < Pow2(2)
  }

  function EncodeType1(h: UlHeader, bsn2_offset: nat): (r: Octets)
    ensures |r| == 6
  {
    [OctetOf([h.r_ri, h.foi_si] + Num(h.countdown, 4) + Num(h.tfi, 2)),
     OctetOf(Num(Drop(h.tfi, 2), 3) + Num(h.bsn1, 5)),
     OctetOf(Num(Drop(h.bsn1, 5), 6) + Num(bsn2_offset, 2)),
     OctetOf(Num(Drop(bsn2_offset, 2), 8)),
     OctetOf(Num(h.cps, 5) + [h.rsb, h.pfi_ind, false]),
     OctetOf(Clear(8))]
  }

  function EncodeType2(h: UlHeader): (r: Octets)
    ensures |r| == 5
  {
    [OctetOf([h.r_ri, h.foi_si] + Num(h.countdown, 4) + Num(h.tfi, 2)),
     OctetOf(Num(Drop(h.tfi, 2), 3) + Num(h.bsn1, 5)),
     OctetOf(Num(Drop(h.bsn1, 5), 6) + Num(h.cps, 2)),
     OctetOf(Num(Drop(h.cps, 2), 1) + [h.rsb, h.pfi_ind] + Clear(5)),
     OctetOf(Clear(8))]
  }

  function Clear(n: nat): (r: seq<bool>)
    ensures |r| == n
  {
    seq(n, _ => false)
  }

  /** The bit-fields of the source's structs, the numbers split where they cross octets. */
  function EncodeType3(h: UlHeader): (r: Octets)
    ensures |r| == 4
  {
    [OctetOf([h.r_ri, h.foi_si] + Num(h.countdown, 4) + Num(h.tfi, 2)),
     OctetOf(Num(Drop(h.tfi, 2), 3) + Num(h.bsn1, 5)),
     OctetOf(Num(Drop(h.bsn1, 5), 6) + Num(h.cps, 2)),
     OctetOf(Num(Drop(h.cps, 2), 2) + Num(h.spb, 2) + [h.rsb, h.pfi_ind, false, false])]
  }

  function DecodeType3(o: Octets): UlHeader
    requires |o| >= 4
  {
    var a, b, c, d := OctetBits(o[0]), OctetBits(o[1]), OctetBits(o[2]), OctetBits(o[3]);
    UlHeader(Up(Val(b[..3]), 2) + Val(a[6..]), Val(a[2..6]), a[1], a[0], Up(Val(c[..6]), 5) + Val(b[3..]),
          Up(Val(d[..2]), 2) + Val(c[6..]), d[5], d[4], Val(d[2..4]))
  }

  /** What the headers have in common: the fields up to bsn1. */
  function Front(h: UlHeader): (r: seq<bool>)
    ensures |r| == 22
  {
    [h.r_ri, h.foi_si] + Num(h.countdown, 4) + Num(h.tfi, 5) + Num(h.bsn1, 11)
  }

  /** The three octets that hold them, and the first two bits of the next number. */
  function FrontOctets(h: UlHeader, next: nat): (r: Octets)
    ensures |r| == 3
  {
    [OctetOf([h.r_ri, h.foi_si] + Num(h.countdown, 4) + Num(h.tfi, 2)),
     OctetOf(Num(Drop(h.tfi, 2), 3) + Num(h.bsn1, 5)),
     OctetOf(Num(Drop(h.bsn1, 5), 6) + Num(next, 2))]
  }

  lemma FrontIsPacked(h: UlHeader, next: nat)
    ensures BitsOf(FrontOctets(h, next)) == Front(h) + Num(next, 2)
  {
    hide OctetOf, OctetBits, BitsOf, Num, Drop;
    var o := FrontOctets(h, next);
    OctetBitsOf([h.r_ri, h.foi_si] + Num(h.countdown, 4) + Num(h.tfi, 2));
    OctetBitsOf(Num(Drop(h.tfi, 2), 3) + Num(h.bsn1, 5));
    OctetBitsOf(Num(Drop(h.bsn1, 5), 6) + Num(next, 2));
    BitsAppend([o[0]], [o[1]]);
    BitsAppend([o[0], o[1]], [o[2]]);
    BitsOfOne(o[0]);
    BitsOfOne(o[1]);
    BitsOfOne(o[2]);
    assert [o[0]] + [o[1]] == [o[0], o[1]] && [o[0], o[1]] + [o[2]] == o;
    NumSplit(h.tfi, 2, 3);
    NumSplit(h.bsn1, 5, 6);
  }

  lemma Rejoin(front: seq<bool>, low: seq<bool>, high: seq<bool>, tail: seq<bool>)
    ensures front + low + (high + tail) == front + (low + high) + tail
  {
  }

  lemma Type1IsPacked(h: UlHeader, bsn2_offset: nat)
    ensures BitsOf(EncodeType1(h, bsn2_offset))
         == Front(h) + Num(bsn2_offset, 10) + (Num(h.cps, 5) + [h.rsb, h.pfi_ind] + Clear(9))
  {
    hide OctetOf, OctetBits, BitsOf, Num, Drop, Front, FrontOctets;
    var o := EncodeType1(h, bsn2_offset);
    var high, tail := Num(Drop(bsn2_offset, 2), 8), Num(h.cps, 5) + [h.rsb, h.pfi_ind, false];
    FrontIsPacked(h, bsn2_offset);
    OctetBitsOf(high);
    OctetBitsOf(tail);
    OctetBitsOf(Clear(8));
    var o3, o4, o5 := [OctetOf(high)], [OctetOf(tail)], [OctetOf(Clear(8))];
    BitsOfOne(o3[0]);
    BitsOfOne(o4[0]);
    BitsOfOne(o5[0]);
    BitsAppend(o4, o5);
    BitsAppend(o3, o4 + o5);
    BitsAppend(FrontOctets(h, bsn2_offset), o3 + (o4 + o5));
    Encode1Form(h, bsn2_offset);
    Rejoin(Front(h), Num(bsn2_offset, 2), high, tail + Clear(8));
    NumSplit(bsn2_offset, 2, 8);
    assert tail + Clear(8) == Num(h.cps, 5) + [h.rsb, h.pfi_ind] + Clear(9);
  }

  lemma Encode1Form(h: UlHeader, n: nat)
    ensures EncodeType1(h, n)
         == FrontOctets(h, n) + ([OctetOf(Num(Drop(n, 2), 8))]
                                 + ([OctetOf(Num(h.cps, 5) + [h.rsb, h.pfi_ind, false])] + [OctetOf(Clear(8))]))
  {
    hide OctetOf, Num, Drop;
  }

  lemma Type2IsPacked(h: UlHeader)
    ensures BitsOf(EncodeType2(h)) == Front(h) + Num(h.cps, 3) + ([h.rsb, h.pfi_ind] + Clear(13))
  {
    hide OctetOf, OctetBits, BitsOf, Num, Drop, Front, FrontOctets;
    var o := EncodeType2(h);
    var high, tail := Num(Drop(h.cps, 2), 1), [h.rsb, h.pfi_ind] + Clear(5);
    FrontIsPacked(h, h.cps);
    OctetBitsOf(high + tail);
    OctetBitsOf(Clear(8));
    var o3, o4 := [OctetOf(high + tail)], [OctetOf(Clear(8))];
    BitsOfOne(o3[0]);
    BitsOfOne(o4[0]);
    BitsAppend(o3, o4);
    BitsAppend(FrontOctets(h, h.cps), o3 + o4);
    Encode2Form(h);
    assert high + tail + Clear(8) == high + (tail + Clear(8));
    Rejoin(Front(h), Num(h.cps, 2), high, tail + Clear(8));
    NumSplit(h.cps, 2, 1);
    assert tail + Clear(8) == [h.rsb, h.pfi_ind] + Clear(13);
  }

  lemma Encode2Form(h: UlHeader)
    ensures EncodeType2(h)
         == FrontOctets(h, h.cps) + ([OctetOf(Num(Drop(h.cps, 2), 1) + ([h.rsb, h.pfi_ind] + Clear(5)))]
                                     + [OctetOf(Clear(8))])
  {
    hide OctetOf, Drop;
    var high := Num(Drop(h.cps, 2), 1);
    assert high + [h.rsb, h.pfi_ind] + Clear(5) == high + ([h.rsb, h.pfi_ind] + Clear(5));
  }

  /** On the wire the fields follow each other, whole, least significant bit first. */
  lemma Type3IsPacked(h: UlHeader)
    ensures BitsOf(EncodeType3(h)) == Front(h) + Num(h.cps, 4) + (Num(h.spb, 2) + [h.rsb, h.pfi_ind, false, false])
  {
    hide OctetOf, OctetBits, BitsOf, Num, Drop, Front, FrontOctets;
    var high, tail := Num(Drop(h.cps, 2), 2), Num(h.spb, 2) + [h.rsb, h.pfi_ind, false, false];
    FrontIsPacked(h, h.cps);
    OctetBitsOf(high + tail);
    var o3 := [OctetOf(high + tail)];
    BitsOfOne(o3[0]);
    BitsAppend(FrontOctets(h, h.cps), o3);
    Encode3Form(h);
    Rejoin(Front(h), Num(h.cps, 2), high, tail);
    NumSplit(h.cps, 2, 2);
  }

  lemma Encode3Form(h: UlHeader)
    ensures EncodeType3(h)
         == FrontOctets(h, h.cps)
            + [OctetOf(Num(Drop(h.cps, 2), 2) + (Num(h.spb, 2) + [h.rsb, h.pfi_ind, false, false]))]
  {
    hide OctetOf, Drop;
    var high, spb, flags := Num(Drop(h.cps, 2), 2), Num(h.spb, 2), [h.rsb, h.pfi_ind, false, false];
    assert high + spb + flags == high + (spb + flags);
  }

  lemma BitsOfOne(o: bv8)
    ensures BitsOf([o]) == OctetBits(o)
  {
    hide Bit, BitsOf, OctetBits;
    forall j | 0 <= j < 8
      ensures BitsOf([o])[j] == OctetBits(o)[j]
    {
      BitsAt([o], 0, j);
      OctetBitsAt(o, j);
    }
  }

  lemma BitsAppend(a: Octets, b: Octets)
    ensures BitsOf(a + b) == BitsOf(a) + BitsOf(b)
  {
    hide Bit, BitsOf;
    var r := BitsOf(a) + BitsOf(b);
    forall k | 0 <= k < 8 * |a + b|
      ensures BitsOf(a + b)[k] == r[k]
    {
      var i, j := k / 8, k % 8;
      assert k == 8 * i + j;
      BitsAt(a + b, i, j);
      if i < |a| {
        BitsAt(a, i, j);
      } else {
        BitsAt(b, i - |a|, j);
        assert k - 8 * |a| == 8 * (i - |a|) + j;
      }
    }
  }

  lemma Type3Octets(h: UlHeader)
    ensures
      var o := EncodeType3(h);
      && OctetBits(o[0]) == [h.r_ri, h.foi_si] + Num(h.countdown, 4) + Num(h.tfi, 2)
      && OctetBits(o[1]) == Num(Drop(h.tfi, 2), 3) + Num(h.bsn1, 5)
      && OctetBits(o[2]) == Num(Drop(h.bsn1, 5), 6) + Num(h.cps, 2)
      && OctetBits(o[3]) == Num(Drop(h.cps, 2), 2) + Num(h.spb, 2) + [h.rsb, h.pfi_ind, false, false]
  {
    hide OctetOf, OctetBits, Num, Drop;
    OctetBitsOf([h.r_ri, h.foi_si] + Num(h.countdown, 4) + Num(h.tfi, 2));
    OctetBitsOf(Num(Drop(h.tfi, 2), 3) + Num(h.bsn1, 5));
    OctetBitsOf(Num(Drop(h.bsn1, 5), 6) + Num(h.cps, 2));
    OctetBitsOf(Num(Drop(h.cps, 2), 2) + Num(h.spb, 2) + [h.rsb, h.pfi_ind, false, false]);
  }

  lemma SplitValue(n: nat, low: nat, high: nat)
    requires n < Pow2(low + high)
    ensures Up(Val(Num(Drop(n, low), high)), low) + Val(Num(n, low)) == n
  {
    hide Num, Val, Up, Drop;
    NumSplit(n, low, high);
    ValJoin(Num(n, low), Num(Drop(n, low), high));
    ValNum(n, low + high);
  }

  /** Every header in its ranges is read back, and the two bits behind it are clear. */
  lemma Type3RoundTrip(h: UlHeader)
    requires InRange(h)
    ensures DecodeType3(EncodeType3(h)) == h
    ensures !Bit(EncodeType3(h)[3], 7) && !Bit(EncodeType3(h)[3], 6)
  {
    hide OctetOf, OctetBits, Num, Val, Up, Drop, Pow2, Bit, EncodeType3;
    var o := EncodeType3(h);
    Type3Octets(h);
    var a, b, c, d := OctetBits(o[0]), OctetBits(o[1]), OctetBits(o[2]), OctetBits(o[3]);
    assert a[2..6] == Num(h.countdown, 4) && a[6..] == Num(h.tfi, 2);
    assert b[..3] == Num(Drop(h.tfi, 2), 3) && b[3..] == Num(h.bsn1, 5);
    assert c[..6] == Num(Drop(h.bsn1, 5), 6) && c[6..] == Num(h.cps, 2);
    assert d[..2] == Num(Drop(h.cps, 2), 2) && d[2..4] == Num(h.spb, 2);
    SplitValue(h.tfi, 2, 3);
    SplitValue(h.bsn1, 5, 6);
    SplitValue(h.cps, 2, 2);
    ValNum(h.countdown, 4);
    ValNum(h.spb, 2);
    TopBits(o[3]);
  }

  lemma TopBits(o: bv8)
    ensures OctetBits(o)[6] == Bit(o, 6) && OctetBits(o)[7] == Bit(o, 7)
  {
  }

  // ----- length indicators

  /** more is the M bit, which EGPRS length indicators do not have; e is set in the last one. */
  datatype Li = Li(length: nat, more: bool, e: bool)

  function LengthWidth(egprs: bool): nat { if egprs then 7 else 6 }

  predicate LiFits(egprs: bool, li: Li) { li.length < Pow2(LengthWidth(egprs)) && !(egprs && li.more) }

  function LiOctet(egprs: bool, li: Li): bv8 {
    OctetOf((if egprs then [li.e] else [li.e, li.more]) + Num(li.length, LengthWidth(egprs)))
  }

  function LiOf(egprs: bool, o: bv8): Li {
    var b := OctetBits(o);
    if egprs then Li(Val(b[1..]), false, b[0]) else Li(Val(b[2..]), b[1], b[0])
  }

  lemma LiRoundTrip(egprs: bool, li: Li)
    requires LiFits(egprs, li)
    ensures LiOf(egprs, LiOctet(egprs, li)) == li
  {
    hide OctetOf, OctetBits, Num, Val, Pow2;
    var b := (if egprs then [li.e] else [li.e, li.more]) + Num(li.length, LengthWidth(egprs));
    OctetBitsOf(b);
    ValNum(li.length, LengthWidth(egprs));
    assert b[8 - LengthWidth(egprs)..] == Num(li.length, LengthWidth(egprs));
  }

  lemma OctetBitsAt(o: bv8, j: nat)
    requires j < 8
    ensures OctetBits(o)[j] == Bit(o, j)
  {
  }

  lemma EmptyLi(egprs: bool)
    ensures LiOf(egprs, 0x01) == Li(0, false, true)
  {
    hide OctetOf, OctetBits, Val, Bit;
    forall j: nat | j < 8
      ensures OctetBits(0x01)[j] == (j == 0)
    {
      SmallBits(j);
      OctetBitsAt(0x01, j);
    }
    var b := OctetBits(0x01);
    NoValue(b[1..]);
    NoValue(b[2..]);
  }

  lemma {:induction false} NoValue(b: seq<bool>)
    requires forall j | 0 <= j < |b| :: !b[j]
    ensures Val(b) == 0
  {
    if b != [] {
      NoValue(b[1..]);
    }
  }
}
