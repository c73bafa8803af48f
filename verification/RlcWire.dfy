/** Uplink RLC data blocks octet by octet, as numbers (3GPP TS 44.060, sections 10.3a.2 and 10.3a.4): where each field
    lies in the header, the indicators and the length indicators, and what follows what. */
module RlcWire {
  import opened Numbers
  import opened Options
  import opened RlcBits
  import opened RlcUplink
  import opened RlcBlocks
  import opened RlcEgprs

  predicate Is(o: bv8, n: nat) { o as nat == n }

  function Flag(b: bool): nat { if b then 1 else 0 }

  // ----- octets as numbers

  lemma OctetValue(b: seq<bool>)
    requires |b| == 8
    ensures Is(OctetOf(b), Val(b))
  {
    EightFlags(b[0], b[1], b[2], b[3], b[4], b[5], b[6], b[7]);
    hide Place, Or, Is;
    EightPlaces(b);
    EightValue(b);
  }

  function MaskIf(b: bool, j: nat): bv8
    requires j < 8
  {
    if b then Mask(j) else 0
  }

  lemma EightPlaces(b: seq<bool>)
    requires |b| == 8
    ensures OctetOf(b)
         == Or(Or(Or(MaskIf(b[0], 0), MaskIf(b[1], 1)), Or(MaskIf(b[2], 2), MaskIf(b[3], 3))),
               Or(Or(MaskIf(b[4], 4), MaskIf(b[5], 5)), Or(MaskIf(b[6], 6), MaskIf(b[7], 7))))
  {
    hide Or, Mask;
  }

  lemma EightFlags(b0: bool, b1: bool, b2: bool, b3: bool, b4: bool, b5: bool, b6: bool, b7: bool)
    ensures Is(Or(Or(Or(MaskIf(b0, 0), MaskIf(b1, 1)), Or(MaskIf(b2, 2), MaskIf(b3, 3))),
                  Or(Or(MaskIf(b4, 4), MaskIf(b5, 5)), Or(MaskIf(b6, 6), MaskIf(b7, 7)))),
               Flag(b0) + 2 * Flag(b1) + 4 * Flag(b2) + 8 * Flag(b3) + 16 * Flag(b4) + 32 * Flag(b5) + 64 * Flag(b6)
               + 128 * Flag(b7))
  {
  }

  lemma EightValue(b: seq<bool>)
    requires |b| == 8
    ensures Val(b) == Flag(b[0]) + 2 * Flag(b[1]) + 4 * Flag(b[2]) + 8 * Flag(b[3]) + 16 * Flag(b[4])
                      + 32 * Flag(b[5]) + 64 * Flag(b[6]) + 128 * Flag(b[7])
  {
    hide Flag;
    FourValue(b[4..]);
    assert b[1..][1..][1..][1..] == b[4..];
    ValStep(b);
    ValStep(b[1..]);
    ValStep(b[1..][1..]);
    ValStep(b[1..][1..][1..]);
    hide Val;
  }

  lemma FourValue(b: seq<bool>)
    requires |b| == 4
    ensures Val(b) == Flag(b[0]) + 2 * Flag(b[1]) + 4 * Flag(b[2]) + 8 * Flag(b[3])
  {
    hide Flag;
    ValStep(b);
    ValStep(b[1..]);
    ValStep(b[1..][1..]);
    ValStep(b[1..][1..][1..]);
  }

  lemma ValStep(b: seq<bool>)
    requires b != []
    ensures Val(b) == Flag(b[0]) + 2 * Val(b[1..])
  {
  }

  /** A field holds as many low bits of its number as it is wide. */
  lemma {:induction false} NumValue(n: nat, k: nat)
    ensures Val(Num(n, k)) == n % Pow2(k)
    decreases k
  {
    if k > 0 {
      NumValue(n / 2, k - 1);
      assert Num(n, k)[1..] == Num(n / 2, k - 1);
      DoubledRemainder(n, Pow2(k - 1));
    }
  }

  lemma DoubledRemainder(n: nat, p: nat)
    requires p >= 1
    ensures n % (2 * p) == n % 2 + 2 * (n / 2 % p)
  {
    var m := n / 2;
    var q, r := m / p, m % p;
    assert m == p * q + r;
    assert 2 * m == 2 * p * q + 2 * r;
    Remainder(n, 2 * p, q, 2 * r + n % 2);
  }

  /** What is left of a number when a field has taken its low bits. */
  lemma {:induction false} DropValue(n: nat, k: nat)
    ensures Drop(n, k) == n / Pow2(k)
    decreases k
  {
    if k > 0 {
      DropValue(n / 2, k - 1);
      HalfQuotient(n, Pow2(k - 1));
    }
  }

  lemma {:induction false} UpValue(v: nat, k: nat)
    ensures Up(v, k) == Pow2(k) * v
    decreases k
  {
    if k > 0 {
      UpValue(v, k - 1);
      assert 2 * (Pow2(k - 1) * v) == (2 * Pow2(k - 1)) * v;
    }
  }

  lemma JoinValue(a: seq<bool>, b: seq<bool>)
    ensures Val(a + b) == Val(a) + Pow2(|a|) * Val(b)
  {
    ValJoin(a, b);
    UpValue(Val(b), |a|);
  }

  lemma Powers()
    ensures Pow2(0) == 1 && Pow2(1) == 2 && Pow2(2) == 4 && Pow2(3) == 8 && Pow2(4) == 16 && Pow2(5) == 32
    ensures Pow2(6) == 64 && Pow2(7) == 128 && Pow2(8) == 256
  {
    assert Pow2(0) == 1;
    assert Pow2(1) == 2;
    assert Pow2(2) == 4;
    assert Pow2(3) == 8;
    assert Pow2(4) == 16;
    assert Pow2(5) == 32;
    assert Pow2(6) == 64;
    assert Pow2(7) == 128;
  }

  lemma OneFlag(x: bool)
    ensures Val([x]) == Flag(x)
  {
    ValStep([x]);
  }

  lemma TwoFlags(x: bool, y: bool)
    ensures Val([x, y]) == Flag(x) + 2 * Flag(y)
  {
    ValStep([x, y]);
    assert [x, y][1..] == [y];
    OneFlag(y);
  }

  // ----- headers

  /** The octets of EGPRS headers: retry, SI, countdown and the low bits of TFI; the rest of TFI and the low bits of
      BSN; the rest of it and the low bits of a third number. */
  lemma FrontOctetValues(h: UlHeader, next: nat)
    ensures
      var o := FrontOctets(h, next);
      && Is(o[0], Flag(h.r_ri) + 2 * Flag(h.foi_si) + 4 * (h.countdown % 16) + 64 * (h.tfi % 4))
      && Is(o[1], h.tfi / 4 % 8 + 8 * (h.bsn1 % 32))
      && Is(o[2], h.bsn1 / 32 % 64 + 64 * (next % 4))
  {
    hide OctetOf, Num, Drop, Val, Flag, Is, Pow2;
    Powers();
    var flags := [h.r_ri, h.foi_si];
    OctetValue(flags + Num(h.countdown, 4) + Num(h.tfi, 2));
    JoinValue(flags + Num(h.countdown, 4), Num(h.tfi, 2));
    JoinValue(flags, Num(h.countdown, 4));
    TwoFlags(h.r_ri, h.foi_si);
    NumValue(h.countdown, 4);
    NumValue(h.tfi, 2);
    TwoFields(h.tfi, 2, 3, h.bsn1, 5);
    TwoFields(h.bsn1, 5, 6, next, 2);
  }

  lemma TwoFields(n: nat, low: nat, high: nat, m: nat, width: nat)
    requires high + width == 8
    ensures Is(OctetOf(Num(Drop(n, low), high) + Num(m, width)),
               n / Pow2(low) % Pow2(high) + Pow2(high) * (m % Pow2(width)))
  {
    hide OctetOf, Num, Drop, Val, Is, Pow2;
    OctetValue(Num(Drop(n, low), high) + Num(m, width));
    JoinValue(Num(Drop(n, low), high), Num(m, width));
    NumValue(Drop(n, low), high);
    NumValue(m, width);
    DropValue(n, low);
  }

  /** Type 1, with the second block's number in ten bits. */
  lemma Type1Values(h: UlHeader, bsn2_offset: nat)
    ensures
      var o := EncodeType1(h, bsn2_offset);
      && Is(o[0], Flag(h.r_ri) + 2 * Flag(h.foi_si) + 4 * (h.countdown % 16) + 64 * (h.tfi % 4))
      && Is(o[1], h.tfi / 4 % 8 + 8 * (h.bsn1 % 32))
      && Is(o[2], h.bsn1 / 32 % 64 + 64 * (bsn2_offset % 4))
      && Is(o[3], bsn2_offset / 4 % 256)
      && Is(o[4], h.cps % 32 + 32 * Flag(h.rsb) + 64 * Flag(h.pfi_ind))
      && Is(o[5], 0)
  {
    hide OctetOf, Num, Drop, Val, Flag, Is, Pow2, Clear;
    Powers();
    FrontOctetValues(h, bsn2_offset);
    var high := Num(Drop(bsn2_offset, 2), 8);
    OctetValue(high);
    NumValue(Drop(bsn2_offset, 2), 8);
    DropValue(bsn2_offset, 2);
    OctetValue(Num(h.cps, 5) + [h.rsb, h.pfi_ind, false]);
    JoinValue(Num(h.cps, 5), [h.rsb, h.pfi_ind, false]);
    NumValue(h.cps, 5);
    FlagsThenZeros(h.rsb, h.pfi_ind, [false]);
    assert [h.rsb, h.pfi_ind] + [false] == [h.rsb, h.pfi_ind, false];
    OctetValue(Clear(8));
    ClearValue(8);
  }

  lemma FlagsThenZeros(x: bool, y: bool, zeros: seq<bool>)
    requires forall j | 0 <= j < |zeros| :: !zeros[j]
    ensures Val([x, y] + zeros) == Flag(x) + 2 * Flag(y)
  {
    hide Val, Flag;
    JoinValue([x, y], zeros);
    TwoFlags(x, y);
    NoValue(zeros);
  }

  lemma ClearValue(n: nat)
    ensures Val(Clear(n)) == 0
  {
    NoValue(Clear(n));
  }

  lemma Type2Values(h: UlHeader)
    ensures
      var o := EncodeType2(h);
      && Is(o[0], Flag(h.r_ri) + 2 * Flag(h.foi_si) + 4 * (h.countdown % 16) + 64 * (h.tfi % 4))
      && Is(o[1], h.tfi / 4 % 8 + 8 * (h.bsn1 % 32))
      && Is(o[2], h.bsn1 / 32 % 64 + 64 * (h.cps % 4))
      && Is(o[3], h.cps / 4 % 2 + 2 * Flag(h.rsb) + 4 * Flag(h.pfi_ind))
      && Is(o[4], 0)
  {
    hide OctetOf, Num, Drop, Val, Flag, Is, Pow2, Clear;
    Powers();
    FrontOctetValues(h, h.cps);
    var high, flags := Num(Drop(h.cps, 2), 1), [h.rsb, h.pfi_ind] + Clear(5);
    assert high + [h.rsb, h.pfi_ind] + Clear(5) == high + flags;
    OctetValue(high + flags);
    JoinValue(high, flags);
    NumValue(Drop(h.cps, 2), 1);
    DropValue(h.cps, 2);
    Zeros(5);
    FlagsThenZeros(h.rsb, h.pfi_ind, Clear(5));
    OctetValue(Clear(8));
    ClearValue(8);
  }

  lemma Zeros(n: nat)
    ensures forall j | 0 <= j < n :: !Clear(n)[j]
  {
  }

  lemma Type3Values(h: UlHeader)
    ensures
      var o := EncodeType3(h);
      && Is(o[0], Flag(h.r_ri) + 2 * Flag(h.foi_si) + 4 * (h.countdown % 16) + 64 * (h.tfi % 4))
      && Is(o[1], h.tfi / 4 % 8 + 8 * (h.bsn1 % 32))
      && Is(o[2], h.bsn1 / 32 % 64 + 64 * (h.cps % 4))
      && Is(o[3], h.cps / 4 % 4 + 4 * (h.spb % 4) + 16 * Flag(h.rsb) + 32 * Flag(h.pfi_ind))
  {
    hide OctetOf, Num, Drop, Val, Flag, Is, Pow2;
    Powers();
    FrontOctetValues(h, h.cps);
    var high, spb, flags := Num(Drop(h.cps, 2), 2), Num(h.spb, 2), [h.rsb, h.pfi_ind, false, false];
    OctetValue(high + spb + flags);
    JoinValue(high + spb, flags);
    JoinValue(high, spb);
    NumValue(Drop(h.cps, 2), 2);
    NumValue(h.spb, 2);
    DropValue(h.cps, 2);
    FlagsThenZeros(h.rsb, h.pfi_ind, [false, false]);
    assert [h.rsb, h.pfi_ind] + [false, false] == flags;
  }

  // ----- indicators

  /** E, M in GPRS only, and the length in the bits that are left. */
  function LiNumber(egprs: bool, li: Li): nat {
    Flag(li.e) + if egprs then 2 * (li.length % 128) else 2 * Flag(li.more) + 4 * (li.length % 64)
  }

  lemma LiValue(egprs: bool, li: Li)
    ensures Is(LiOctet(egprs, li), LiNumber(egprs, li))
  {
    hide OctetOf, Num, Val, Flag, Is, Pow2;
    Powers();
    var flags := if egprs then [li.e] else [li.e, li.more];
    OctetValue(flags + Num(li.length, LengthWidth(egprs)));
    JoinValue(flags, Num(li.length, LengthWidth(egprs)));
    NumValue(li.length, LengthWidth(egprs));
    if egprs {
      OneFlag(li.e);
    } else {
      TwoFlags(li.e, li.more);
    }
  }

  /** In the order of the blocks, an octet for each that has a length indicator. */
  predicate LisAre(egprs: bool, blocks: seq<LlcBlock>, lis: Octets) {
    if blocks == [] then lis == []
    else if blocks[0].hdr.None? then LisAre(egprs, blocks[1..], lis)
    else
      && lis != [] && Is(lis[0], LiNumber(egprs, blocks[0].hdr.value))
      && LisAre(egprs, blocks[1..], lis[1..])
  }

  /** None for a single block without one, and an empty one with E for no blocks. */
  predicate MarksAre(egprs: bool, blocks: Option<seq<LlcBlock>>, marks: Octets) {
    if Unmarked(blocks) then marks == []
    else if blocks.None? then |marks| == 1 && Is(marks[0], 1)
    else LisAre(egprs, blocks.value, marks)
  }

  lemma {:induction false} LisAreOctets(egprs: bool, blocks: seq<LlcBlock>, lis: Octets)
    requires LisAre(egprs, blocks, lis)
    ensures LiOctets(egprs, blocks) == lis
    decreases |blocks|
  {
    hide LiOctet, LiNumber, Is;
    if blocks != [] {
      if blocks[0].hdr.None? {
        LisAreOctets(egprs, blocks[1..], lis);
      } else {
        LisAreOctets(egprs, blocks[1..], lis[1..]);
        LiValue(egprs, blocks[0].hdr.value);
        Same(lis[0], LiOctet(egprs, blocks[0].hdr.value), LiNumber(egprs, blocks[0].hdr.value));
      }
    }
  }

  lemma Same(a: bv8, b: bv8, n: nat)
    requires Is(a, n) && Is(b, n)
    ensures a == b
  {
    Back(a);
    Back(b);
  }

  lemma Back(a: bv8)
    ensures a as nat < 256 && (a as nat) as bv8 == a
  {
  }

  lemma MarksAreOctets(egprs: bool, blocks: Option<seq<LlcBlock>>, marks: Octets)
    requires MarksAre(egprs, blocks, marks)
    ensures Marks(egprs, blocks) == marks
  {
    hide LisAre, LiOctets, Is;
    if !Unmarked(blocks) {
      if blocks.None? {
        One();
        Same(marks[0], 0x01, 1);
      } else {
        LisAreOctets(egprs, blocks.value, marks);
      }
    }
  }

  lemma One()
    ensures Is(0x01, 1)
  {
  }

  /** PI is 0x40 and TI 0x01 of the second octet, E 0x01 of the third. */
  predicate IndicatorsAre(m: MacHeader, pfi: bool, tlli: bool, e: bool, m': Octets) {
    && |m'| == 3 && m'[0] == m[0]
    && m'[1] == (m[1] & 0xbe) | (if pfi then 0x40 else 0) | (if tlli then 0x01 else 0)
    && m'[2] == (m[2] & 0xfe) | (if e then 0x01 else 0)
  }

  lemma IndicatorsFixed(b: UlDataBlock)
    ensures IndicatorsAre(b.mac, b.pfi.Some?, b.tlli.Some?, Unmarked(b.blocks), Fixed(b))
  {
    FixedBits(b);
    hide WithBit, Bit, Fixed;
    var m, f, p, t, e := b.mac, Fixed(b), b.pfi.Some?, b.tlli.Some?, Unmarked(b.blocks);
    forall j: nat | j < 8
      ensures Bit(f[1], j) == Bit(Second(m[1], p, t), j) && Bit(f[2], j) == Bit(Third(m[2], e), j)
    {
      SecondBits(m[1], p, t, j);
      ThirdBits(m[2], e, j);
    }
    SameBits(f[1], Second(m[1], p, t));
    SameBits(f[2], Third(m[2], e));
  }

  function Second(o: bv8, pfi: bool, tlli: bool): bv8 {
    (o & 0xbe) | (if pfi then 0x40 else 0) | (if tlli then 0x01 else 0)
  }

  function Third(o: bv8, e: bool): bv8 { (o & 0xfe) | (if e then 0x01 else 0) }

  lemma SecondBits(o: bv8, pfi: bool, tlli: bool, j: nat)
    requires j < 8
    ensures Bit(Second(o, pfi, tlli), j) == if j == 6 then pfi else if j == 0 then tlli else Bit(o, j)
  {
  }

  lemma ThirdBits(o: bv8, e: bool, j: nat)
    requires j < 8
    ensures Bit(Third(o, e), j) == if j == 0 then e else Bit(o, j)
  {
  }

  // ----- whole blocks

  /** Octets from n on: 0x2b up to one length, zeros up to the other, and none where the block is too large already. */
  predicate PaddedTo(e: Octets, n: nat, noSpare: nat, length: nat) {
    && |e| == (if n <= noSpare then length else n)
    && forall k | n <= k < |e| :: e[k] == if k < noSpare then 0x2b else 0x00
  }

  lemma TrailerPads(cs: CodingScheme, a: Octets)
    ensures PaddedTo(a + Trailer(cs, |a|), |a|, BlockLenNoSpare(cs), BlockLen(cs))
  {
    hide BlockLen, BlockLenNoSpare;
    SchemeRoundTrip(cs);
  }

  /** A GPRS uplink block: the header with its indicators, length indicators, TLLI, PFI and payloads in this order, and
      padding. */
  lemma UplinkOctets(b: UlDataBlock, mac: Octets, marks: Octets)
    requires IndicatorsAre(b.mac, b.pfi.Some?, b.tlli.Some?, Unmarked(b.blocks), mac)
    requires MarksAre(false, b.blocks, marks)
    ensures
      var a := mac + marks + (if b.tlli.Some? then b.tlli.value else []) + (if b.pfi.Some? then [b.pfi.value] else [])
               + (if b.blocks.Some? then Payloads(b.blocks.value) else []);
      a <= Encoded(b) && PaddedTo(Encoded(b), |a|, BlockLenNoSpare(b.cs), BlockLen(b.cs))
  {
    hide Fixed, Marks, MarksAre, PaddedTo, Trailer, Unmarked, BlockLen, BlockLenNoSpare;
    IndicatorsFixed(b);
    assert mac == Fixed(b);
    hide IndicatorsAre;
    MarksAreOctets(false, b.blocks, marks);
    TrailerPads(b.cs, Unpadded(b));
    var t, p := OptionalTlli(b.tlli), Optional(b.pfi);
    var r := if b.blocks.Some? then Payloads(b.blocks.value) else [];
    assert mac + (marks + t + p + r) == mac + marks + t + p + r;
  }

  /** The data block of an EGPRS block, before it is moved: E and TI, then the same with the TLLI last octet first. */
  lemma DataBlockOctets(b: UlEgprsBlock, marks: Octets)
    requires MarksAre(true, b.blocks, marks)
    ensures Is(DataBlock(b)[0], Flag(Unmarked(b.blocks)) + 2 * Flag(b.tlli.Some?))
    ensures
      var t := if b.tlli.Some? then [b.tlli.value[3], b.tlli.value[2], b.tlli.value[1], b.tlli.value[0]] else [];
      DataBlock(b)[1..] == marks + t + (if b.pfi.Some? then [b.pfi.value] else [])
                           + (if b.blocks.Some? then Payloads(b.blocks.value) else [])
  {
    hide Marks, MarksAre, Unmarked, OctetOf, Val, Is, Flag;
    MarksAreOctets(true, b.blocks, marks);
    var ti, e := b.tlli.Some?, Unmarked(b.blocks);
    var flags := [e, ti, false, false, false, false, false, false];
    OctetValue(flags);
    FlagsThenZeros(e, ti, flags[2..]);
    assert [e, ti] + flags[2..] == flags;
  }

  /** And the whole: the header, the data block moved to bit 46, 37 or 31, and padding. */
  lemma EgprsOctets(b: UlEgprsBlock, room: Octets, beyond: Octets)
    requires Memory(b, room, beyond)
    ensures
      var h := b.hdr.(pfi_ind := b.pfi.Some?);
      var header := if b.hdrtype == Type_1 then EncodeType1(h, b.bsn2_offset.value)
                    else if b.hdrtype == Type_2 then EncodeType2(h) else EncodeType3(h);
      var offset := if b.hdrtype == Type_1 then 46 else if b.hdrtype == Type_2 then 37 else 31;
      && Sized(offset, header, room, DataBlock(b), beyond)
      && Put(offset, header, room, DataBlock(b), beyond) <= EncodedEgprs(b, room, beyond)
      && PaddedTo(EncodedEgprs(b, room, beyond), |header| + |DataBlock(b)|, BlockLenNoSpare(b.mcs), BlockLen(b.mcs))
  {
    hide EncodeType1, EncodeType2, EncodeType3, Put, DataBlock, Trailer, PaddedTo, BlockLen, BlockLenNoSpare;
    TrailerPads(b.mcs, Placed(b, room, beyond));
  }

  /** The octet that lies across two: the upper bits of one, then the lower bits of the next. */
  function Across(a: bv8, b: bv8, e: nat): bv8
    requires e == 1 || e == 7
  {
    if e == 1 then (a >> 7) | (b << 1) else (a >> 1) | (b << 7)
  }

  lemma MergedIsAcross(a: bv8, b: bv8)
    ensures Or(Shr(a, 7), Shl(b, 1)) == Across(a, b, 1) && Or(Shr(a, 1), Shl(b, 7)) == Across(a, b, 7)
    ensures Or(a, Shl(b, 7)) == a | (b << 7) && Or(a, Shl(b, 1)) == a | (b << 1)
  {
  }

  lemma SecondAt31(a: bv8, b: bv8)
    requires a < 4
    ensures Or(Or(Shr(a, 7), Shl(b, 1)), And(Shr(a, 1), Shr(0xff, 7))) == (a >> 1) | (b << 1)
  {
  }

  lemma SecondAt37(a: bv8, b: bv8)
    requires a < 4
    ensures Or(Or(Shr(a, 1), Shl(b, 7)), And(Shr(a, 7), Shr(0xff, 1))) == (a >> 1) | (b << 7)
  {
  }

  /** Behind a type 3 header: E in its last bit, TI in the first bit behind, and the other octets shifted by one bit. */
  lemma PutAt31(header: Octets, room: Octets, block: Octets, beyond: Octets)
    requires Sized(31, header, room, block, beyond) && block[0] < 4
    ensures
      var r, src := Put(31, header, room, block, beyond), block + beyond;
      && r[..3] == header[..3] && r[3] == header[3] | (block[0] << 7) && r[4] == (block[0] >> 1) | (src[1] << 1)
      && forall k | 5 <= k < |r| :: r[k] == Across(src[k - 4], src[k - 3], 1)
  {
    hide Put;
    var src := block + beyond;
    PutFromFourth(31, 1, header, room, block, beyond);
    MergedIsAcross(header[3], src[0]);
    SecondAt31(src[0], src[1]);
    hide *;
    forall k | 5 <= k < 4 + |block|
      ensures Put(31, header, room, block, beyond)[k] == Across(src[k - 4], src[k - 3], 1)
    {
      MergedIsAcross(src[k - 4], src[k - 3]);
    }
  }

  /** Behind a type 2 header: its fourth octet gets both bits too, and its fifth is lost. */
  lemma PutAt37(header: Octets, room: Octets, block: Octets, beyond: Octets)
    requires Sized(37, header, room, block, beyond) && block[0] < 4
    ensures
      var r, src := Put(37, header, room, block, beyond), block + beyond;
      && r[..3] == header[..3] && r[3] == header[3] | (block[0] << 1)
      && forall k | 4 <= k < |r| :: r[k] == Across(src[k - 4], src[k - 3], 7)
  {
    hide Put;
    var src := block + beyond;
    PutFromFourth(37, 7, header, room, block, beyond);
    MergedIsAcross(header[3], src[0]);
    SecondAt37(src[0], src[1]);
    FirstAcross(src[0], src[1]);
    hide *;
    forall k | 5 <= k < 5 + |block|
      ensures Put(37, header, room, block, beyond)[k] == Across(src[k - 4], src[k - 3], 7)
    {
      MergedIsAcross(src[k - 4], src[k - 3]);
    }
  }

  lemma PutFromFourth(offset: nat, e: nat, header: Octets, room: Octets, block: Octets, beyond: Octets)
    requires Sized(offset, header, room, block, beyond)
    requires (offset == 31 && e == 1) || (offset == 37 && e == 7)
    ensures
      var r, src := Put(offset, header, room, block, beyond), block + beyond;
      && |r| == (if e == 1 then 4 else 5) + |block| && r[..3] == header[..3]
      && r[3] == Or(header[3], Shl(src[0], 8 - e))
      && r[4] == Or(Or(Shr(src[0], 8 - e), Shl(src[1], e)), And(Shr(src[0], e), Shr(0xff, 8 - e)))
      && forall k | 5 <= k < |r| :: r[k] == Or(Shr(src[k - 4], 8 - e), Shl(src[k - 3], e))
  {
    var mem, src, n := header + room, block + beyond, |header| + |block|;
    ShiftedOctets(mem, src, e, n);
    hide Or, And, Shr, Shl, ShiftedAll;
  }

  lemma FirstAcross(a: bv8, b: bv8)
    ensures (a >> 1) | (b << 7) == Across(a, b, 7)
  {
  }

  lemma ShiftedOctets(mem: Octets, src: Octets, e: nat, n: nat)
    requires 1 <= e < 8 && 3 + n < |mem| && |src| >= n
    ensures ShiftedAll(mem, src, 3, e, n)[..3] == mem[..3]
    ensures forall k | 4 <= k < n ::
              ShiftedAll(mem, src, 3, e, n)[k] == Or(Shr(src[k - 4], 8 - e), Shl(src[k - 3], e))
  {
    hide Or, And, Shr, Shl;
  }

  // ----- coding schemes

  /** Bits of a radio block with CS-1 to CS-4: whole octets of it without the spare bits, and all octets it touches. */
  lemma GprsBlockLengths(cs: CodingScheme, bits: nat)
    requires cs in {CS_1, CS_2, CS_3, CS_4}
    requires bits == (if cs == CS_1 then 184 else if cs == CS_2 then 271 else if cs == CS_3 then 315 else 431)
    ensures BlockLenNoSpare(cs) == bits / 8 && BlockLen(cs) == (bits + 7) / 8
  {
  }

  /** Data blocks are made of payload units of three families, of 37, 28 and 22 octets, and of 34 with MCS-8: one, two
      or four units in one or, from MCS-7 on, two blocks. The block is header and data blocks, rounded up to octets. */
  lemma EgprsBlockLengths(mcs: CodingScheme, unit: nat, units: nat)
    requires unit == (if mcs == MCS_8 then 34 else if mcs in {MCS_3, MCS_6, MCS_9} then 37
                      else if mcs in {MCS_2, MCS_5, MCS_7} then 28 else 22)
    requires units == (if mcs in {MCS_1, MCS_2, MCS_3} then 1 else if mcs in {MCS_4, MCS_5, MCS_6} then 2 else 4)
    requires IsEgprs(mcs)
    ensures DataBlockLen(mcs) * (if mcs in {MCS_7, MCS_8, MCS_9} then 2 else 1) == unit * units
    ensures BlockLenNoSpare(mcs) == BlockLen(mcs)
    ensures
      var header := if mcs in {MCS_7, MCS_8, MCS_9} then 46 else if mcs in {MCS_5, MCS_6} then 37 else 31;
      var blocks := if mcs in {MCS_7, MCS_8, MCS_9} then 2 else 1;
      BlockLen(mcs) == (header + blocks * (8 * DataBlockLen(mcs) + 2) + 7) / 8
  {
  }

  /** A block is taken for the scheme of its length, MCS-5 to MCS-9 with one octet less as well, and for CS-1 if there
      is none. */
  lemma SchemeOfLength(n: nat, cs: CodingScheme)
    requires cs != CS_1
    ensures SchemeOf(n) == cs
       <==> n > 0 && (n == BlockLen(cs) || (n + 1 == BlockLen(cs) && cs in {MCS_5, MCS_6, MCS_7, MCS_8, MCS_9}))
  {
  }

  // ----- reading

  lemma {:induction false} ValueBound(b: seq<bool>)
    ensures Val(b) < Pow2(|b|)
    decreases |b|
  {
    if b != [] {
      ValueBound(b[1..]);
    }
  }

  /** Cutting bits in two is division by a power of two. */
  lemma Parts(b: seq<bool>, i: nat)
    requires i <= |b|
    ensures Val(b[..i]) == Val(b) % Pow2(i) && Val(b[i..]) == Val(b) / Pow2(i)
  {
    hide Val, Pow2;
    assert b[..i] + b[i..] == b;
    JoinValue(b[..i], b[i..]);
    ValueBound(b[..i]);
    Remainder(Val(b), Pow2(i), Val(b[i..]), Val(b[..i]));
  }

  lemma BitsValue(o: bv8)
    ensures Is(o, Val(OctetBits(o)))
  {
    hide OctetOf, OctetBits, Bit, Val, Is;
    var p := OctetOf(OctetBits(o));
    OctetBitsOf(OctetBits(o));
    forall j: nat | j < 8
      ensures Bit(o, j) == Bit(p, j)
    {
      OctetBitsAt(o, j);
      OctetBitsAt(p, j);
    }
    SameBits(o, p);
    OctetValue(OctetBits(o));
  }

  /** Bits i to j - 1, with p and w for 2^i and 2^(j - i). */
  lemma FieldValue(o: bv8, n: nat, i: nat, j: nat, p: nat, w: nat)
    requires Is(o, n) && i <= j <= 8 && p == Pow2(i) && w == Pow2(j - i)
    ensures Val(OctetBits(o)[i..j]) == n / p % w
  {
    hide OctetBits, Val, Pow2;
    var b := OctetBits(o);
    BitsValue(o);
    assert n == Val(b);
    Parts(b, i);
    Parts(b[i..], j - i);
    assert b[i..][..j - i] == b[i..j];
  }

  lemma FlagValue(o: bv8, n: nat, k: nat, p: nat)
    requires Is(o, n) && k < 8 && p == Pow2(k)
    ensures OctetBits(o)[k] <==> n / p % 2 == 1
  {
    hide OctetBits, Val, Is, Pow2;
    Powers();
    FieldValue(o, n, k, k + 1, p, 2);
    assert OctetBits(o)[k..k + 1] == [OctetBits(o)[k]];
    OneFlag(OctetBits(o)[k]);
  }

  lemma Small(o: bv8, n: nat)
    requires Is(o, n)
    ensures n < 256
  {
    Back(o);
  }

  /** A length indicator taken apart: the same layout, for every octet. */
  lemma LiReadFrom(egprs: bool, o: bv8, n: nat)
    requires Is(o, n)
    ensures LiOf(egprs, o).e <==> n % 2 == 1
    ensures if egprs then LiOf(egprs, o).length == n / 2 && !LiOf(egprs, o).more
            else LiOf(egprs, o).length == n / 4 && (LiOf(egprs, o).more <==> n / 2 % 2 == 1)
  {
    hide OctetBits, Val, Pow2, Is;
    Powers();
    Small(o, n);
    var b := OctetBits(o);
    FlagValue(o, n, 0, 1);
    FlagValue(o, n, 1, 2);
    FieldValue(o, n, 1, 8, 2, 128);
    FieldValue(o, n, 2, 8, 4, 64);
    assert b[1..8] == b[1..] && b[2..8] == b[2..];
  }

  /** A header of type 3 taken apart: the same layout, for any four octets. */
  lemma Type3ReadFrom(o: Octets, n: seq<nat>)
    requires |o| >= 4 && |n| == 4 && forall i | 0 <= i < 4 :: Is(o[i], n[i])
    ensures
      var h := DecodeType3(o);
      && (h.r_ri <==> n[0] % 2 == 1) && (h.foi_si <==> n[0] / 2 % 2 == 1)
      && h.countdown == n[0] / 4 % 16 && h.tfi == n[0] / 64 + 4 * (n[1] % 8) && h.bsn1 == n[1] / 8 + 32 * (n[2] % 64)
      && h.cps == n[2] / 64 + 4 * (n[3] % 4) && h.spb == n[3] / 4 % 4
      && (h.rsb <==> n[3] / 16 % 2 == 1) && (h.pfi_ind <==> n[3] / 32 % 2 == 1)
  {
    hide OctetBits, Val, Pow2, Is;
    Powers();
    FirstTwoFrom(o[0], n[0]);
    SplitFrom(o[0], n[0], o[1], n[1], 6, 3, 64, 8);
    SplitFrom(o[1], n[1], o[2], n[2], 3, 6, 8, 64);
    SplitFrom(o[2], n[2], o[3], n[3], 6, 2, 64, 4);
    FieldValue(o[3], n[3], 2, 4, 4, 4);
    FlagValue(o[3], n[3], 4, 16);
    FlagValue(o[3], n[3], 5, 32);
    UpValue(Val(OctetBits(o[1])[..3]), 2);
    UpValue(Val(OctetBits(o[2])[..6]), 5);
    UpValue(Val(OctetBits(o[3])[..2]), 2);
    hide Up;
  }

  lemma FirstTwoFrom(o: bv8, n: nat)
    requires Is(o, n)
    ensures
      var b := OctetBits(o);
      (b[0] <==> n % 2 == 1) && (b[1] <==> n / 2 % 2 == 1) && Val(b[2..6]) == n / 4 % 16
  {
    hide OctetBits, Val, Pow2, Is;
    Powers();
    FlagValue(o, n, 0, 1);
    FlagValue(o, n, 1, 2);
    FieldValue(o, n, 2, 6, 4, 16);
  }

  /** The upper bits of one octet and the lower bits of the next. */
  lemma SplitFrom(o: bv8, n: nat, o': bv8, n': nat, i: nat, j: nat, p: nat, q: nat)
    requires Is(o, n) && Is(o', n') && i <= 8 && j <= 8 && p == Pow2(i) && q == Pow2(j)
    ensures Val(OctetBits(o)[i..]) == n / p && Val(OctetBits(o')[..j]) == n' % q
  {
    hide OctetBits, Val, Pow2;
    BitsValue(o);
    BitsValue(o');
    Parts(OctetBits(o), i);
    Parts(OctetBits(o'), j);
  }

  // ----- what follows the header, taken apart

  predicate Last(o: bv8) { o & 0x01 != 0 }

  lemma LastIsE(egprs: bool, o: bv8)
    ensures LiOf(egprs, o).e == Last(o)
  {
    OctetBitsAt(o, 0);
  }

  lemma {:induction false} NoLast(egprs: bool, data: Octets)
    requires forall i | 0 <= i < |data| :: !Last(data[i])
    ensures ReadLis(egprs, data) == Short
    decreases |data|
  {
    hide LiOf, Last;
    if data != [] {
      LastIsE(egprs, data[0]);
      NoLast(egprs, data[1..]);
    }
  }

  /** k octets up to the first one with E. */
  predicate UpToLast(data: Octets, k: nat) {
    1 <= k <= |data| && Last(data[k - 1]) && forall i | 0 <= i < k - 1 :: !Last(data[i])
  }

  lemma {:induction false} LisRead(egprs: bool, data: Octets, k: nat) returns (lis: seq<Li>)
    requires UpToLast(data, k)
    ensures ReadLis(egprs, data) == Lis(lis, data[k..])
    ensures |lis| == k && forall i | 0 <= i < k :: lis[i] == LiOf(egprs, data[i])
    decreases |data|
  {
    hide LiOf, Last;
    LastIsE(egprs, data[0]);
    if Last(data[0]) {
      assert k == 1;
      lis := [LiOf(egprs, data[0])];
    } else {
      var later := LisRead(egprs, data[1..], k - 1);
      lis := [LiOf(egprs, data[0])] + later;
      assert data[1..][k - 1..] == data[k..];
    }
  }

  /** Where payload i starts: behind those before it. */
  function Start(blocks: seq<LlcBlock>, i: nat): nat
    requires i <= |blocks|
  {
    if i == 0 then 0 else |blocks[0].payload| + Start(blocks[1..], i - 1)
  }

  /** A length indicator with the octets at its place, as many as it says or as there are. */
  predicate InPlace(li: Li, left: Octets, start: nat, b: LlcBlock) {
    && b.hdr == Some(li) && start <= |left|
    && var n := if li.length < |left| - start then li.length else |left| - start;
       b.payload == left[start..start + n]
  }

  lemma {:induction false} CutAt(lis: seq<Li>, left: Octets, i: nat)
    requires i < |lis|
    ensures |Cut(lis, left)| == |lis| && InPlace(lis[i], left, Start(Cut(lis, left), i), Cut(lis, left)[i])
    decreases i
  {
    var n, blocks := Least(lis[0].length, |left|), Cut(lis, left);
    CutSize(lis, left);
    assert blocks[1..] == Cut(lis[1..], left[n..]);
    if i > 0 {
      CutAt(lis[1..], left[n..], i - 1);
      InPlaceBehind(lis[i], left, n, Start(blocks[1..], i - 1), blocks[i]);
    }
  }

  lemma InPlaceBehind(li: Li, left: Octets, n: nat, start: nat, b: LlcBlock)
    requires n <= |left| && InPlace(li, left[n..], start, b)
    ensures InPlace(li, left, n + start, b)
  {
  }

  lemma {:induction false} CutSize(lis: seq<Li>, left: Octets)
    ensures |Cut(lis, left)| == |lis|
    decreases |lis|
  {
    if lis != [] {
      CutSize(lis[1..], left[Least(lis[0].length, |left|)..]);
    }
  }

  ghost predicate CutInOrder(lis: seq<Li>, left: Octets, blocks: seq<LlcBlock>) {
    |blocks| == |lis| && forall i :: 0 <= i < |lis| ==> InPlace(lis[i], left, Start(blocks, i), blocks[i])
  }

  lemma RestRead(list: seq<Li>, e: bool, ti: bool, pi: bool, data: Octets, k: nat)
    requires k <= |data|
    ensures
      var t, q, r := if ti then 4 else 0, if pi then 1 else 0, ReadRest(list, e, ti, pi, data[k..]);
      && (|data| < k + t ==> r == OverRead)
      && (k + t <= |data| < k + t + q ==> r == Incomplete)
      && (|data| >= k + t + q ==>
            r == Decoded(Content(if ti then Some(data[k..k + 4]) else None, if pi then Some(data[k + t]) else None,
                                 if e then [LlcBlock(None, data[k + t + q..])] else Cut(list, data[k + t + q..]))))
  {
    hide Cut;
    var rest := data[k..];
    if |data| >= k + 4 {
      assert rest[..4] == data[k..k + 4] && rest[4..] == data[k + 4..];
    }
    if |data| > k + 4 {
      assert data[k + 4..][1..] == data[k + 5..];
    }
    if |data| > k {
      assert rest[1..] == data[k + 1..];
    }
  }

  /** Every outcome of the decoder: read beyond the end with less than four octets of TLLI, incomplete without an octet
      of PFI, and otherwise the parts at their places. */
  lemma BodyRead(egprs: bool, e: bool, ti: bool, pi: bool, data: Octets, k: nat)
    requires if e then k == 0 else UpToLast(data, k)
    ensures
      var t, q, r := if ti then 4 else 0, if pi then 1 else 0, ReadBody(egprs, e, ti, pi, data);
      && (|data| < k + t ==> r == OverRead)
      && (k + t <= |data| < k + t + q ==> r == Incomplete)
      && (|data| >= k + t + q ==>
            && r.Decoded?
            && r.value.tlli == (if ti then Some(data[k..k + 4]) else None)
            && r.value.pfi == (if pi then Some(data[k + t]) else None)
            && (e ==> r.value.blocks == [LlcBlock(None, data[k + t + q..])])
            && (!e ==> CutInOrder(seq(k, i requires 0 <= i < k => LiOf(egprs, data[i])), data[k + t + q..],
                                  r.value.blocks)))
  {
    var t, q := if ti then 4 else 0, if pi then 1 else 0;
    hide LiOf, Last, InPlace, Cut, ReadLis, ReadRest;
    if e {
      assert data[0..] == data;
      RestRead([], e, ti, pi, data, 0);
    } else {
      var lis := LisRead(egprs, data, k);
      assert lis == seq(k, i requires 0 <= i < k => LiOf(egprs, data[i]));
      RestRead(lis, e, ti, pi, data, k);
      if |data| >= k + t + q {
        forall i: nat | i < k
          ensures |Cut(lis, data[k + t + q..])| == k
          ensures InPlace(lis[i], data[k + t + q..], Start(Cut(lis, data[k + t + q..]), i),
                          Cut(lis, data[k + t + q..])[i])
        {
          CutAt(lis, data[k + t + q..], i);
        }
        CutSize(lis, data[k + t + q..]);
      }
    }
  }

  /** And incomplete without a last length indicator. */
  lemma BodyWithoutEnd(egprs: bool, ti: bool, pi: bool, data: Octets)
    requires forall i | 0 <= i < |data| :: !Last(data[i])
    ensures ReadBody(egprs, false, ti, pi, data) == Incomplete
  {
    NoLast(egprs, data);
  }
}
