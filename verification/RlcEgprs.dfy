/** Uplink EGPRS data blocks behind headers that end in the middle of an octet, so that every octet of the data block
    lies across two (3GPP TS 44.060, sections 10.3a.2 and 10.3a.4). */
module RlcEgprs {
  import opened Numbers
  import opened Options
  import opened RlcBits
  import opened RlcUplink
  import opened RlcBlocks

  /** bsn2_offset is only there, and only written, with headers of type 1. */
  datatype UlEgprsBlock =
    UlEgprsBlock(mcs: CodingScheme, hdrtype: HeaderType, hdr: UlHeader, bsn2_offset: Option<nat>, tlli: Option<Tlli>,
                 pfi: Option<bv8>, blocks: Option<seq<LlcBlock>>)

  /** The schemes whose blocks the decoder takes to have a header of type 3. */
  predicate HasType3(mcs: CodingScheme) { mcs in {MCS_1, MCS_2, MCS_3, MCS_4} }

  /** Where setup_rlc_mac_priv has the data block start: 46, 37 and 31. */
  function Offset(b: UlEgprsBlock): (r: nat)
    ensures r >= 6
  {
    FirstOffset(b.hdrtype)
  }

  // ----- encoding

  /** TLLI octets last to first, as the encoder writes them. */
  function Reversed(tlli: Option<Tlli>): Option<Tlli> {
    if tlli.None? then None else Some([tlli.value[3], tlli.value[2], tlli.value[1], tlli.value[0]])
  }

  function TiE(ti: bool, e: bool): bv8 { OctetOf([e, ti, false, false, false, false, false, false]) }

  function DataBlock(b: UlEgprsBlock): (r: Octets)
    ensures r != []
  {
    [TiE(b.tlli.Some?, Unmarked(b.blocks))] + Body(true, OptionalTlli(Reversed(b.tlli)), b.pfi, b.blocks)
  }

  /** Only headers of type 1 ask for bsn2_offset. */
  predicate Encodable(b: UlEgprsBlock) { b.hdrtype == Type_1 ==> b.bsn2_offset.Some? }

  function Header(b: UlEgprsBlock): (r: Octets)
    requires Encodable(b)
    ensures |r| == HeaderOctets(Offset(b))
  {
    var h := b.hdr.(pfi_ind := b.pfi.Some?);
    match b.hdrtype
    case Type_1 => EncodeType1(h, b.bsn2_offset.value)
    case Type_2 => EncodeType2(h)
    case Type_3 => EncodeType3(h)
  }

  /** room and beyond: the memory behind the output buffer and behind the data block, of which put_egprs_data_block
      touches some. */
  predicate Memory(b: UlEgprsBlock, room: Octets, beyond: Octets) {
    Encodable(b) && Sized(Offset(b), Header(b), room, DataBlock(b), beyond)
  }

  function Placed(b: UlEgprsBlock, room: Octets, beyond: Octets): (r: Octets)
    requires Memory(b, room, beyond)
    ensures |r| == |Header(b)| + |DataBlock(b)|
  {
    Put(Offset(b), Header(b), room, DataBlock(b), beyond)
  }

  function EncodedEgprs(b: UlEgprsBlock, room: Octets, beyond: Octets): Octets
    requires Memory(b, room, beyond)
  {
    Placed(b, room, beyond) + Trailer(b.mcs, |Header(b)| + |DataBlock(b)|)
  }

  method enc__RlcmacUlEgprsDataBlock(b: UlEgprsBlock, room: Octets, beyond: Octets) returns (r: Octets)
    requires Memory(b, room, beyond)
    ensures r == EncodedEgprs(b, room, beyond)
  {
    hide Put, Body, Trailer, TiE, Header, Offset, Sized;
    var aligned_buffer: Octets := [TiE(b.tlli.Some?, Unmarked(b.blocks))];
    var body := put_body(true, OptionalTlli(Reversed(b.tlli)), b.pfi, b.blocks);
    aligned_buffer := aligned_buffer + body;
    var buffer := put_egprs_data_block(aligned_buffer, beyond, Offset(b), Header(b), room);
    r := encode_trailing_padding_spb(buffer, b.mcs);
  }

  // ----- headers of type 1 and 2 are damaged by the data block

  /** With type 1 the offset less the six spare bits is a whole number of octets, and the source copies over the
      buffer from its start: nothing of the header is left, nor are the first five octets of the data block. */
  lemma Type1HeaderOverwritten(b: UlEgprsBlock, room: Octets, beyond: Octets)
    requires Memory(b, room, beyond) && b.hdrtype == Type_1
    ensures Placed(b, room, beyond) == (DataBlock(b) + beyond)[5..5 + |Placed(b, room, beyond)|]
  {
    hide DataBlock, Header;
  }

  /** With type 2 the E bit of the data block lands on rsb and its TI bit on the PFI indicator. */
  lemma Type2HeaderDamaged(b: UlEgprsBlock, room: Octets, beyond: Octets)
    requires Memory(b, room, beyond) && b.hdrtype == Type_2
    ensures
      var r, o := Placed(b, room, beyond), Header(b);
      && r[..3] == o[..3]
      && Bit(r[3], 1) == (b.hdr.rsb || Unmarked(b.blocks))
      && Bit(r[3], 2) == (b.pfi.Some? || b.tlli.Some?)
  {
    hide Bit, TiE, Body, Or, And, Shl, Shr, EncodeType2;
    var h := b.hdr.(pfi_ind := b.pfi.Some?);
    var src := DataBlock(b)[0];
    TiEBits(b.tlli.Some?, Unmarked(b.blocks));
    Type2Flags(h);
    assert Offset(b) - 6 == 31;
    assert Placed(b, room, beyond)[3] == Or(Header(b)[3], Shl(src, 1));
    OrBit(Header(b)[3], Shl(src, 1), 1);
    OrBit(Header(b)[3], Shl(src, 1), 2);
    ShlBit(src, 1, 1);
    ShlBit(src, 1, 2);
  }

  lemma Type2Flags(h: UlHeader)
    ensures Bit(EncodeType2(h)[3], 1) == h.rsb && Bit(EncodeType2(h)[3], 2) == h.pfi_ind
  {
    hide OctetOf, Bit, Num, Drop;
    var b := Num(Drop(h.cps, 2), 1) + [h.rsb, h.pfi_ind] + Clear(5);
    OctetBitsOf(b);
    OctetBitsAt(OctetOf(b), 1);
    OctetBitsAt(OctetOf(b), 2);
  }

  lemma TiEBits(ti: bool, e: bool)
    ensures Bit(TiE(ti, e), 0) == e && Bit(TiE(ti, e), 1) == ti && forall j | 2 <= j < 8 :: !Bit(TiE(ti, e), j)
  {
    hide Bit, OctetOf;
    var b := [e, ti, false, false, false, false, false, false];
    OctetBitsOf(b);
    assert forall j | 0 <= j < 8 :: OctetBits(OctetOf(b))[j] == Bit(OctetOf(b), j);
  }

  // ----- decoding

  /** The offset that the decoder uses: the one of header type 3. */
  const OFFSET: nat := FirstOffset(Type_3)

  function Aligned3(stream: Octets): (r: Octets)
    requires HasType3(SchemeOf(|stream|))
    ensures |r| == DataBlockLen(SchemeOf(|stream|)) + 1
  {
    StreamIsLongEnough(stream);
    Got(stream, OFFSET, DataBlockLen(SchemeOf(|stream|)) + 1)
  }

  lemma StreamIsLongEnough(stream: Octets)
    requires HasType3(SchemeOf(|stream|))
    ensures
      var n := DataBlockLen(SchemeOf(|stream|)) + 1;
      |stream| == n + 4 == Needed(OFFSET - 6, n) && (6 + DataBlockBits(SchemeOf(|stream|)) + 7) / 8 == n
  {
  }

  /** None where the header's decoder is a stub, or where the length of the input stands for no EGPRS scheme: the
      header stays unbound, and the source asks for its type next. */
  function ReadEgprs(stream: Octets): Option<Decoded<UlEgprsBlock>> {
    if !HasType3(SchemeOf(|stream|)) then None else Some(ReadType3(stream))
  }

  function ReadType3(stream: Octets): Decoded<UlEgprsBlock>
    requires HasType3(SchemeOf(|stream|))
  {
    StreamIsLongEnough(stream);
    var hdr := DecodeType3(stream);
    var a := Aligned3(stream);
    var c := ReadBody(true, Bit(a[0], 0), Bit(a[0], 1), hdr.pfi_ind, a[1..]);
    if c.Decoded? then
      Decoded(UlEgprsBlock(SchemeOf(|stream|), Type_3, hdr, None, c.value.tlli, c.value.pfi, Some(c.value.blocks)))
    else if c.Incomplete? then Incomplete
    else OverRead
  }

  method dec__RlcmacUlEgprsDataBlock(stream: Octets) returns (r: Option<Decoded<UlEgprsBlock>>)
    ensures r == ReadEgprs(stream)
  {
    hide ReadBody, Got, DecodeType3, Bit, SchemeOf, DataBlockLen;
    var mcs := SchemeOf(|stream|);
    if !HasType3(mcs) {
      return None;
    }
    StreamIsLongEnough(stream);
    var hdr := DecodeType3(stream);
    var aligned_buffer := get_egprs_data_block(stream, OFFSET, DataBlockBits(mcs));
    var ti_e := aligned_buffer[0];
    var c := get_body(true, Bit(ti_e, 0), Bit(ti_e, 1), hdr.pfi_ind, aligned_buffer[1..]);
    match c
    case Incomplete => return Some(Incomplete);
    case OverRead => return Some(OverRead);
    case Decoded(v) => return Some(Decoded(UlEgprsBlock(mcs, Type_3, hdr, None, v.tlli, v.pfi, Some(v.blocks))));
  }

  // ----- round trip

  /** A block with a header of type 3 that fits into a scheme which has such headers. */
  predicate FitsType3(b: UlEgprsBlock) {
    b.hdrtype == Type_3 && HasType3(b.mcs) && InRange(b.hdr) && 4 + |DataBlock(b)| <= BlockLen(b.mcs)
  }

  /** A block that fits its scheme is as long as the scheme asks for, and behind its header, bit for bit, is its data
      block. */
  lemma DataBlockComesOut(b: UlEgprsBlock, room: Octets, beyond: Octets)
    requires Memory(b, room, beyond) && FitsType3(b)
    ensures SchemeOf(|EncodedEgprs(b, room, beyond)|) == b.mcs && |DataBlock(b)| <= DataBlockLen(b.mcs) + 1
    ensures Aligned3(EncodedEgprs(b, room, beyond))[..|DataBlock(b)|] == DataBlock(b)
    ensures DecodeType3(EncodedEgprs(b, room, beyond)) == b.hdr.(pfi_ind := b.pfi.Some?)
  {
    hide Bit, Put, Got, EncodeType3, DecodeType3, Body, TiE, Trailer, Pow2;
    var a := DataBlock(b);
    var h := b.hdr.(pfi_ind := b.pfi.Some?);
    TrailerSize(b.mcs, 4 + |a|);
    SchemeRoundTrip(b.mcs);
    var stream := EncodedEgprs(b, room, beyond);
    StreamIsLongEnough(stream);
    Type3RoundTrip(h);
    TiEBits(b.tlli.Some?, Unmarked(b.blocks));
    assert Clean(OFFSET, Header(b), a);
    GetAfterPut(OFFSET, Header(b), room, a, beyond, Trailer(b.mcs, 4 + |a|), DataBlockLen(b.mcs) + 1);
    HeaderComesOut(b, room, beyond);
  }

  lemma HeaderComesOut(b: UlEgprsBlock, room: Octets, beyond: Octets)
    requires Memory(b, room, beyond) && FitsType3(b)
    ensures DecodeType3(EncodedEgprs(b, room, beyond)) == b.hdr.(pfi_ind := b.pfi.Some?)
  {
    hide Bit, Put, EncodeType3, DecodeType3, Body, TiE, Trailer, Pow2, BitsOf;
    var h := b.hdr.(pfi_ind := b.pfi.Some?);
    Type3RoundTrip(h);
    TiEBits(b.tlli.Some?, Unmarked(b.blocks));
    PutBits(OFFSET, Header(b), room, DataBlock(b), beyond);
    var s, o := EncodedEgprs(b, room, beyond), EncodeType3(h);
    var p := Placed(b, room, beyond);
    assert p[0] == p[..3][0] == o[..3][0] && p[1] == p[..3][1] == o[..3][1] && p[2] == p[..3][2] == o[..3][2];
    SameHeader(s, o);
  }

  /** The decoder of the header does not look at the bit that the data block shares the last octet with. */
  lemma SameHeader(s: Octets, o: Octets)
    requires |s| >= 4 && |o| == 4 && s[..3] == o[..3]
    requires forall j | 0 <= j < 7 :: Bit(s[3], j) == Bit(o[3], j)
    ensures DecodeType3(s) == DecodeType3(o)
  {
    hide Bit, Val, Up;
    assert s[0] == s[..3][0] && s[1] == s[..3][1] && s[2] == s[..3][2];
    var d, e := OctetBits(s[3]), OctetBits(o[3]);
    assert d[..2] == e[..2] && d[2..4] == e[2..4];
  }

  /** What the decoder finds behind the data block in its last octets. */
  function Behind(b: UlEgprsBlock): nat
    requires FitsType3(b)
  {
    StreamFits(b);
    DataBlockLen(b.mcs) + 1 - |DataBlock(b)|
  }

  lemma StreamFits(b: UlEgprsBlock)
    requires FitsType3(b)
    ensures |DataBlock(b)| <= DataBlockLen(b.mcs) + 1
  {
    hide DataBlock;
  }

  /** The decoder's view of an encoded block: header, indicators and body, as they went in but for the TLLI, which only
      the encoder reverses. */
  lemma EgprsIsRead(b: UlEgprsBlock, room: Octets, beyond: Octets) returns (rest: Octets)
    requires Memory(b, room, beyond) && FitsType3(b)
    ensures |rest| == Behind(b)
    ensures ReadEgprs(EncodedEgprs(b, room, beyond)).Some?
    ensures
      var body := Body(true, OptionalTlli(Reversed(b.tlli)), b.pfi, b.blocks);
      var c := ReadBody(true, Unmarked(b.blocks), b.tlli.Some?, b.pfi.Some?, body + rest);
      var r := ReadEgprs(EncodedEgprs(b, room, beyond)).value;
      && r.Decoded? == c.Decoded?
      && (r.Decoded? ==>
            r.value == UlEgprsBlock(b.mcs, Type_3, b.hdr.(pfi_ind := b.pfi.Some?), None, c.value.tlli, c.value.pfi,
                                    Some(c.value.blocks)))
  {
    hide Bit, EncodedEgprs, Aligned3, DecodeType3, Body, ReadBody, TiE, SchemeOf, DataBlockLen;
    DataBlockComesOut(b, room, beyond);
    TiEBits(b.tlli.Some?, Unmarked(b.blocks));
    var a := DataBlock(b);
    var got := Aligned3(EncodedEgprs(b, room, beyond));
    rest := got[|a|..];
    var body := Body(true, OptionalTlli(Reversed(b.tlli)), b.pfi, b.blocks);
    assert got == a + rest;
    assert got[0] == a[0] && got[1..] == body + rest;
  }

  /** With length indicators everywhere or no blocks at all, the decoder gives back everything but the TLLI, which it
      leaves reversed; a single block without a length indicator ends in what fills the rest of the data block. */
  lemma UlEgprsRoundTrip(b: UlEgprsBlock, room: Octets, beyond: Octets)
    requires Memory(b, room, beyond) && FitsType3(b)
    requires b.blocks.None? || Unmarked(b.blocks) || Chain(true, b.blocks.value)
    ensures ReadEgprs(EncodedEgprs(b, room, beyond)).Some? && ReadEgprs(EncodedEgprs(b, room, beyond)).value.Decoded?
    ensures
      var r := ReadEgprs(EncodedEgprs(b, room, beyond)).value.value;
      && r == b.(hdr := b.hdr.(pfi_ind := b.pfi.Some?), bsn2_offset := None, tlli := Reversed(b.tlli),
                 blocks := r.blocks)
      && r.blocks.Some?
      && (b.blocks.None? ==> r.blocks.value == [LlcBlock(Some(Li(0, false, true)), [])])
      && (b.blocks.Some? && !Unmarked(b.blocks) ==> r.blocks == b.blocks)
      && (Unmarked(b.blocks) ==>
            |r.blocks.value| == 1 && r.blocks.value[0].hdr.None?
            && b.blocks.value[0].payload <= r.blocks.value[0].payload
            && |r.blocks.value[0].payload| == |b.blocks.value[0].payload| + Behind(b))
  {
    hide EncodedEgprs, ReadEgprs, Body, ReadBody, Chain, BlockLen, DataBlockLen, Memory, InRange, Reversed;
    var rest := EgprsIsRead(b, room, beyond);
    ReversedSome(b.tlli);
    if b.blocks.None? {
      NoneRoundTrip(true, Reversed(b.tlli), b.pfi, rest);
    } else if Unmarked(b.blocks) {
      assert b.blocks.value == [LlcBlock(None, b.blocks.value[0].payload)];
      WholeRoundTrip(true, Reversed(b.tlli), b.pfi, b.blocks.value[0].payload, rest);
    } else {
      BodyRoundTrip(true, Reversed(b.tlli), b.pfi, b.blocks.value, rest);
    }
  }

  lemma ReversedSome(tlli: Option<Tlli>)
    ensures Reversed(tlli).Some? == tlli.Some?
  {
  }

  /** A block comes back as it was, but for the PFI indicator set for it, exactly if it has no TLLI or one that reads
      the same in both directions, and its list survives with what is left of the data block behind it. */
  lemma UlEgprsSurvivesExactly(b: UlEgprsBlock, room: Octets, beyond: Octets)
    requires Memory(b, room, beyond) && FitsType3(b) && b.bsn2_offset.None?
    requires b.blocks.Some? && forall x | x in b.blocks.value :: x.hdr.Some? ==> LiFits(true, x.hdr.value)
    ensures ReadEgprs(EncodedEgprs(b, room, beyond)) == Some(Decoded(b.(hdr := b.hdr.(pfi_ind := b.pfi.Some?))))
            <==> Palindrome(b.tlli) && Survives(true, b.blocks.value, Behind(b))
  {
    hide EncodedEgprs, ReadEgprs, Body, ReadBody, BlockLen, DataBlockLen, Memory, InRange, Reversed, Survives, LiFits;
    var rest := EgprsIsRead(b, room, beyond);
    ReversedSome(b.tlli);
    ReversedFixed(b.tlli);
    SurvivesExactly(true, Reversed(b.tlli), b.pfi, b.blocks.value, rest, b.tlli);
    SurvivesExactly(true, Reversed(b.tlli), b.pfi, b.blocks.value, rest, Reversed(b.tlli));
  }

  predicate Palindrome(tlli: Option<Tlli>) {
    tlli.Some? ==> tlli.value[0] == tlli.value[3] && tlli.value[1] == tlli.value[2]
  }

  lemma ReversedFixed(tlli: Option<Tlli>)
    ensures Reversed(tlli) == tlli <==> Palindrome(tlli)
  {
    if tlli.Some? {
      var t := tlli.value;
      var r := [t[3], t[2], t[1], t[0]];
      if t[0] == t[3] && t[1] == t[2] {
        assert r == t;
      } else {
        assert r[0] != t[0] || r[1] != t[1];
      }
    }
  }
}
