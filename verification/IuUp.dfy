/** The checksums of the Iu user plane (3GPP TS 25.415, section 6.6.3): CRC-6 over the header, CRC-10 over the
    payload, both put into octets 2 and 3 of the frame. */
module IuUp {
  import opened Numbers
  import opened CrcTheory
  import opened Gf8
  import opened MsbBits
  import opened Options

  // ----- bits of octets, most significant first

  /** The octets as one bit sequence. */
  function Unpack(s: seq<bv8>): (r: Bits)
    ensures |r| == 8 * |s|
  {
    seq(8 * |s|, i requires 0 <= i < 8 * |s| => OctetBit(s[i / 8], i % 8))
  }

  function Shr8(o: bv8, n: nat): bv8
    requires n < 8
  {
    if n == 0 then o else if n == 1 then o >> 1 else if n == 2 then o >> 2 else if n == 3 then o >> 3 else
    if n == 4 then o >> 4 else if n == 5 then o >> 5 else if n == 6 then o >> 6 else o >> 7
  }

  /** The unpacked form of one bit: an octet 0 or 1. */
  function Ubit(b: bool): bv8 { if b then 1 else 0 }

  lemma ShiftedBit(o: bv8, k: nat)
    requires k < 8
    ensures Shr8(o, 7 - k) & 1 == Ubit(OctetBit(o, k))
  {
  }

  /** Unpacks num_bits bits from the octets at `from`. Asked for no bits at all, it reads one octet and writes one bit
      all the same. */
  method osmo_pbit2ubit(out: array<bv8>, mem: array<bv8>, from: nat, num_bits: nat) returns (count: nat)
    requires out != mem
    requires out.Length >= Max(num_bits, 1)
    requires 8 * (mem.Length - from) >= Max(num_bits, 1)
    modifies out
    ensures count == Max(num_bits, 1)
    ensures forall k :: 0 <= k < count ==> out[k] == Ubit(OctetBit(mem[from + k / 8], k % 8))
    ensures forall k :: count <= k < out.Length ==> out[k] == old(out[k])
  {
    hide OctetBit, Ubit, Shr8;
    var cur := 0;
    count := 0;
    for i := 0 to num_bits / 8 + 1
      invariant cur == 8 * i && (cur < num_bits || cur == 0)
      invariant forall k :: 0 <= k < cur ==> out[k] == Ubit(OctetBit(mem[from + k / 8], k % 8))
      invariant forall k :: cur <= k < out.Length ==> out[k] == old(out[k])
    {
      var byte := mem[from + i];
      for b := 0 to 8
        invariant cur == 8 * i + b && (cur < num_bits || cur == 0)
        invariant forall k :: 0 <= k < cur ==> out[k] == Ubit(OctetBit(mem[from + k / 8], k % 8))
        invariant forall k :: cur <= k < out.Length ==> out[k] == old(out[k])
      {
        ShiftedBit(byte, b);
        out[cur] := Shr8(byte, 7 - b) & 1;
        cur := cur + 1;
        if cur >= num_bits {
          return cur;
        }
      }
    }
    assert false;
  }

  // ----- the two bit-serial loops

  datatype Code8 = Code8(bits: bv8, poly: bv8, init: bv8, remainder: bv8)

  datatype Code16 = Code16(bits: bv16, poly: bv16, init: bv16, remainder: bv16)

  const HEADER_CODE: Code8 := Code8(6, 47, 0, 0)

  const DATA_CODE: Code16 := Code16(10, 563, 0, 0)

  /** The body of the loop of osmo_crc8gen_compute_bits. */
  function Iterate8(code: Code8, crc: bv8, bit: bv8): bv8
    requires 1 <= code.bits <= 8
  {
    var n := code.bits - 1;
    var c := crc ^ (bit << n);
    var d := if c & ((1 as bv8) << n) != 0 then (c << 1) ^ code.poly else c << 1;
    d & (((1 as bv8) << code.bits) - 1)
  }

  function Iterate16(code: Code16, crc: bv16, bit: bv16): bv16
    requires 1 <= code.bits <= 16
  {
    var n := code.bits - 1;
    var c := crc ^ (bit << n);
    var d := if c & ((1 as bv16) << n) != 0 then (c << 1) ^ code.poly else c << 1;
    d & (((1 as bv16) << code.bits) - 1)
  }

  function Run8(code: Code8, u: seq<bv8>): bv8
    requires 1 <= code.bits <= 8
  {
    if u == [] then code.init else Iterate8(code, Run8(code, u[..|u| - 1]), u[|u| - 1] & 1)
  }

  function Run16(code: Code16, u: seq<bv8>): bv16
    requires 1 <= code.bits <= 16
  {
    if u == [] then code.init else Iterate16(code, Run16(code, u[..|u| - 1]), (u[|u| - 1] & 1) as bv16)
  }

  method osmo_crc8gen_compute_bits(code: Code8, input: array<bv8>, len: nat) returns (crc: bv8)
    requires 1 <= code.bits <= 8 && len <= input.Length
    ensures crc == Run8(code, input[..len]) ^ code.remainder
  {
    hide Iterate8;
    crc := code.init;
    for i := 0 to len
      invariant crc == Run8(code, input[..i])
    {
      assert input[..i + 1][..i] == input[..i];
      crc := Iterate8(code, crc, input[i] & 1);
    }
    crc := crc ^ code.remainder;
  }

  method osmo_crc16gen_compute_bits(code: Code16, input: array<bv8>, len: nat) returns (crc: bv16)
    requires 1 <= code.bits <= 16 && len <= input.Length
    ensures crc == Run16(code, input[..len]) ^ code.remainder
  {
    hide Iterate16;
    crc := code.init;
    for i := 0 to len
      invariant crc == Run16(code, input[..i])
    {
      assert input[..i + 1][..i] == input[..i];
      crc := Iterate16(code, crc, (input[i] & 1) as bv16);
    }
    crc := crc ^ code.remainder;
  }

  // ----- the loops are the division registers of the two generators

  /** x^6 + x^5 + x^3 + x^2 + x + 1. */
  const G6: Bits := [true, false, true, true, true, true]

  /** x^10 + x^9 + x^5 + x^4 + x + 1. */
  const G10: Bits := [true, false, false, false, true, true, false, false, true, true]

  function Mask6(k: nat): bv8
    requires k < 6
  {
    if k == 0 then 0x20 else if k == 1 then 0x10 else if k == 2 then 0x08 else if k == 3 then 0x04 else
    if k == 4 then 0x02 else 0x01
  }

  function Mask10(k: nat): bv16
    requires k < 10
  {
    if k == 0 then 0x200 else if k == 1 then 0x100 else if k == 2 then 0x80 else if k == 3 then 0x40 else
    if k == 4 then 0x20 else if k == 5 then 0x10 else if k == 6 then 0x08 else if k == 7 then 0x04 else
    if k == 8 then 0x02 else 0x01
  }

  predicate Test8(c: bv8, m: bv8) { c & m != 0 }

  predicate Test16(c: bv16, m: bv16) { c & m != 0 }

  function Xor16(c: bv16, d: bv16): bv16 { c ^ d }

  function Register6(c: bv8): (r: Bits)
    ensures |r| == 6
  {
    seq(6, k requires 0 <= k < 6 => Test8(c, Mask6(k)))
  }

  function Register10(c: bv16): (r: Bits)
    ensures |r| == 10
  {
    seq(10, k requires 0 <= k < 10 => Test16(c, Mask10(k)))
  }

  /** The register without its top bit, moved up by one place. */
  function Up6(c: bv8): bv8 { (c << 1) & 0x3f }

  function Up10(c: bv16): bv16 { (c << 1) & 0x3ff }

  lemma Iterate6Form(crc: bv8, b: bool)
    requires crc < 0x40
    ensures Iterate8(HEADER_CODE, crc, Ubit(b))
         == if Test8(crc, 0x20) != b then Xor8(Up6(crc), 47) else Up6(crc)
    ensures Up6(crc) < 0x40 && Xor8(Up6(crc), 47) < 0x40
  {
  }

  lemma Iterate10Form(crc: bv16, b: bool)
    requires crc < 0x400
    ensures Iterate16(DATA_CODE, crc, Ubit(b) as bv16)
         == if Test16(crc, 0x200) != b then Xor16(Up10(crc), 563) else Up10(crc)
    ensures Up10(crc) < 0x400 && Xor16(Up10(crc), 563) < 0x400
  {
  }

  lemma Bits6(c: bv8, k: nat)
    requires k < 6
    ensures Test8(Up6(c), Mask6(k)) <==> k < 5 && Test8(c, Mask6(k + 1))
    ensures Test8(Xor8(c, 47), Mask6(k)) <==> Test8(c, Mask6(k)) != G6[k]
  {
    assert G6[k] <==> k != 1;
  }

  lemma Bits10(c: bv16, k: nat)
    requires k < 10
    ensures Test16(Up10(c), Mask10(k)) <==> k < 9 && Test16(c, Mask10(k + 1))
  {
    hide Test16, Up10;
    TestUp(c);
  }

  lemma TestUp(c: bv16)
    ensures Test16(Up10(c), 0x200) == Test16(c, 0x100) && Test16(Up10(c), 0x100) == Test16(c, 0x80)
    ensures Test16(Up10(c), 0x80) == Test16(c, 0x40) && Test16(Up10(c), 0x40) == Test16(c, 0x20)
    ensures Test16(Up10(c), 0x20) == Test16(c, 0x10) && Test16(Up10(c), 0x10) == Test16(c, 0x08)
    ensures Test16(Up10(c), 0x08) == Test16(c, 0x04) && Test16(Up10(c), 0x04) == Test16(c, 0x02)
    ensures Test16(Up10(c), 0x02) == Test16(c, 0x01) && !Test16(Up10(c), 0x01)
  {
  }

  lemma Bits10Subtract(c: bv16, k: nat)
    requires k < 10
    ensures Test16(Xor16(c, 563), Mask10(k)) <==> Test16(c, Mask10(k)) != G10[k]
  {
    assert G10[k] <==> k == 0 || k == 4 || k == 5 || k == 8 || k == 9;
  }

  lemma Iterate6IsStep(crc: bv8, b: bool)
    requires crc < 0x40
    ensures Iterate8(HEADER_CODE, crc, Ubit(b)) < 0x40
    ensures Register6(Iterate8(HEADER_CODE, crc, Ubit(b))) == Step(G6, Register6(crc), b)
  {
    hide Iterate8, Up6, Test8, Xor8, Mask6;
    Iterate6Form(crc, b);
    var next, step := Register6(Iterate8(HEADER_CODE, crc, Ubit(b))), Step(G6, Register6(crc), b);
    TopMasks();
    forall k | 0 <= k < 6
      ensures next[k] == step[k]
    {
      Bits6(crc, k);
      Bits6(Up6(crc), k);
    }
  }

  lemma TopMasks()
    ensures Mask6(0) == 0x20 && Mask10(0) == 0x200
  {
  }

  lemma Iterate10IsStep(crc: bv16, b: bool)
    requires crc < 0x400
    ensures Iterate16(DATA_CODE, crc, Ubit(b) as bv16) < 0x400
    ensures Register10(Iterate16(DATA_CODE, crc, Ubit(b) as bv16)) == Step(G10, Register10(crc), b)
  {
    hide Iterate16, Up10, Test16, Xor16, Mask10;
    Iterate10Form(crc, b);
    var next, step := Register10(Iterate16(DATA_CODE, crc, Ubit(b) as bv16)), Step(G10, Register10(crc), b);
    TopMasks();
    forall k | 0 <= k < 10
      ensures next[k] == step[k]
    {
      Bits10(crc, k);
      Bits10Subtract(Up10(crc), k);
    }
  }

  // ----- whole runs

  ghost predicate AreUbits(u: seq<bv8>) {
    forall k :: 0 <= k < |u| ==> u[k] < 2
  }

  function BitsOf(u: seq<bv8>): (r: Bits)
    ensures |r| == |u|
  {
    seq(|u|, k requires 0 <= k < |u| => u[k] == 1)
  }

  lemma UbitOf(o: bv8)
    requires o < 2
    ensures o & 1 == Ubit(o == 1)
  {
  }

  lemma {:induction false} Run6IsFeed(u: seq<bv8>)
    requires AreUbits(u)
    ensures Run8(HEADER_CODE, u) < 0x40
    ensures Register6(Run8(HEADER_CODE, u)) == Feed(G6, Zeros(6), BitsOf(u))
    decreases |u|
  {
    hide Iterate8, Register6, Ubit, Step;
    if u == [] {
      Register6Zero();
    } else {
      var v, o := u[..|u| - 1], u[|u| - 1];
      var reg := Register6(Run8(HEADER_CODE, v));
      Run6IsFeed(v);
      UbitOf(o);
      Iterate6IsStep(Run8(HEADER_CODE, v), o == 1);
      assert BitsOf(u) == BitsOf(v) + [o == 1];
      FeedAppend(G6, Zeros(6), BitsOf(v), [o == 1]);
      FeedOne(G6, reg, o == 1);
    }
  }

  lemma {:induction false} Run10IsFeed(u: seq<bv8>)
    requires AreUbits(u)
    ensures Run16(DATA_CODE, u) < 0x400
    ensures Register10(Run16(DATA_CODE, u)) == Feed(G10, Zeros(10), BitsOf(u))
    decreases |u|
  {
    hide Iterate16, Register10, Ubit, Step;
    if u == [] {
      Register10Zero();
    } else {
      var v, o := u[..|u| - 1], u[|u| - 1];
      var reg := Register10(Run16(DATA_CODE, v));
      Run10IsFeed(v);
      UbitOf(o);
      Iterate10IsStep(Run16(DATA_CODE, v), o == 1);
      assert BitsOf(u) == BitsOf(v) + [o == 1];
      FeedAppend(G10, Zeros(10), BitsOf(v), [o == 1]);
      FeedOne(G10, reg, o == 1);
    }
  }

  lemma FeedOne(g: Bits, reg: Bits, b: bool)
    requires |reg| == |g| > 0
    ensures Feed(g, reg, [b]) == Step(g, reg, b)
  {
    assert [b][1..] == [];
  }

  lemma Register6Zero()
    ensures Register6(0) == Zeros(6)
  {
  }

  lemma Register10Zero()
    ensures Register10(0) == Zeros(10)
  {
  }

  /** The two generators detect bursts as long as their degree and errors of odd weight. */
  lemma Generators()
    ensures |G6| == 6 && G6[5] && Parity(G6)
    ensures |G10| == 10 && G10[9] && Parity(G10)
  {
    assert G6[1..] == [false, true, true, true, true];
    assert G6[1..][1..] == [true, true, true, true];
    assert G10[1..] == [false, false, false, true, true, false, false, true, true];
    assert G10[1..][1..] == [false, false, true, true, false, false, true, true];
    assert G10[1..][1..][1..] == [false, true, true, false, false, true, true];
    assert G10[1..][1..][1..][1..] == [true, true, false, false, true, true];
  }

  // ----- frames

  /** -1 as a 32-bit int; checksums travel as such. */
  const NO_CRC: bv32 := 0xffff_ffff

  function PduType(o: bv8): bv8 { o >> 4 }

  function iuup_get_payload_offset(first: bv8): int {
    if PduType(first) == 0 || PduType(first) == 14 then 4 else if PduType(first) == 1 then 3 else -1
  }

  /** CRC-6 of a bit sequence as a number, and CRC-10. */
  function Crc6(m: seq<bv8>): bv8 { Run8(HEADER_CODE, Ubits(m)) }

  function Crc10(m: seq<bv8>): bv16 { Run16(DATA_CODE, Ubits(m)) }

  function Ubits(m: seq<bv8>): (u: seq<bv8>)
    ensures |u| == 8 * |m|
    ensures forall k :: 0 <= k < |u| ==> u[k] == Ubit(OctetBit(m[k / 8], k % 8))
  {
    seq(8 * |m|, k requires 0 <= k < 8 * |m| => Ubit(OctetBit(m[k / 8], k % 8)))
  }

  lemma UbitsAreUnpacked(m: seq<bv8>)
    ensures AreUbits(Ubits(m)) && BitsOf(Ubits(m)) == Unpack(m)
  {
  }

  /** The CRC loops over an octet string leave the remainder of its bits in the register. */
  lemma CrcIsRemainder(m: seq<bv8>, r6: Bits, r10: Bits)
    ensures Register6(Crc6(m)) == r6
       <==> exists q: Bits :: |q| == 8 * |m| && Divides(G6, Dividend(Zeros(6), Unpack(m)), q, r6)
    ensures Register10(Crc10(m)) == r10
       <==> exists q: Bits :: |q| == 8 * |m| && Divides(G10, Dividend(Zeros(10), Unpack(m)), q, r10)
  {
    hide *;
    UbitsAreUnpacked(m);
    Generators();
    Run6IsFeed(Ubits(m));
    Run10IsFeed(Ubits(m));
    CrcForm(m);
    RegisterIsRemainder(G6, Zeros(6), Unpack(m), r6);
    RegisterIsRemainder(G10, Zeros(10), Unpack(m), r10);
  }

  lemma CrcForm(m: seq<bv8>)
    ensures Crc6(m) == Run8(HEADER_CODE, Ubits(m)) && Crc10(m) == Run16(DATA_CODE, Ubits(m))
  {
  }

  function Wide(c: bv16): bv32 { c as bv32 }

  function Wide8(c: bv8): bv32 { c as bv32 }

  /** Both checksum functions: -1 for a frame that is too short or of an unknown type, 0 for the payload of type 1. */
  function HeaderCrc(pdu: seq<bv8>): bv32 {
    if |pdu| < 2 then NO_CRC else Wide8(Crc6(pdu[..2]))
  }

  function PayloadCrc(pdu: seq<bv8>): bv32 {
    if |pdu| < 1 then NO_CRC
    else if PduType(pdu[0]) == 1 then 0
    else
      var offset := iuup_get_payload_offset(pdu[0]);
      if offset < 0 || |pdu| < offset then NO_CRC else Wide(Crc10(pdu[offset..]))
  }

  /** The octets of the frame are mem[..pdu_len]. A frame that ends with its header is read one octet beyond its end,
      and the unpacking buffer holds 1024 payload octets. */
  predicate Readable(mem: seq<bv8>, pdu_len: nat) {
    && pdu_len <= |mem|
    && (pdu_len >= 4 && iuup_get_payload_offset(mem[0]) == 4 ==> pdu_len <= 1028 && |mem| > 4)
  }

  method osmo_iuup_compute_payload_crc(mem: array<bv8>, pdu_len: nat) returns (crc: bv32)
    requires Readable(mem[..], pdu_len)
    ensures crc == PayloadCrc(mem[..pdu_len])
  {
    hide OctetBit, Ubit, Crc10, Run16, PduType, Wide, Wide8;
    if pdu_len < 1 {
      return NO_CRC;
    }
    if PduType(mem[0]) == 1 {
      return 0;
    }
    var offset := iuup_get_payload_offset(mem[0]);
    if offset < 0 {
      return NO_CRC;
    }
    if pdu_len < offset {
      return NO_CRC;
    }
    var buf := new bv8[1024 * 8];
    var payload_len_bytes := pdu_len - offset;
    var _ := osmo_pbit2ubit(buf, mem, offset, payload_len_bytes * 8);
    var c := osmo_crc16gen_compute_bits(DATA_CODE, buf, payload_len_bytes * 8);
    assert buf[..payload_len_bytes * 8] == Ubits(mem[..pdu_len][offset..]);
    CrcForm(mem[..pdu_len][offset..]);
    NoFinalXor(0, c);
    crc := Wide(c);
  }

  method osmo_iuup_compute_header_crc(mem: array<bv8>, pdu_len: nat) returns (crc: bv32)
    requires pdu_len <= mem.Length
    ensures crc == HeaderCrc(mem[..pdu_len])
  {
    hide OctetBit, Ubit, Crc6, Run8, Wide8;
    if pdu_len < 2 {
      return NO_CRC;
    }
    var buf := new bv8[2 * 8];
    var _ := osmo_pbit2ubit(buf, mem, 0, 2 * 8);
    var c := osmo_crc8gen_compute_bits(HEADER_CODE, buf, 2 * 8);
    assert buf[..16] == Ubits(mem[..pdu_len][..2]);
    CrcForm(mem[..pdu_len][..2]);
    NoFinalXor(c, 0);
    crc := Wide8(c);
  }

  lemma NoFinalXor(a: bv8, b: bv16)
    ensures a ^ 0 == a && b ^ 0 == b
  {
  }

  // ----- the encoder

  /** Octets 2 and 3 as the encoder writes them. Negative checksums are cut like any other number. */
  function ChecksumHigh(crc_hdr: bv32, crc_payload: bv32): bv8 {
    (((crc_hdr & 0x3f) << 2) | ((crc_payload & 0x3ff) >> 8)) as bv8
  }

  function ChecksumLow(crc_payload: bv32): bv8 { (crc_payload & 0xff) as bv8 }

  /** The frame with its checksums; frames of less than four octets have no place for them. */
  function Encode(raw: seq<bv8>): Option<seq<bv8>> {
    if |raw| < 4 then None
    else Some(raw[..2] + [ChecksumHigh(HeaderCrc(raw), PayloadCrc(raw)), ChecksumLow(PayloadCrc(raw))] + raw[4..])
  }

  method f__enc__IuUP__PDU(mem: array<bv8>, len: nat) returns (ret_val: Option<seq<bv8>>)
    requires Readable(mem[..], len)
    ensures ret_val == Encode(mem[..len])
  {
    hide HeaderCrc, PayloadCrc;
    var crc_hdr := osmo_iuup_compute_header_crc(mem, len);
    var crc_payload := osmo_iuup_compute_payload_crc(mem, len);
    var CHECKSUM := [ChecksumHigh(crc_hdr, crc_payload), ChecksumLow(crc_payload)];
    if len < 4 {
      return None;
    }
    ret_val := Some(mem[..len][..2] + CHECKSUM + mem[..len][4..]);
  }

  predicate HasBothCrcs(o: bv8) { PduType(o) == 0 || PduType(o) == 14 }

  /** Bit k of the header checksum is bit k of octet 2; bit k of the payload checksum is bit 6 + k of octets 2 and 3. */
  lemma ChecksumBits6(c6: bv8, c10: bv16, k: nat)
    requires k < 6 && c6 < 0x40 && c10 < 0x400
    ensures OctetBit(ChecksumHigh(Wide8(c6), Wide(c10)), k) <==> Test8(c6, Mask6(k))
  {
  }

  lemma ChecksumBits10(c6: bv8, c10: bv16, k: nat)
    requires k < 10 && c6 < 0x40 && c10 < 0x400
    ensures k < 2 ==> (OctetBit(ChecksumHigh(Wide8(c6), Wide(c10)), 6 + k) <==> Test16(c10, Mask10(k)))
    ensures k >= 2 ==> (OctetBit(ChecksumLow(Wide(c10)), k - 2) <==> Test16(c10, Mask10(k)))
  {
  }

  lemma ChecksumFields(c6: bv8, c10: bv16)
    requires c6 < 0x40 && c10 < 0x400
    ensures ChecksumHigh(Wide8(c6), Wide(c10)) >> 2 == c6
    ensures ((ChecksumHigh(Wide8(c6), Wide(c10)) & 3) as bv16 << 8) | (ChecksumLow(Wide(c10)) as bv16) == c10
  {
  }

  /** For the types that carry both checksums, the encoder changes nothing but octets 2 and 3, and what it puts there
      are the checksums of the frame it returns. */
  lemma EncodedFields(raw: seq<bv8>)
    requires |raw| >= 4 && HasBothCrcs(raw[0])
    ensures Encode(raw).Some?
    ensures var out := Encode(raw).value;
            && |out| == |raw| && out[..2] == raw[..2] && out[4..] == raw[4..]
            && HeaderCrc(out) == Wide8(out[2] >> 2)
            && PayloadCrc(out) == Wide(((out[2] & 3) as bv16 << 8) | (out[3] as bv16))
  {
    hide *;
    var h, p := Crc6(raw[..2]), Crc10(raw[4..]);
    EncodeForm(raw);
    CrcBounds(raw[..2], raw[4..]);
    ChecksumFields(h, p);
    var out := Encode(raw).value;
    assert out[..2] == raw[..2] && out[4..] == raw[4..] && out[0] == raw[0];
    FrameCrcs(out);
  }

  lemma EncodeForm(raw: seq<bv8>)
    requires |raw| >= 4 && HasBothCrcs(raw[0])
    ensures Encode(raw) == Some(raw[..2] + [ChecksumHigh(Wide8(Crc6(raw[..2])), Wide(Crc10(raw[4..]))),
                                            ChecksumLow(Wide(Crc10(raw[4..])))] + raw[4..])
  {
    hide Wide8, Wide, Crc6, Crc10, ChecksumHigh, ChecksumLow, HeaderCrc, PayloadCrc, HasBothCrcs;
    FrameCrcs(raw);
  }

  lemma FrameCrcs(pdu: seq<bv8>)
    requires |pdu| >= 4 && HasBothCrcs(pdu[0])
    ensures HeaderCrc(pdu) == Wide8(Crc6(pdu[..2])) && PayloadCrc(pdu) == Wide(Crc10(pdu[4..]))
  {
    hide Wide8, Wide, Crc6, Crc10, PduType;
  }

  lemma CrcBounds(h: seq<bv8>, p: seq<bv8>)
    ensures Crc6(h) < 0x40 && Crc10(p) < 0x400
    ensures Register6(Crc6(h)) == Feed(G6, Zeros(6), Unpack(h))
    ensures Register10(Crc10(p)) == Feed(G10, Zeros(10), Unpack(p))
  {
    hide *;
    UbitsAreUnpacked(h);
    UbitsAreUnpacked(p);
    Run6IsFeed(Ubits(h));
    Run10IsFeed(Ubits(p));
    CrcForm(h);
    CrcForm(p);
  }

  /** A receiver that runs the registers over header and embedded CRC-6, and over payload and embedded CRC-10, ends at
      zero on every encoded frame. */
  lemma EncodedFrameChecks(raw: seq<bv8>)
    requires |raw| >= 4 && HasBothCrcs(raw[0])
    ensures Encode(raw).Some?
    ensures Feed(G6, Zeros(6), Unpack(Encode(raw).value)[..22]) == Zeros(6)
    ensures Feed(G10, Zeros(10), Unpack(Encode(raw).value[4..]) + Unpack(Encode(raw).value)[22..32]) == Zeros(10)
  {
    hide *;
    EncodeForm(raw);
    var out := Encode(raw).value;
    var c6, c10 := Crc6(raw[..2]), Crc10(raw[4..]);
    assert out[4..] == raw[4..];
    CrcBounds(raw[..2], raw[4..]);
    EmbeddedBits(raw, c6, c10);
    assert Unpack(out)[..22] == Unpack(raw[..2]) + Register6(c6) by {
      UnpackPrefix(out, raw[..2]);
    }
    Generators();
    CodewordHasZeroRemainder(G6, Zeros(6), Unpack(raw[..2]));
    CodewordHasZeroRemainder(G10, Zeros(10), Unpack(raw[4..]));
  }

  lemma UnpackPrefix(s: seq<bv8>, p: seq<bv8>)
    requires p <= s
    ensures Unpack(s)[..8 * |p|] == Unpack(p)
  {
    hide OctetBit;
  }

  lemma EmbeddedBits(raw: seq<bv8>, c6: bv8, c10: bv16)
    requires |raw| >= 4 && HasBothCrcs(raw[0])
    requires c6 == Crc6(raw[..2]) && c10 == Crc10(raw[4..])
    ensures Unpack(Encode(raw).value)[16..22] == Register6(c6)
    ensures Unpack(Encode(raw).value)[22..32] == Register10(c10)
  {
    hide Crc6, Crc10, ChecksumHigh, ChecksumLow, OctetBit, Test8, Test16, Mask6, Mask10, Encode, HasBothCrcs;
    hide Wide, Wide8;
    EncodeForm(raw);
    var out := Encode(raw).value;
    CrcBounds(raw[..2], raw[4..]);
    forall k | 0 <= k < 6
      ensures Unpack(out)[16..22][k] == Register6(c6)[k]
    {
      assert (16 + k) / 8 == 2 && (16 + k) % 8 == k;
      assert Unpack(out)[16..22][k] == OctetBit(out[2], k);
      ChecksumBits6(c6, c10, k);
    }
    forall k | 0 <= k < 10
      ensures Unpack(out)[22..32][k] == Register10(c10)[k]
    {
      if k < 2 {
        assert (22 + k) / 8 == 2 && (22 + k) % 8 == 6 + k;
        assert Unpack(out)[22..32][k] == OctetBit(out[2], 6 + k);
      } else {
        assert (22 + k) / 8 == 3 && (22 + k) % 8 == k - 2;
        assert Unpack(out)[22..32][k] == OctetBit(out[3], k - 2);
      }
      ChecksumBits10(c6, c10, k);
    }
  }

  /** Frames of type 1 have their payload from octet 3 on, and no payload checksum; the encoder writes into that octet
      all the same. The payload comes through exactly if its first octet is 0. */
  lemma TypeOnePayload(raw: seq<bv8>)
    requires |raw| >= 4 && PduType(raw[0]) == 1
    ensures Encode(raw).Some?
    ensures Encode(raw).value[3..] == raw[3..] <==> raw[3] == 0
  {
    hide HeaderCrc, PduType, ChecksumHigh;
    var out := Encode(raw).value;
    assert PayloadCrc(raw) == 0;
    assert out[3] == ChecksumLow(0) == 0;
    assert out[3..] == [out[3]] + out[4..] && raw[3..] == [raw[3]] + raw[4..];
    assert out[4..] == raw[4..];
    assert out[3..][0] == out[3] && raw[3..][0] == raw[3];
  }

  /** Two payloads that differ within one window of at most ten bits, wherever it lies and whatever surrounds it, get
      different checksums. */
  lemma PayloadBurstDetected(m: seq<bv8>, m': seq<bv8>, before: Bits, d: Bits, d': Bits, after: Bits)
    requires |d| == |d'| <= 10 && d != d'
    requires Unpack(m) == before + d + after && Unpack(m') == before + d' + after
    ensures Crc10(m) != Crc10(m')
  {
    hide *;
    Generators();
    CrcBounds([], m);
    CrcBounds([], m');
    BurstDetected(G10, Zeros(10), before, d, d', after);
  }

  lemma HeaderBurstDetected(m: seq<bv8>, m': seq<bv8>, before: Bits, d: Bits, d': Bits, after: Bits)
    requires |d| == |d'| <= 6 && d != d'
    requires Unpack(m) == before + d + after && Unpack(m') == before + d' + after
    ensures Crc6(m) != Crc6(m')
  {
    hide *;
    Generators();
    CrcBounds(m, []);
    CrcBounds(m', []);
    BurstDetected(G6, Zeros(6), before, d, d', after);
  }

  /** An odd number of flipped bits changes both checksums: x + 1 divides both generators. */
  lemma OddDamageDetected(m: seq<bv8>, m': seq<bv8>, e: Bits)
    requires |m| == |m'| && |e| == 8 * |m| && Parity(e)
    requires Unpack(m') == Xor(Unpack(m), e)
    ensures Crc6(m) != Crc6(m') && Crc10(m) != Crc10(m')
  {
    hide *;
    Generators();
    CrcBounds(m, m);
    CrcBounds(m', m');
    OddErrorDetected(G6, Zeros(6), Unpack(m), e);
    OddErrorDetected(G10, Zeros(10), Unpack(m), e);
  }
}
