/** Octets as bits, least significant first, and the shifts that move RLC data blocks between octet boundaries
    (3GPP TS 44.060, sections 10.3a.2 and 10.3a.4). */
module RlcBits {
  import opened Numbers

  type Octets = seq<bv8>

  // ----- octets, bit by bit

  function Or(a: bv8, b: bv8): bv8 { a | b }

  function And(a: bv8, b: bv8): bv8 { a & b }

  /** c >> e. */
  function Shr(c: bv8, e: nat): bv8
    requires e <= 8
  {
    if e == 0 then c
    else if e == 1 then c >> 1
    else if e == 2 then c >> 2
    else if e == 3 then c >> 3
    else if e == 4 then c >> 4
    else if e == 5 then c >> 5
    else if e == 6 then c >> 6
    else if e == 7 then c >> 7
    else 0
  }

  /** The low eight bits of c << e. */
  function Shl(c: bv8, e: nat): bv8
    requires e <= 8
  {
    if e == 0 then c
    else if e == 1 then c << 1
    else if e == 2 then c << 2
    else if e == 3 then c << 3
    else if e == 4 then c << 4
    else if e == 5 then c << 5
    else if e == 6 then c << 6
    else if e == 7 then c << 7
    else 0
  }

  function Mask(j: nat): bv8
    requires j < 8
  {
    if j == 0 then 0x01
    else if j == 1 then 0x02
    else if j == 2 then 0x04
    else if j == 3 then 0x08
    else if j == 4 then 0x10
    else if j == 5 then 0x20
    else if j == 6 then 0x40
    else 0x80
  }

  predicate Test(c: bv8, m: bv8) { c & m != 0 }

  predicate Bit(c: bv8, j: nat)
    requires j < 8
  {
    Test(c, Mask(j))
  }

  lemma OrBit(a: bv8, b: bv8, j: nat)
    requires j < 8
    ensures Bit(Or(a, b), j) <==> Bit(a, j) || Bit(b, j)
  {
    hide Mask, Or, Test;
    OrTest(a, b, Mask(j));
  }

  lemma OrTest(a: bv8, b: bv8, m: bv8)
    ensures Test(Or(a, b), m) <==> Test(a, m) || Test(b, m)
  {
  }

  lemma AndBit(a: bv8, b: bv8, j: nat)
    requires j < 8
    ensures Bit(And(a, b), j) <==> Bit(a, j) && Bit(b, j)
  {
  }

  lemma ShrBit(c: bv8, e: nat, j: nat)
    requires e <= 8 && j < 8
    ensures Bit(Shr(c, e), j) <==> j + e < 8 && Bit(c, j + e)
  {
  }

  lemma ShlBit(c: bv8, e: nat, j: nat)
    requires e <= 8 && j < 8
    ensures Bit(Shl(c, e), j) <==> j >= e && Bit(c, j - e)
  {
  }

  lemma SameBits(a: bv8, b: bv8)
    requires forall j | 0 <= j < 8 :: Bit(a, j) == Bit(b, j)
    ensures a == b
  {
    assert Bit(a, 0) == Bit(b, 0) && Bit(a, 1) == Bit(b, 1) && Bit(a, 2) == Bit(b, 2) && Bit(a, 3) == Bit(b, 3);
    assert Bit(a, 4) == Bit(b, 4) && Bit(a, 5) == Bit(b, 5) && Bit(a, 6) == Bit(b, 6) && Bit(a, 7) == Bit(b, 7);
  }

  // ----- octet strings as bit strings

  /** The bits of octets, the least significant of each octet first. */
  function BitsOf(s: Octets): (r: seq<bool>)
    ensures |r| == 8 * |s|
  {
    seq(8 * |s|, k requires 0 <= k < 8 * |s| => Bit(s[k / 8], k % 8))
  }

  /** The octet that has the upper bits of one octet at its lower end and goes on with the next. */
  function Merge(last: bv8, c: bv8, e: nat): bv8
    requires e <= 8
  {
    Or(Shr(last, e), Shl(c, 8 - e))
  }

  lemma MergeBit(last: bv8, c: bv8, e: nat, j: nat)
    requires e < 8 && j < 8
    ensures Bit(Merge(last, c, e), j) == if j + e < 8 then Bit(last, j + e) else Bit(c, j + e - 8)
  {
    hide Or, Shr, Shl, Bit;
    OrBit(Shr(last, e), Shl(c, 8 - e), j);
    ShrBit(last, e, j);
    ShlBit(c, 8 - e, j);
  }

  /** So many octets have to be there to read n of them from a bit offset. */
  function Needed(offset: nat, n: nat): nat { offset / 8 + n + if offset % 8 == 0 then 0 else 1 }

  function Aligned(src: Octets, offset: nat, n: nat): (r: Octets)
    requires |src| >= Needed(offset, n)
    ensures |r| == n
  {
    var h, e := offset / 8, offset % 8;
    if e == 0 then src[h..h + n]
    else seq(n, i requires 0 <= i < n => Merge(src[h + i], src[h + i + 1], e))
  }

  method clone_aligned_buffer_lsbf(offset_bits: nat, length_bytes: nat, src: Octets, buffer: array<bv8>)
    requires |src| >= Needed(offset_bits, length_bytes) && buffer.Length >= length_bytes
    modifies buffer
    ensures buffer[..length_bytes] == Aligned(src, offset_bits, length_bytes)
    ensures buffer[length_bytes..] == old(buffer[length_bytes..])
  {
    hide Or, Shr, Shl;
    var hdr_bytes := offset_bits / 8;
    var extra_bits := offset_bits % 8;
    if extra_bits == 0 {
      forall i | 0 <= i < length_bytes {
        buffer[i] := src[hdr_bytes + i];
      }
      return;
    }
    var last_c := src[hdr_bytes];
    var i := 0;
    while i < length_bytes
      invariant 0 <= i <= length_bytes
      invariant last_c == src[hdr_bytes + i]
      invariant forall k | 0 <= k < i :: buffer[k] == Merge(src[hdr_bytes + k], src[hdr_bytes + k + 1], extra_bits)
      invariant buffer[length_bytes..] == old(buffer[length_bytes..])
    {
      var c := src[hdr_bytes + 1 + i];
      buffer[i] := Or(Shr(last_c, extra_bits), Shl(c, 8 - extra_bits));
      last_c := c;
      i := i + 1;
    }
  }

  lemma BitsAt(s: Octets, i: nat, j: nat)
    requires i < |s| && j < 8
    ensures 8 * i + j < 8 * |s| && BitsOf(s)[8 * i + j] == Bit(s[i], j)
  {
    hide Bit;
    assert (8 * i + j) / 8 == i && (8 * i + j) % 8 == j;
  }

  lemma AlignedBit(src: Octets, offset: nat, n: nat, i: nat, j: nat)
    requires |src| >= Needed(offset, n) && i < n && j < 8
    ensures
      var h, e := offset / 8, offset % 8;
      Bit(Aligned(src, offset, n)[i], j) == if j + e < 8 then Bit(src[h + i], j + e) else Bit(src[h + i + 1], j + e - 8)
  {
    hide Bit, Merge;
    var h, e := offset / 8, offset % 8;
    if e != 0 {
      MergeBit(src[h + i], src[h + i + 1], e, j);
    }
  }

  lemma AlignedBitOf(src: Octets, offset: nat, n: nat, i: nat, j: nat)
    requires |src| >= Needed(offset, n) && i < n && j < 8
    ensures offset + 8 * i + j < 8 * |src|
    ensures Bit(Aligned(src, offset, n)[i], j) == BitsOf(src)[offset + 8 * i + j]
  {
    hide Bit, BitsOf, Aligned;
    AlignedBit(src, offset, n, i, j);
    var h, e := offset / 8, offset % 8;
    assert offset == 8 * h + e;
    if j + e < 8 {
      BitsAt(src, h + i, j + e);
    } else {
      BitsAt(src, h + i + 1, j + e - 8);
    }
  }

  /** Whatever the offset, aligned or not, the copy is the slice of the source's bits that starts there. */
  lemma AlignedIsSlice(src: Octets, offset: nat, n: nat)
    requires |src| >= Needed(offset, n)
    ensures offset + 8 * n <= 8 * |src|
    ensures BitsOf(Aligned(src, offset, n)) == BitsOf(src)[offset..offset + 8 * n]
  {
    hide Bit, BitsOf, Aligned;
    var a := Aligned(src, offset, n);
    assert offset == 8 * (offset / 8) + offset % 8;
    forall k | 0 <= k < 8 * n
      ensures BitsOf(a)[k] == BitsOf(src)[offset..offset + 8 * n][k]
    {
      var i, j := k / 8, k % 8;
      assert k == 8 * i + j;
      BitsAt(a, i, j);
      AlignedBitOf(src, offset, n, i, j);
    }
  }

  // ----- taking a data block out

  /** The block's first two bits (TI and E) alone in the first octet, then octet after octet. */
  function Got(orig: Octets, offset: nat, n: nat): (r: Octets)
    requires offset >= 6 && n >= 1 && |orig| >= Needed(offset - 6, n)
    ensures |r| == n
  {
    var a := Aligned(orig, offset - 6, n);
    a[0 := Shr(a[0], 6)]
  }

  method get_egprs_data_block(orig: Octets, offset_bits: nat, length_bits: nat) returns (dst: Octets)
    requires offset_bits >= 6 && |orig| >= Needed(offset_bits - 6, (6 + length_bits + 7) / 8)
    ensures dst == Got(orig, offset_bits, (6 + length_bits + 7) / 8)
  {
    hide Aligned, Shr;
    var initial_spare_bits := 6;
    var length_bytes := (initial_spare_bits + length_bits + 7) / 8;
    var aligned_buf := new bv8[length_bytes];
    clone_aligned_buffer_lsbf(offset_bits - initial_spare_bits, length_bytes, orig, aligned_buf);
    assert aligned_buf[..] == aligned_buf[..length_bytes];
    aligned_buf[0] := Shr(aligned_buf[0], initial_spare_bits);
    dst := aligned_buf[..];
  }

  /** In bits: two bits at the offset, six zeros, and the bits behind the two. */
  lemma GotBits(orig: Octets, offset: nat, n: nat)
    requires offset >= 6 && n >= 1 && |orig| >= Needed(offset - 6, n)
    ensures offset - 6 + 8 * n <= 8 * |orig|
    ensures BitsOf(Got(orig, offset, n)) == BitsOf(orig)[offset..offset + 2] + seq(6, _ => false)
                                            + BitsOf(orig)[offset + 2..offset - 6 + 8 * n]
  {
    hide Bit, BitsOf, Aligned, Got;
    AlignedIsSlice(orig, offset - 6, n);
    var r := BitsOf(orig)[offset..offset + 2] + seq(6, _ => false) + BitsOf(orig)[offset + 2..offset - 6 + 8 * n];
    forall k | 0 <= k < 8 * n
      ensures BitsOf(Got(orig, offset, n))[k] == r[k]
    {
      var i, j := k / 8, k % 8;
      assert k == 8 * i + j;
      BitsAt(Got(orig, offset, n), i, j);
      GotBit(orig, offset, n, i, j);
    }
  }

  lemma GotBit(orig: Octets, offset: nat, n: nat, i: nat, j: nat)
    requires offset >= 6 && n >= 1 && |orig| >= Needed(offset - 6, n) && i < n && j < 8
    ensures offset - 6 + 8 * n <= 8 * |orig|
    ensures i == 0 ==> Bit(Got(orig, offset, n)[0], j) == (j < 2 && BitsOf(orig)[offset + j])
    ensures i > 0 ==> Bit(Got(orig, offset, n)[i], j) == BitsOf(orig)[offset - 6 + 8 * i + j]
  {
    hide Bit, BitsOf, Aligned;
    AlignedIsSlice(orig, offset - 6, n);
    if i == 0 {
      ShrBit(Aligned(orig, offset - 6, n)[0], 6, j);
      if j < 2 {
        AlignedBitOf(orig, offset - 6, n, 0, j + 6);
      }
    } else {
      AlignedBitOf(orig, offset - 6, n, i, j);
    }
  }

  // ----- putting a data block in

  /** What the loop leaves in octet k, before the first two octets are written again. */
  function Shifted(mem: Octets, src: Octets, h: nat, e: nat, n: nat, k: nat): bv8
    requires k < |mem| && h < |mem| && 1 <= e < 8 && |src| >= n
  {
    if k < h || k > h + n then mem[k]
    else
      var last := if k == h then Shl(mem[h], 8 - e) else src[k - h - 1];
      if k == h + n then Or(And(mem[k], Shl(0xff, e)), Shr(last, 8 - e)) else Or(Shr(last, 8 - e), Shl(src[k - h], e))
  }

  predicate Room(mem: Octets, src: Octets, offset: nat, n: nat) {
    var h, e := offset / 8, offset % 8;
    if e == 0 then |src| >= h + n && |mem| >= n
    else |src| >= n && |src| >= 1 && |mem| >= h + n + 1 && |mem| >= h + 2
  }

  function ShiftedAll(mem: Octets, src: Octets, h: nat, e: nat, n: nat): (r: Octets)
    requires h < |mem| && 1 <= e < 8 && |src| >= n
    ensures |r| == |mem|
  {
    seq(|mem|, k requires 0 <= k < |mem| => Shifted(mem, src, h, e, n, k))
  }

  function Unaligned(mem: Octets, src: Octets, offset: nat, n: nat): (r: Octets)
    requires Room(mem, src, offset, n)
    ensures |r| == |mem|
  {
    var h, e := offset / 8, offset % 8;
    if e == 0 then src[h..h + n] + mem[n..]
    else
      var s := ShiftedAll(mem, src, h, e, n);
      s[h := Or(mem[h], Shl(src[0], 8 - e))]
       [h + 1 := Or(s[h + 1], And(Shr(src[0], e), Shr(0xff, 8 - e)))]
  }

  lemma ShiftedInside(mem: Octets, src: Octets, h: nat, e: nat, n: nat, i: nat)
    requires h + n < |mem| && 1 <= e < 8 && |src| >= n && i <= n
    ensures
      var last := if i == 0 then Shl(mem[h], 8 - e) else src[i - 1];
      ShiftedAll(mem, src, h, e, n)[h + i]
      == if i == n then Or(And(mem[h + n], Shl(0xff, e)), Shr(last, 8 - e)) else Or(Shr(last, 8 - e), Shl(src[i], e))
  {
    hide Or, And, Shr, Shl;
  }

  lemma ShiftedOutside(mem: Octets, src: Octets, h: nat, e: nat, n: nat)
    requires h + n < |mem| && 1 <= e < 8 && |src| >= n
    ensures forall k | 0 <= k < |mem| :: k < h || k > h + n ==> ShiftedAll(mem, src, h, e, n)[k] == mem[k]
  {
    hide Or, And, Shr, Shl;
  }

  /** The loop, and the last octet after it. */
  method shift_in(hdr_bytes: nat, extra_bits: nat, length_bytes: nat, src: Octets, buffer: array<bv8>)
    requires 1 <= extra_bits < 8 && |src| >= length_bytes && hdr_bytes + length_bytes < buffer.Length
    modifies buffer
    ensures buffer[..] == ShiftedAll(old(buffer[..]), src, hdr_bytes, extra_bits, length_bytes)
  {
    hide Or, And, Shr, Shl, ShiftedAll;
    ghost var mem := buffer[..];
    ghost var all := ShiftedAll(mem, src, hdr_bytes, extra_bits, length_bytes);
    ShiftedOutside(mem, src, hdr_bytes, extra_bits, length_bytes);
    var dst := hdr_bytes;
    var last_c := Shl(buffer[dst], 8 - extra_bits);
    var i := 0;
    while i < length_bytes
      invariant 0 <= i <= length_bytes && dst == hdr_bytes + i
      invariant last_c == if i == 0 then Shl(mem[hdr_bytes], 8 - extra_bits) else src[i - 1]
      invariant forall k | 0 <= k < dst :: buffer[k] == all[k]
      invariant forall k | dst <= k < buffer.Length :: buffer[k] == mem[k]
    {
      var c := src[i];
      ShiftedInside(mem, src, hdr_bytes, extra_bits, length_bytes, i);
      buffer[dst] := Or(Shr(last_c, 8 - extra_bits), Shl(c, extra_bits));
      dst := dst + 1;
      last_c := c;
      i := i + 1;
    }
    ShiftedInside(mem, src, hdr_bytes, extra_bits, length_bytes, i);
    buffer[dst] := Or(And(buffer[dst], Shl(0xff, extra_bits)), Shr(last_c, 8 - extra_bits));
  }

  method clone_unaligned_buffer_lsbf(offset_bits: nat, length_bytes: nat, src: Octets, buffer: array<bv8>)
    requires Room(buffer[..], src, offset_bits, length_bytes)
    modifies buffer
    ensures buffer[..] == Unaligned(old(buffer[..]), src, offset_bits, length_bytes)
  {
    hide Or, And, Shr, Shl, ShiftedAll;
    var hdr_bytes := offset_bits / 8;
    var extra_bits := offset_bits % 8;
    ghost var mem := buffer[..];
    if extra_bits == 0 {
      forall i | 0 <= i < length_bytes {
        buffer[i] := src[hdr_bytes + i];
      }
      assert buffer[..] == src[hdr_bytes..hdr_bytes + length_bytes] + mem[length_bytes..];
      return;
    }
    var last_hdr_c := buffer[hdr_bytes];
    shift_in(hdr_bytes, extra_bits, length_bytes, src, buffer);
    var dst := hdr_bytes;
    buffer[dst] := Or(last_hdr_c, Shl(src[0], 8 - extra_bits));
    dst := dst + 1;
    buffer[dst] := Or(buffer[dst], And(Shr(src[0], extra_bits), Shr(0xff, 8 - extra_bits)));
  }

  /** The octets that a header of so many bits takes. */
  function HeaderOctets(bits: nat): nat { (bits + 7) / 8 }

  /** What put_egprs_data_block finds: the header and the room behind it in the buffer, the block and what lies behind
      it in memory, which the source reads because it asks for the block's length and the header's together. */
  predicate Sized(offset: nat, header: Octets, room: Octets, block: Octets, beyond: Octets) {
    && offset >= 6 && |header| == HeaderOctets(offset) && block != []
    && |room| >= |header| + |block| && |beyond| >= 2 * |header|
  }

  function Put(offset: nat, header: Octets, room: Octets, block: Octets, beyond: Octets): (r: Octets)
    requires Sized(offset, header, room, block, beyond)
    ensures |r| == |header| + |block|
  {
    Unaligned(header + room, block + beyond, offset - 6, |header| + |block|)[..|header| + |block|]
  }

  method put_egprs_data_block(block: Octets, beyond: Octets, offset_bits: nat, header: Octets, room: Octets)
    returns (dst: Octets)
    requires Sized(offset_bits, header, room, block, beyond)
    ensures dst == Put(offset_bits, header, room, block, beyond)
  {
    hide Unaligned;
    var initial_spare_bits := 6;
    var tmplen := |header|;
    var length_bytes := tmplen + |block|;
    var mem := header + room;
    var unaligned_buf := new bv8[|mem|](i requires 0 <= i < |mem| => mem[i]);
    assert unaligned_buf[..] == mem;
    clone_unaligned_buffer_lsbf(offset_bits - initial_spare_bits, length_bytes, block + beyond, unaligned_buf);
    dst := unaligned_buf[..length_bytes];
    assert dst == unaligned_buf[..][..length_bytes];
  }

  /** Header and block as the two encoders leave them: nothing from the offset on, and nothing but TI and E. */
  predicate Clean(offset: nat, header: Octets, block: Octets)
    requires |header| == HeaderOctets(offset) && block != []
  {
    && (offset % 8 != 0 ==> forall j | offset % 8 <= j < 8 :: !Bit(header[offset / 8], j))
    && forall j | 2 <= j < 8 :: !Bit(block[0], j)
  }

  lemma UnalignedByOne(mem: Octets, src: Octets, h: nat, n: nat)
    requires n > 0 && |src| >= n && h + n < |mem|
    ensures Room(mem, src, 8 * h + 1, n)
    ensures
      var u := Unaligned(mem, src, 8 * h + 1, n);
      && u[..h] == mem[..h]
      && u[h] == Or(mem[h], Shl(src[0], 7))
      && (n > 1 ==> u[h + 1] == Or(Or(Shr(src[0], 7), Shl(src[1], 1)), And(Shr(src[0], 1), Shr(0xff, 7))))
      && forall i | 2 <= i < n :: u[h + i] == Or(Shr(src[i - 1], 7), Shl(src[i], 1))
  {
    hide Or, And, Shr, Shl, ShiftedAll;
    var all := ShiftedAll(mem, src, h, 1, n);
    ShiftedOutside(mem, src, h, 1, n);
    assert all[..h] == mem[..h];
    forall i | 1 <= i < n
      ensures all[h + i] == Or(Shr(src[i - 1], 7), Shl(src[i], 1))
    {
      ShiftedInside(mem, src, h, 1, n, i);
    }
    assert Unaligned(mem, src, 8 * h + 1, n)[..h] == all[..h];
  }

  /** The octets that Put writes when the offset falls on the last bit of an octet. */
  lemma PutAtSeven(offset: nat, header: Octets, room: Octets, block: Octets, beyond: Octets)
    requires Sized(offset, header, room, block, beyond) && offset % 8 == 7
    ensures |header| == offset / 8 + 1
    ensures
      var r, h, src := Put(offset, header, room, block, beyond), offset / 8, block + beyond;
      && r[..h] == header[..h]
      && r[h] == Or(header[h], Shl(src[0], 7))
      && r[h + 1] == Or(Or(Shr(src[0], 7), Shl(src[1], 1)), And(Shr(src[0], 1), Shr(0xff, 7)))
      && forall i | 1 <= i < |block| :: r[h + 1 + i] == Or(Shr(src[i], 7), Shl(src[i + 1], 1))
  {
    hide Or, And, Shr, Shl, Unaligned;
    var h := offset / 8;
    assert offset - 6 == 8 * h + 1 && |header| == h + 1;
    var mem, src, n := header + room, block + beyond, |header| + |block|;
    UnalignedByOne(mem, src, h, n);
    var r := Put(offset, header, room, block, beyond);
    assert r[..h] == Unaligned(mem, src, 8 * h + 1, n)[..h] == header[..h];
  }

  lemma HighMask(j: nat)
    requires j < 8
    ensures Bit(Shr(0xff, 7), j) <==> j == 0
  {
  }

  /** Bit by bit: the header's bits below the offset, the block's two bits at it, and the block's octets behind. */
  lemma PutBits(offset: nat, header: Octets, room: Octets, block: Octets, beyond: Octets)
    requires Sized(offset, header, room, block, beyond) && offset % 8 == 7 && Clean(offset, header, block)
    ensures |header| == offset / 8 + 1
    ensures
      var r, h := Put(offset, header, room, block, beyond), offset / 8;
      && r[..h] == header[..h]
      && (forall j | 0 <= j < 7 :: Bit(r[h], j) == Bit(header[h], j))
      && Bit(r[h], 7) == Bit(block[0], 0) && Bit(r[h + 1], 0) == Bit(block[0], 1)
      && (forall i, j | 1 <= i < |block| && 0 <= j < 7 :: Bit(r[h + i], j + 1) == Bit(block[i], j))
      && (forall i | 1 <= i < |block| :: Bit(r[h + i + 1], 0) == Bit(block[i], 7))
  {
    hide Or, And, Shr, Shl, Bit, Put;
    assert |block| > 0;
    PutAtSeven(offset, header, room, block, beyond);
    var r, h, src := Put(offset, header, room, block, beyond), offset / 8, block + beyond;
    forall j | 0 <= j < 8
      ensures Bit(r[h], j) == if j < 7 then Bit(header[h], j) else Bit(block[0], 0)
    {
      OrBit(header[h], Shl(src[0], 7), j);
      ShlBit(src[0], 7, j);
    }
    FirstShared(src[0], src[1]);
    forall i, j | 1 <= i < |block| && 0 <= j < 7
      ensures Bit(r[h + i], j + 1) == Bit(block[i], j)
    {
      if i == 1 {
        SecondShared(src[0], src[1], j);
      } else {
        JoinBits(src[i - 1], src[i], j);
      }
    }
    forall i | 1 <= i < |block|
      ensures Bit(r[h + i + 1], 0) == Bit(block[i], 7)
    {
      JoinBits(src[i], src[i + 1], 0);
    }
  }

  lemma JoinBits(a: bv8, b: bv8, j: nat)
    requires j < 7
    ensures Bit(Or(Shr(a, 7), Shl(b, 1)), 0) == Bit(a, 7)
    ensures Bit(Or(Shr(a, 7), Shl(b, 1)), j + 1) == Bit(b, j)
  {
    hide Or, Shr, Shl, Bit;
    OrBit(Shr(a, 7), Shl(b, 1), 0);
    OrBit(Shr(a, 7), Shl(b, 1), j + 1);
    ShrBit(a, 7, 0);
    ShrBit(a, 7, j + 1);
    ShlBit(b, 1, 0);
    ShlBit(b, 1, j + 1);
  }

  function Shared(a: bv8, b: bv8): bv8 { Or(Or(Shr(a, 7), Shl(b, 1)), And(Shr(a, 1), Shr(0xff, 7))) }

  lemma FirstShared(a: bv8, b: bv8)
    requires forall j | 2 <= j < 8 :: !Bit(a, j)
    ensures Bit(Shared(a, b), 0) == Bit(a, 1)
  {
    hide Or, And, Shr, Shl, Bit;
    OrBit(Or(Shr(a, 7), Shl(b, 1)), And(Shr(a, 1), Shr(0xff, 7)), 0);
    JoinBits(a, b, 0);
    AndBit(Shr(a, 1), Shr(0xff, 7), 0);
    ShrBit(a, 1, 0);
    HighMask(0);
  }

  lemma SecondShared(a: bv8, b: bv8, j: nat)
    requires j < 7
    ensures Bit(Shared(a, b), j + 1) == Bit(b, j)
  {
    hide Or, And, Shr, Shl, Bit;
    OrBit(Or(Shr(a, 7), Shl(b, 1)), And(Shr(a, 1), Shr(0xff, 7)), j + 1);
    JoinBits(a, b, j);
    AndBit(Shr(a, 1), Shr(0xff, 7), j + 1);
    HighMask(j + 1);
  }

  // ----- what was put in comes out

  /** At an offset on the last bit of an octet, taking a block out of any stream that begins with what Put made gives
      the block, and then whatever follows. */
  lemma GetAfterPut(offset: nat, header: Octets, room: Octets, block: Octets, beyond: Octets, rest: Octets, n: nat)
    requires Sized(offset, header, room, block, beyond) && offset % 8 == 7 && Clean(offset, header, block)
    requires n >= |block| && |header| + |block| + |rest| >= Needed(offset - 6, n)
    ensures Got(Put(offset, header, room, block, beyond) + rest, offset, n)[..|block|] == block
  {
    hide Put, Got, Bit;
    var r := Put(offset, header, room, block, beyond);
    var orig := r + rest;
    var h := offset / 8;
    assert |block| > 0 && |orig| == |header| + |block| + |rest|;
    var got := Got(orig, offset, n);
    PutBits(offset, header, room, block, beyond);
    forall i | 0 <= i < |block|
      ensures got[i] == block[i]
    {
      forall j | 0 <= j < 8
        ensures Bit(got[i], j) == Bit(block[i], j)
      {
        GotAtSeven(orig, offset, n, i, j);
        assert orig[h + i] == r[h + i] && orig[h + i + 1] == r[h + i + 1];
      }
      SameBits(got[i], block[i]);
    }
  }

  lemma GotAtSeven(orig: Octets, offset: nat, n: nat, i: nat, j: nat)
    requires offset >= 6 && n >= 1 && |orig| >= Needed(offset - 6, n) && offset % 8 == 7 && i < n && j < 8
    ensures |orig| > offset / 8 + i + 1
    ensures
      var h := offset / 8;
      Bit(Got(orig, offset, n)[i], j) ==
      if i == 0 then if j == 0 then Bit(orig[h], 7) else j == 1 && Bit(orig[h + 1], 0)
      else if j < 7 then Bit(orig[h + i], j + 1) else Bit(orig[h + i + 1], 0)
  {
    hide Bit, Aligned, Shr;
    var h := offset / 8;
    assert (offset - 6) / 8 == h && (offset - 6) % 8 == 1;
    if i == 0 {
      ShrBit(Aligned(orig, offset - 6, n)[0], 6, j);
      if j < 2 {
        AlignedBit(orig, offset - 6, n, 0, j + 6);
      }
    } else {
      AlignedBit(orig, offset - 6, n, i, j);
    }
  }

  /** Whether a block always survives being put in and taken out at the offset. */
  ghost predicate RoundTrips(offset: nat) {
    forall header, room, block, beyond ::
      Sized(offset, header, room, block, beyond) && Clean(offset, header, block) ==>
        |Put(offset, header, room, block, beyond)| >= Needed(offset - 6, |block|)
        && Got(Put(offset, header, room, block, beyond), offset, |block|) == block
  }

  /** The two functions fit together at the offset of header type 3, which is 31, and at no offset that is not on the
      last bit of an octet: not at 37 (type 2) and not at 46 (type 1). */
  lemma RoundTripsExactly(offset: nat)
    requires offset >= 6
    ensures RoundTrips(offset) <==> offset % 8 == 7
  {
    hide Put, Got, Clean;
    if offset % 8 == 7 {
      forall header, room, block, beyond |
        Sized(offset, header, room, block, beyond) && Clean(offset, header, block)
        ensures |Put(offset, header, room, block, beyond)| >= Needed(offset - 6, |block|)
        ensures Got(Put(offset, header, room, block, beyond), offset, |block|) == block
      {
        var r := Put(offset, header, room, block, beyond);
        GetAfterPut(offset, header, room, block, beyond, [], |block|);
        assert r + [] == r;
      }
    } else {
      Misplaced(offset);
    }
  }

  lemma ZeroShifts(e: nat)
    requires 1 <= e <= 8
    ensures Shr(0, e) == 0 && Shl(0, e) == 0 && Shr(1, e) == 0 && And(0, Shr(0xff, 8 - e)) == 0 && Or(0, 0) == 0
    ensures Shr(1, 6) == 0
  {
  }

  /** A block of one octet in which only E is set, put behind a header of zeros, comes out as zero. */
  lemma Misplaced(offset: nat)
    requires offset >= 6 && offset % 8 != 7
    ensures !RoundTrips(offset)
  {
    hide Put, Got, Bit;
    var header := Silence(HeaderOctets(offset));
    var room, beyond := Silence(|header| + 1), Silence(2 * |header|);
    forall j: nat | j < 8
      ensures !Bit(0, j) && (j >= 2 ==> !Bit(1, j))
    {
      SmallBits(j);
    }
    assert Sized(offset, header, room, [1], beyond) && Clean(offset, header, [1]);
    PutAstray(offset, header, room, beyond);
    var r := Put(offset, header, room, [1], beyond);
    assert |r| >= Needed(offset - 6, 1);
    GotAstray(offset, r);
  }

  lemma SmallBits(j: nat)
    requires j < 8
    ensures !Bit(0, j) && (j >= 1 ==> !Bit(1, j)) && Bit(1, 0)
  {
  }

  lemma PutAstray(offset: nat, header: Octets, room: Octets, beyond: Octets)
    requires offset >= 6 && offset % 8 != 7 && Sized(offset, header, room, [1], beyond)
    requires header == Silence(|header|) && room == Silence(|room|) && beyond == Silence(|beyond|)
    ensures
      var r, h, e := Put(offset, header, room, [1], beyond), (offset - 6) / 8, (offset - 6) % 8;
      if e == 0 then r[h] == 0 || r[h] == 1 else h + 1 < |r| && r[h + 1] == 0
  {
    hide Unaligned;
    var h, e := (offset - 6) / 8, (offset - 6) % 8;
    var mem, src := header + room, [1] + beyond;
    assert forall k | 0 <= k < |mem| :: mem[k] == 0;
    assert forall k | 1 <= k < |src| :: src[k] == 0;
    if e > 0 {
      assert |header| >= h + 1;
      UnalignedAstray(mem, src, offset - 6, |header| + 1);
    } else {
      UnalignedCopied(mem, src, offset - 6, |header| + 1);
    }
  }

  lemma UnalignedCopied(mem: Octets, src: Octets, offset: nat, n: nat)
    requires Room(mem, src, offset, n) && offset % 8 == 0 && offset / 8 < n
    ensures Unaligned(mem, src, offset, n)[offset / 8] == src[2 * (offset / 8)]
  {
  }

  lemma UnalignedAstray(mem: Octets, src: Octets, offset: nat, n: nat)
    requires Room(mem, src, offset, n) && offset % 8 != 0 && n >= 2 && |src| >= 2 && src[0] == 1 && src[1] == 0
    ensures offset / 8 + 1 < |mem| && Unaligned(mem, src, offset, n)[offset / 8 + 1] == 0
  {
    hide Or, And, Shr, Shl, ShiftedAll;
    var h, e := offset / 8, offset % 8;
    ZeroShifts(e);
    ZeroShifts(8 - e);
    ShiftedInside(mem, src, h, e, n, 1);
  }

  lemma GotAstray(offset: nat, r: Octets)
    requires offset >= 6 && offset % 8 != 7 && |r| >= Needed(offset - 6, 1)
    requires
      var h, e := (offset - 6) / 8, (offset - 6) % 8;
      if e == 0 then r[h] == 0 || r[h] == 1 else r[h + 1] == 0
    ensures Got(r, offset, 1)[0] != 1
  {
    hide Bit, Shr, Aligned;
    SmallBits(0);
    if Got(r, offset, 1)[0] == 1 {
      ShrBit(Aligned(r, offset - 6, 1)[0], 6, 0);
      AlignedBit(r, offset - 6, 1, 0, 6);
      var h, e := (offset - 6) / 8, (offset - 6) % 8;
      SmallBits(6);
      if e >= 2 {
        SmallBits(6 + e - 8);
      }
    }
  }
}
