/** The LLC frame check sequence (3GPP TS 44.064, section 5.5): a 24-bit CRC, computed octet by octet from a table. */
module LlcFcs {
  import opened CrcTheory

  // One row of sixteen table entries.
  function Row(i: bv8,
               t0: bv32, t1: bv32, t2: bv32, t3: bv32, t4: bv32, t5: bv32, t6: bv32, t7: bv32,
               t8: bv32, t9: bv32, t10: bv32, t11: bv32, t12: bv32, t13: bv32, t14: bv32, t15: bv32): bv32
  {
    if i == 0 then t0 else if i == 1 then t1 else if i == 2 then t2 else if i == 3 then t3 else
    if i == 4 then t4 else if i == 5 then t5 else if i == 6 then t6 else if i == 7 then t7 else
    if i == 8 then t8 else if i == 9 then t9 else if i == 10 then t10 else if i == 11 then t11 else
    if i == 12 then t12 else if i == 13 then t13 else if i == 14 then t14 else t15
  }

  /** The table of the source, entry by entry. */
  function tbl_crc24(x: bv8): bv32 {
    if x < 0x10 then
      Row(x & 0x0f, 0x000000, 0xd6a776, 0xf64557, 0x20e221, 0xb78115, 0x612663, 0x41c442, 0x976334,
          0x340991, 0xe2aee7, 0xc24cc6, 0x14ebb0, 0x838884, 0x552ff2, 0x75cdd3, 0xa36aa5)
    else if x < 0x20 then
      Row(x & 0x0f, 0x681322, 0xbeb454, 0x9e5675, 0x48f103, 0xdf9237, 0x093541, 0x29d760, 0xff7016,
          0x5c1ab3, 0x8abdc5, 0xaa5fe4, 0x7cf892, 0xeb9ba6, 0x3d3cd0, 0x1ddef1, 0xcb7987)
    else if x < 0x30 then
      Row(x & 0x0f, 0xd02644, 0x068132, 0x266313, 0xf0c465, 0x67a751, 0xb10027, 0x91e206, 0x474570,
          0xe42fd5, 0x3288a3, 0x126a82, 0xc4cdf4, 0x53aec0, 0x8509b6, 0xa5eb97, 0x734ce1)
    else if x < 0x40 then
      Row(x & 0x0f, 0xb83566, 0x6e9210, 0x4e7031, 0x98d747, 0x0fb473, 0xd91305, 0xf9f124, 0x2f5652,
          0x8c3cf7, 0x5a9b81, 0x7a79a0, 0xacded6, 0x3bbde2, 0xed1a94, 0xcdf8b5, 0x1b5fc3)
    else if x < 0x50 then
      Row(x & 0x0f, 0xfb4733, 0x2de045, 0x0d0264, 0xdba512, 0x4cc626, 0x9a6150, 0xba8371, 0x6c2407,
          0xcf4ea2, 0x19e9d4, 0x390bf5, 0xefac83, 0x78cfb7, 0xae68c1, 0x8e8ae0, 0x582d96)
    else if x < 0x60 then
      Row(x & 0x0f, 0x935411, 0x45f367, 0x651146, 0xb3b630, 0x24d504, 0xf27272, 0xd29053, 0x043725,
          0xa75d80, 0x71faf6, 0x5118d7, 0x87bfa1, 0x10dc95, 0xc67be3, 0xe699c2, 0x303eb4)
    else if x < 0x70 then
      Row(x & 0x0f, 0x2b6177, 0xfdc601, 0xdd2420, 0x0b8356, 0x9ce062, 0x4a4714, 0x6aa535, 0xbc0243,
          0x1f68e6, 0xc9cf90, 0xe92db1, 0x3f8ac7, 0xa8e9f3, 0x7e4e85, 0x5eaca4, 0x880bd2)
    else if x < 0x80 then
      Row(x & 0x0f, 0x437255, 0x95d523, 0xb53702, 0x639074, 0xf4f340, 0x225436, 0x02b617, 0xd41161,
          0x777bc4, 0xa1dcb2, 0x813e93, 0x5799e5, 0xc0fad1, 0x165da7, 0x36bf86, 0xe018f0)
    else if x < 0x90 then
      Row(x & 0x0f, 0xad85dd, 0x7b22ab, 0x5bc08a, 0x8d67fc, 0x1a04c8, 0xcca3be, 0xec419f, 0x3ae6e9,
          0x998c4c, 0x4f2b3a, 0x6fc91b, 0xb96e6d, 0x2e0d59, 0xf8aa2f, 0xd8480e, 0x0eef78)
    else if x < 0xa0 then
      Row(x & 0x0f, 0xc596ff, 0x133189, 0x33d3a8, 0xe574de, 0x7217ea, 0xa4b09c, 0x8452bd, 0x52f5cb,
          0xf19f6e, 0x273818, 0x07da39, 0xd17d4f, 0x461e7b, 0x90b90d, 0xb05b2c, 0x66fc5a)
    else if x < 0xb0 then
      Row(x & 0x0f, 0x7da399, 0xab04ef, 0x8be6ce, 0x5d41b8, 0xca228c, 0x1c85fa, 0x3c67db, 0xeac0ad,
          0x49aa08, 0x9f0d7e, 0xbfef5f, 0x694829, 0xfe2b1d, 0x288c6b, 0x086e4a, 0xdec93c)
    else if x < 0xc0 then
      Row(x & 0x0f, 0x15b0bb, 0xc317cd, 0xe3f5ec, 0x35529a, 0xa231ae, 0x7496d8, 0x5474f9, 0x82d38f,
          0x21b92a, 0xf71e5c, 0xd7fc7d, 0x015b0b, 0x96383f, 0x409f49, 0x607d68, 0xb6da1e)
    else if x < 0xd0 then
      Row(x & 0x0f, 0x56c2ee, 0x806598, 0xa087b9, 0x7620cf, 0xe143fb, 0x37e48d, 0x1706ac, 0xc1a1da,
          0x62cb7f, 0xb46c09, 0x948e28, 0x42295e, 0xd54a6a, 0x03ed1c, 0x230f3d, 0xf5a84b)
    else if x < 0xe0 then
      Row(x & 0x0f, 0x3ed1cc, 0xe876ba, 0xc8949b, 0x1e33ed, 0x8950d9, 0x5ff7af, 0x7f158e, 0xa9b2f8,
          0x0ad85d, 0xdc7f2b, 0xfc9d0a, 0x2a3a7c, 0xbd5948, 0x6bfe3e, 0x4b1c1f, 0x9dbb69)
    else if x < 0xf0 then
      Row(x & 0x0f, 0x86e4aa, 0x5043dc, 0x70a1fd, 0xa6068b, 0x3165bf, 0xe7c2c9, 0xc720e8, 0x11879e,
          0xb2ed3b, 0x644a4d, 0x44a86c, 0x920f1a, 0x056c2e, 0xd3cb58, 0xf32979, 0x258e0f)
    else
      Row(x & 0x0f, 0xeef788, 0x3850fe, 0x18b2df, 0xce15a9, 0x59769d, 0x8fd1eb, 0xaf33ca, 0x7994bc,
          0xdafe19, 0x0c596f, 0x2cbb4e, 0xfa1c38, 0x6d7f0c, 0xbbd87a, 0x9b3a5b, 0x4d9d2d)
  }

  // ----- bit operations, named so that proofs can hide them

  function Xor32(a: bv32, b: bv32): bv32 { a ^ b }

  function Shr1(a: bv32): bv32 { a >> 1 }

  predicate Odd(a: bv32) { a & 1 != 0 }

  /** One clock of the bit-serial CRC, low bit first. */
  function Clock(c: bv32): bv32 {
    if Odd(c) then Xor32(Shr1(c), 0xad85dd) else Shr1(c)
  }

  function Clocks(c: bv32, n: nat): bv32
    decreases n
  {
    if n == 0 then c else Clocks(Clock(c), n - 1)
  }

  lemma Comm(a: bv32, b: bv32)
    ensures Xor32(a, b) == Xor32(b, a)
  {
  }

  lemma Assoc(a: bv32, b: bv32, d: bv32)
    ensures Xor32(Xor32(a, b), d) == Xor32(a, Xor32(b, d))
  {
    hide Xor32;
    IsXor(a, b);
    IsXor(b, d);
    RawAssoc(a, b, d);
  }

  lemma IsXor(a: bv32, b: bv32)
    ensures Xor32(a, b) == a ^ b
  {
  }

  lemma RawAssoc(a: bv32, b: bv32, d: bv32)
    ensures Xor32(a ^ b, d) == Xor32(a, b ^ d)
  {
  }

  lemma Cancel(a: bv32, b: bv32)
    ensures Xor32(a, a) == 0 && Xor32(a, 0) == a && Xor32(0, a) == a && Xor32(Xor32(a, b), b) == a
  {
  }

  lemma Swap(a: bv32, b: bv32, d: bv32, e: bv32)
    ensures Xor32(Xor32(a, b), Xor32(d, e)) == Xor32(Xor32(a, d), Xor32(b, e))
  {
    hide *;
    Assoc(a, b, Xor32(d, e));
    Assoc(b, d, e);
    Comm(b, d);
    Assoc(d, b, e);
    Assoc(a, d, Xor32(b, e));
  }

  lemma ShiftXor(a: bv32, b: bv32)
    ensures Shr1(Xor32(a, b)) == Xor32(Shr1(a), Shr1(b))
    ensures Odd(Xor32(a, b)) <==> Odd(a) != Odd(b)
  {
    assert (a ^ b) >> 1 == (a >> 1) ^ (b >> 1);
    assert (a ^ b) & 1 == (a & 1) ^ (b & 1);
    assert a & 1 == 0 || a & 1 == 1;
    assert b & 1 == 0 || b & 1 == 1;
  }

  lemma ClockForm(c: bv32)
    ensures Clock(c) == Xor32(Shr1(c), if Odd(c) then 0xad85dd else 0)
  {
    hide Xor32, Shr1, Odd;
    Cancel(Shr1(c), 0);
  }

  lemma ClockLinear(a: bv32, b: bv32)
    ensures Clock(Xor32(a, b)) == Xor32(Clock(a), Clock(b))
  {
    hide *;
    ClockForm(a);
    ClockForm(b);
    ClockForm(Xor32(a, b));
    ShiftXor(a, b);
    Cancel(0xad85dd, 0);
    Cancel(0, 0);
    Swap(Shr1(a), Shr1(b), if Odd(a) then 0xad85dd else 0, if Odd(b) then 0xad85dd else 0);
  }

  lemma {:induction false} ClocksLinear(a: bv32, b: bv32, n: nat)
    ensures Clocks(Xor32(a, b), n) == Xor32(Clocks(a, n), Clocks(b, n))
    decreases n
  {
    hide Clock, Xor32;
    if n > 0 {
      ClockLinear(a, b);
      ClocksLinear(Clock(a), Clock(b), n - 1);
    }
  }

  // ----- the table is eight clocks

  lemma EightClocks(c: bv32)
    ensures Clocks(c, 8) == Clock(Clock(Clock(Clock(Clock(Clock(Clock(Clock(c))))))))
  {
    hide Clock;
    var c1 := Clock(c);
    var c2 := Clock(c1);
    var c3 := Clock(c2);
    var c4 := Clock(c3);
    var c5 := Clock(c4);
    var c6 := Clock(c5);
    var c7 := Clock(c6);
    assert Clocks(c7, 1) == Clock(c7);
    assert Clocks(c6, 2) == Clocks(c7, 1);
    assert Clocks(c5, 3) == Clocks(c6, 2);
    assert Clocks(c4, 4) == Clocks(c5, 3);
    assert Clocks(c3, 5) == Clocks(c4, 4);
    assert Clocks(c2, 6) == Clocks(c3, 5);
    assert Clocks(c1, 7) == Clocks(c2, 6);
  }

  function Picked(x: bv8, m: bv8, v: bv32): bv32 { if x & m != 0 then v else 0 }

  /** The sum of what eight clocks make of each bit of x alone. */
  function SumOfBits(x: bv8): bv32 {
    Xor32(Xor32(Xor32(Picked(x, 0x01, 0xd6a776), Picked(x, 0x02, 0xf64557)),
                Xor32(Picked(x, 0x04, 0xb78115), Picked(x, 0x08, 0x340991))),
          Xor32(Xor32(Picked(x, 0x10, 0x681322), Picked(x, 0x20, 0xd02644)),
                Xor32(Picked(x, 0x40, 0xfb4733), Picked(x, 0x80, 0xad85dd))))
  }

  /** The bits of x put together. */
  function Bits32(x: bv8): bv32 {
    Xor32(Xor32(Xor32(Picked(x, 0x01, 0x000001), Picked(x, 0x02, 0x000002)),
                Xor32(Picked(x, 0x04, 0x000004), Picked(x, 0x08, 0x000008))),
          Xor32(Xor32(Picked(x, 0x10, 0x000010), Picked(x, 0x20, 0x000020)),
                Xor32(Picked(x, 0x40, 0x000040), Picked(x, 0x80, 0x000080))))
  }

  lemma Bits32IsWide(x: bv8)
    ensures Bits32(x) == x as bv32
  {
  }

  lemma OneBitClocked(x: bv8, m: bv8, b: bv32, v: bv32)
    requires Clock(Clock(Clock(Clock(Clock(Clock(Clock(Clock(b)))))))) == v
    ensures Clocks(Picked(x, m, b), 8) == Picked(x, m, v)
  {
    hide Clocks;
    EightClocks(b);
    EightClocks(0);
  }

  /** Clocking is linear, so the octet is clocked bit by bit. */
  lemma ClockedBits(x: bv8)
    ensures Clocks(x as bv32, 8) == SumOfBits(x)
  {
    OneBitClocked(x, 0x01, 0x000001, 0xd6a776);
    OneBitClocked(x, 0x02, 0x000002, 0xf64557);
    OneBitClocked(x, 0x04, 0x000004, 0xb78115);
    OneBitClocked(x, 0x08, 0x000008, 0x340991);
    OneBitClocked(x, 0x10, 0x000010, 0x681322);
    OneBitClocked(x, 0x20, 0x000020, 0xd02644);
    OneBitClocked(x, 0x40, 0x000040, 0xfb4733);
    OneBitClocked(x, 0x80, 0x000080, 0xad85dd);
    hide *;
    Bits32IsWide(x);
    BitsForm(x);
    var b0, b1, b2, b3 := Picked(x, 0x01, 0x000001), Picked(x, 0x02, 0x000002),
                          Picked(x, 0x04, 0x000004), Picked(x, 0x08, 0x000008);
    var b4, b5, b6, b7 := Picked(x, 0x10, 0x000010), Picked(x, 0x20, 0x000020),
                          Picked(x, 0x40, 0x000040), Picked(x, 0x80, 0x000080);
    ClocksLinear(Xor32(Xor32(b0, b1), Xor32(b2, b3)), Xor32(Xor32(b4, b5), Xor32(b6, b7)), 8);
    ClocksLinear(Xor32(b0, b1), Xor32(b2, b3), 8);
    ClocksLinear(Xor32(b4, b5), Xor32(b6, b7), 8);
    ClocksLinear(b0, b1, 8);
    ClocksLinear(b2, b3, 8);
    ClocksLinear(b4, b5, 8);
    ClocksLinear(b6, b7, 8);
  }

  lemma BitsForm(x: bv8)
    ensures Bits32(x) ==
    Xor32(Xor32(Xor32(Picked(x, 0x01, 0x000001), Picked(x, 0x02, 0x000002)),
                Xor32(Picked(x, 0x04, 0x000004), Picked(x, 0x08, 0x000008))),
          Xor32(Xor32(Picked(x, 0x10, 0x000010), Picked(x, 0x20, 0x000020)),
                Xor32(Picked(x, 0x40, 0x000040), Picked(x, 0x80, 0x000080))))
    ensures SumOfBits(x) ==
    Xor32(Xor32(Xor32(Picked(x, 0x01, 0xd6a776), Picked(x, 0x02, 0xf64557)),
                Xor32(Picked(x, 0x04, 0xb78115), Picked(x, 0x08, 0x340991))),
          Xor32(Xor32(Picked(x, 0x10, 0x681322), Picked(x, 0x20, 0xd02644)),
                Xor32(Picked(x, 0x40, 0xfb4733), Picked(x, 0x80, 0xad85dd))))
  {
  }

  lemma TableRow0(x: bv8)
    requires 0x00 <= x <= 0x07
    ensures tbl_crc24(x) == SumOfBits(x)
  {
  }

  lemma TableRow1(x: bv8)
    requires 0x08 <= x <= 0x0f
    ensures tbl_crc24(x) == SumOfBits(x)
  {
  }

  lemma TableRow2(x: bv8)
    requires 0x10 <= x <= 0x1f
    ensures tbl_crc24(x) == SumOfBits(x)
  {
  }

  lemma TableRow3(x: bv8)
    requires 0x20 <= x <= 0x2f
    ensures tbl_crc24(x) == SumOfBits(x)
  {
  }

  lemma TableRow4(x: bv8)
    requires 0x30 <= x <= 0x3f
    ensures tbl_crc24(x) == SumOfBits(x)
  {
  }

  lemma TableRow5(x: bv8)
    requires 0x40 <= x <= 0x4f
    ensures tbl_crc24(x) == SumOfBits(x)
  {
  }

  lemma TableRow6(x: bv8)
    requires 0x50 <= x <= 0x5f
    ensures tbl_crc24(x) == SumOfBits(x)
  {
  }

  lemma TableRow7(x: bv8)
    requires 0x60 <= x <= 0x6f
    ensures tbl_crc24(x) == SumOfBits(x)
  {
  }

  lemma TableRow8(x: bv8)
    requires 0x70 <= x <= 0x7f
    ensures tbl_crc24(x) == SumOfBits(x)
  {
  }

  lemma TableRow9(x: bv8)
    requires 0x80 <= x <= 0x8f
    ensures tbl_crc24(x) == SumOfBits(x)
  {
  }

  lemma TableRow10(x: bv8)
    requires 0x90 <= x <= 0x9f
    ensures tbl_crc24(x) == SumOfBits(x)
  {
  }

  lemma TableRow11(x: bv8)
    requires 0xa0 <= x <= 0xaf
    ensures tbl_crc24(x) == SumOfBits(x)
  {
  }

  lemma TableRow12(x: bv8)
    requires 0xb0 <= x <= 0xbf
    ensures tbl_crc24(x) == SumOfBits(x)
  {
  }

  lemma TableRow13(x: bv8)
    requires 0xc0 <= x <= 0xcf
    ensures tbl_crc24(x) == SumOfBits(x)
  {
  }

  lemma TableRow14(x: bv8)
    requires 0xd0 <= x <= 0xdf
    ensures tbl_crc24(x) == SumOfBits(x)
  {
  }

  lemma TableRow15(x: bv8)
    requires 0xe0 <= x <= 0xef
    ensures tbl_crc24(x) == SumOfBits(x)
  {
  }

  lemma TableRow16(x: bv8)
    requires 0xf0 <= x <= 0xff
    ensures tbl_crc24(x) == SumOfBits(x)
  {
  }

  lemma TableIsEightClocks(x: bv8)
    ensures tbl_crc24(x) == Clocks(x as bv32, 8)
  {
    hide *;
    ClockedBits(x);
    if x <= 0x07 {
      TableRow0(x);
    } else if x <= 0x0f {
      TableRow1(x);
    } else if x <= 0x1f {
      TableRow2(x);
    } else if x <= 0x2f {
      TableRow3(x);
    } else if x <= 0x3f {
      TableRow4(x);
    } else if x <= 0x4f {
      TableRow5(x);
    } else if x <= 0x5f {
      TableRow6(x);
    } else if x <= 0x6f {
      TableRow7(x);
    } else if x <= 0x7f {
      TableRow8(x);
    } else if x <= 0x8f {
      TableRow9(x);
    } else if x <= 0x9f {
      TableRow10(x);
    } else if x <= 0xaf {
      TableRow11(x);
    } else if x <= 0xbf {
      TableRow12(x);
    } else if x <= 0xcf {
      TableRow13(x);
    } else if x <= 0xdf {
      TableRow14(x);
    } else if x <= 0xef {
      TableRow15(x);
    } else {
      TableRow16(x);
    }
  }

  // ----- octet by octet

  function Low8(c: bv32): bv8 { (c & 0xff) as bv8 }

  function Shr8(c: bv32): bv32 { c >> 8 }

  function Wide(o: bv8): bv32 { o as bv32 }

  /** The body of the loop of crc24_calc. */
  function TableStep(fcs: bv32, o: bv8): bv32 {
    Xor32(Shr8(fcs), tbl_crc24(Low8(Xor32(fcs, Wide(o)))))
  }

  function Crc24(fcs: bv32, m: seq<bv8>): bv32
    decreases |m|
  {
    if m == [] then fcs else Crc24(TableStep(fcs, m[0]), m[1..])
  }

  method crc24_calc(fcs0: bv32, cp: array<bv8>, len0: nat) returns (fcs: bv32)
    requires len0 <= cp.Length
    ensures fcs == Crc24(fcs0, cp[..len0])
  {
    hide TableStep, Xor32, Shr8, Low8, Wide, tbl_crc24;
    fcs := fcs0;
    var len, at := len0, 0;
    while len > 0
      invariant at + len == len0
      invariant Crc24(fcs, cp[at..len0]) == Crc24(fcs0, cp[..len0])
    {
      TableStepForm(fcs, cp[at]);
      assert cp[at..len0][1..] == cp[at + 1..len0];
      len := len - 1;
      fcs := Xor32(Shr8(fcs), tbl_crc24(Low8(Xor32(fcs, Wide(cp[at])))));
      at := at + 1;
    }
  }

  lemma TableStepForm(fcs: bv32, o: bv8)
    ensures TableStep(fcs, o) == Xor32(Shr8(fcs), tbl_crc24(Low8(Xor32(fcs, Wide(o)))))
  {
  }

  function Shl8(c: bv32): bv32 { c << 8 }

  /** A word is its upper part plus its lowest octet, and an octet added below does not reach the upper part. */
  lemma SplitLow(c: bv32, o: bv8)
    ensures Xor32(Shl8(Shr8(c)), Wide(Low8(Xor32(c, Wide(o))))) == Xor32(c, Wide(o))
  {
  }

  function Shl1(c: bv32): bv32 { c << 1 }

  lemma EvenClock(c: bv32)
    requires c < 0x8000_0000
    ensures Clock(Shl1(c)) == c
  {
  }

  lemma UpOne(h: bv32)
    requires h < 0x100_0000
    ensures Shl8(h) == Shl1(Shl1(Shl1(Shl1(Shl1(Shl1(Shl1(Shl1(h))))))))
    ensures h < 0x8000_0000 && Shl1(h) < 0x8000_0000 && Shl1(Shl1(h)) < 0x8000_0000
    ensures Shl1(Shl1(Shl1(h))) < 0x8000_0000 && Shl1(Shl1(Shl1(Shl1(h)))) < 0x8000_0000
    ensures Shl1(Shl1(Shl1(Shl1(Shl1(h))))) < 0x8000_0000
    ensures Shl1(Shl1(Shl1(Shl1(Shl1(Shl1(h)))))) < 0x8000_0000
    ensures Shl1(Shl1(Shl1(Shl1(Shl1(Shl1(Shl1(h))))))) < 0x8000_0000
  {
  }

  /** Eight clocks move a word whose low octet is zero down by eight places. */
  lemma ClocksOfUpper(h: bv32)
    requires h < 0x100_0000
    ensures Clocks(Shl8(h), 8) == h
  {
    hide *;
    UpOne(h);
    var h1 := Shl1(h);
    var h2 := Shl1(h1);
    var h3 := Shl1(h2);
    var h4 := Shl1(h3);
    var h5 := Shl1(h4);
    var h6 := Shl1(h5);
    var h7 := Shl1(h6);
    EightClocks(Shl1(h7));
    EvenClock(h7);
    EvenClock(h6);
    EvenClock(h5);
    EvenClock(h4);
    EvenClock(h3);
    EvenClock(h2);
    EvenClock(h1);
    EvenClock(h);
  }

  lemma ShrBound(c: bv32)
    ensures Shr8(c) < 0x100_0000
  {
  }

  /** One look-up in the table does the work of eight clocks of the bit-serial register. */
  lemma TableStepIsEightClocks(fcs: bv32, o: bv8)
    ensures TableStep(fcs, o) == Clocks(Xor32(fcs, Wide(o)), 8)
  {
    hide *;
    var low := Low8(Xor32(fcs, Wide(o)));
    TableStepForm(fcs, o);
    TableIsEightClocks(low);
    WideIs(low);
    SplitLow(fcs, o);
    ShrBound(fcs);
    ClocksLinear(Shl8(Shr8(fcs)), Wide(low), 8);
    ClocksOfUpper(Shr8(fcs));
  }

  lemma WideIs(o: bv8)
    ensures Wide(o) == o as bv32
  {
  }

  // ----- the register, bit by bit: bit 0 of the word is the top of the register

  function Mask24(k: nat): bv32
    requires k < 24
  {
    if k == 0 then 0x1 else if k == 1 then 0x2 else if k == 2 then 0x4 else if k == 3 then 0x8 else
    if k == 4 then 0x10 else if k == 5 then 0x20 else if k == 6 then 0x40 else if k == 7 then 0x80 else
    if k == 8 then 0x100 else if k == 9 then 0x200 else if k == 10 then 0x400 else if k == 11 then 0x800 else
    if k == 12 then 0x1000 else if k == 13 then 0x2000 else if k == 14 then 0x4000 else if k == 15 then 0x8000 else
    if k == 16 then 0x10000 else if k == 17 then 0x20000 else if k == 18 then 0x40000 else if k == 19 then 0x80000 else
    if k == 20 then 0x100000 else if k == 21 then 0x200000 else if k == 22 then 0x400000 else 0x800000
  }

  function And32(a: bv32, m: bv32): bv32 { a & m }

  predicate Test(c: bv32, m: bv32) { And32(c, m) != 0 }

  function Register24(c: bv32): (r: Bits)
    ensures |r| == 24
  {
    seq(24, k requires 0 <= k < 24 => Test(c, Mask24(k)))
  }

  /** The generator, lowest bit of the reflected polynomial first. */
  const G24: Bits := Register24(0xad85dd)

  lemma TestXor(a: bv32, b: bv32, k: nat)
    requires k < 24
    ensures Test(Xor32(a, b), Mask24(k)) <==> Test(a, Mask24(k)) != Test(b, Mask24(k))
  {
    hide Mask24, Xor32, And32;
    AndXor(a, b, Mask24(k));
    OneBit(a, k);
    OneBit(b, k);
    Cancel(Mask24(k), 0);
    Cancel(0, 0);
  }

  lemma AndXor(a: bv32, b: bv32, m: bv32)
    ensures And32(Xor32(a, b), m) == Xor32(And32(a, m), And32(b, m))
  {
    hide Xor32, And32;
    IsXor(a, b);
    IsXor(And32(a, m), And32(b, m));
    RawAndXor(a, b, m);
  }

  lemma RawAndXor(a: bv32, b: bv32, m: bv32)
    ensures And32(a ^ b, m) == And32(a, m) ^ And32(b, m)
  {
  }

  lemma OneBit(a: bv32, k: nat)
    requires k < 24
    ensures And32(a, Mask24(k)) == 0 || And32(a, Mask24(k)) == Mask24(k)
    ensures Mask24(k) != 0
  {
  }

  lemma TestShift(c: bv32, k: nat)
    requires k < 24 && c < 0x100_0000
    ensures Test(Shr1(c), Mask24(k)) <==> k < 23 && Test(c, Mask24(k + 1))
  {
    hide Test;
    if k < 23 {
      assert Mask24(k) < 0x80_0000 && Mask24(k + 1) == Mask24(k) << 1;
      TestDown(c, Mask24(k));
    } else {
      TopClear(c);
    }
  }

  lemma TestDown(c: bv32, m: bv32)
    requires m < 0x80_0000
    ensures Test(Shr1(c), m) <==> Test(c, m << 1)
  {
    assert ((c >> 1) & m) << 1 == c & (m << 1);
  }

  lemma TopClear(c: bv32)
    requires c < 0x100_0000
    ensures !Test(Shr1(c), 0x80_0000)
  {
  }

  lemma ClockBound(c: bv32)
    requires c < 0x100_0000
    ensures Clock(c) < 0x100_0000
  {
  }

  lemma XorBound(a: bv32, b: bv32)
    requires a < 0x100_0000 && b < 0x100_0000
    ensures Xor32(a, b) < 0x100_0000
  {
  }

  function Bit(b: bool): bv32 { if b then 1 else 0 }

  lemma BitFacts(c: bv32, b: bool)
    ensures Test(c, Mask24(0)) <==> Odd(c)
    ensures Odd(Bit(b)) <==> b
    ensures Shr1(Bit(b)) == 0 && Bit(b) < 0x100_0000
  {
  }

  /** Adding the message bit to the low end and clocking once is one step of the division register. */
  lemma ClockIsStep(c: bv32, b: bool)
    requires c < 0x100_0000
    ensures Clock(Xor32(c, Bit(b))) < 0x100_0000
    ensures Register24(Clock(Xor32(c, Bit(b)))) == Step(G24, Register24(c), b)
  {
    hide Test, Mask24, Xor32, Shr1, Odd, Clock, Bit;
    var x := Xor32(c, Bit(b));
    BitFacts(c, b);
    XorBound(c, Bit(b));
    ClockBound(x);
    ClockForm(x);
    ShiftXor(c, Bit(b));
    Cancel(Shr1(c), 0);
    var next, step := Register24(Clock(x)), Step(G24, Register24(c), b);
    forall k | 0 <= k < 24
      ensures next[k] == step[k]
    {
      TestXor(Shr1(x), if Odd(x) then 0xad85dd else 0, k);
      TestShift(c, k);
      TestZero(k);
    }
  }

  lemma TestZero(k: nat)
    requires k < 24
    ensures !Test(0, Mask24(k))
  {
  }

  // ----- octets enter lowest bit first

  function BitsLsb(v: bv32, n: nat): (r: Bits)
    ensures |r| == n
  {
    if n == 0 then [] else [Odd(v)] + BitsLsb(Shr1(v), n - 1)
  }

  ghost predicate Below(v: bv32, n: nat)
    decreases n
  {
    if n == 0 then v == 0 else Below(Shr1(v), n - 1)
  }

  lemma OctetBelow(o: bv8)
    ensures Below(Wide(o), 8)
  {
    var v := Wide(o);
    assert Shr1(Shr1(Shr1(Shr1(Shr1(Shr1(Shr1(Shr1(v)))))))) == 0;
    var v4 := Shr1(Shr1(Shr1(Shr1(v))));
    assert Below(Shr1(Shr1(Shr1(v4))), 1);
    assert Below(Shr1(Shr1(v4)), 2);
    assert Below(Shr1(v4), 3);
    assert Below(v4, 4);
    assert Below(Shr1(Shr1(Shr1(v))), 5);
    assert Below(Shr1(Shr1(v)), 6);
    assert Below(Shr1(v), 7);
  }

  /** v is its low bit plus its upper part; clocking the upper part moves it down. */
  lemma SplitBit(v: bv32)
    ensures v == Xor32(Bit(Odd(v)), Upper(v))
    ensures Clock(Upper(v)) == Shr1(v)
  {
  }

  function Upper(v: bv32): bv32 { v & 0xffff_fffe }

  lemma {:induction false} ClocksIsFeed(c: bv32, v: bv32, n: nat)
    requires c < 0x100_0000 && Below(v, n)
    ensures Clocks(Xor32(c, v), n) < 0x100_0000
    ensures Register24(Clocks(Xor32(c, v), n)) == Feed(G24, Register24(c), BitsLsb(v, n))
    decreases n
  {
    hide Xor32, Clock, Shr1, Odd, Bit, Upper, Register24, Step, G24;
    if n == 0 {
      Cancel(c, 0);
    } else {
      var b := Odd(v);
      var c' := Clock(Xor32(c, Bit(b)));
      SplitBit(v);
      Assoc(c, Bit(b), Upper(v));
      ClockLinear(Xor32(c, Bit(b)), Upper(v));
      ClockIsStep(c, b);
      ClocksIsFeed(c', Shr1(v), n - 1);
      assert BitsLsb(v, n)[1..] == BitsLsb(Shr1(v), n - 1);
    }
  }

  /** An octet string as bits, lowest bit of each octet first. */
  function Unpack(m: seq<bv8>): (r: Bits)
    ensures |r| == 8 * |m|
    decreases |m|
  {
    if m == [] then [] else BitsLsb(Wide(m[0]), 8) + Unpack(m[1..])
  }

  /** The table-driven CRC runs the bit-serial division register, from every 24-bit start value over every octet string,
      and its value never leaves 24 bits. */
  lemma {:induction false} TableRefinesSerial(fcs: bv32, m: seq<bv8>)
    requires fcs < 0x100_0000
    ensures Crc24(fcs, m) < 0x100_0000
    ensures Register24(Crc24(fcs, m)) == Feed(G24, Register24(fcs), Unpack(m))
    decreases |m|
  {
    hide TableStep, Register24, Step, G24, BitsLsb, Wide, Below, Clocks, Xor32;
    if m != [] {
      TableStepIsEightClocks(fcs, m[0]);
      OctetBelow(m[0]);
      ClocksIsFeed(fcs, Wide(m[0]), 8);
      TableRefinesSerial(TableStep(fcs, m[0]), m[1..]);
      FeedAppend(G24, Register24(fcs), BitsLsb(Wide(m[0]), 8), Unpack(m[1..]));
    }
  }

  // ----- the frame check sequence

  const INIT_CRC24: bv32 := 0xff_ffff

  function Invert(c: bv32): bv32 { !c & 0xff_ffff }

  function Fcs(m: seq<bv8>): (r: seq<bv8>)
    ensures |r| == 3
  {
    var n := Invert(Crc24(INIT_CRC24, m));
    [Low8(n), Low8(Shr8(n)), Low8(Shr8(Shr8(n)))]
  }

  method f__LLC__compute__fcs(data: array<bv8>) returns (fcs_buf: seq<bv8>)
    ensures fcs_buf == Fcs(data[..])
  {
    hide Crc24, Low8, Shr8, Invert;
    var fcs_calc := crc24_calc(INIT_CRC24, data, data.Length);
    assert data[..data.Length] == data[..];
    fcs_calc := Invert(fcs_calc);
    fcs_buf := [Low8(fcs_calc), Low8(Shr8(fcs_calc)), Low8(Shr8(Shr8(fcs_calc)))];
  }

  /** Three octets as a word, the first one lowest. */
  function Pack(f: seq<bv8>): bv32
    requires |f| == 3
  {
    Xor32(Wide(f[0]), Shl8(Xor32(Wide(f[1]), Shl8(Wide(f[2])))))
  }

  lemma PackBounds(f: seq<bv8>)
    requires |f| == 3
    ensures Xor32(Wide(f[1]), Shl8(Wide(f[2]))) < 0x100_0000 && Wide(f[2]) < 0x100_0000
    ensures Pack(f) < 0x100_0000
    ensures Low8(Pack(f)) == f[0] && Low8(Shr8(Pack(f))) == f[1] && Low8(Shr8(Shr8(Pack(f)))) == f[2]
  {
  }

  lemma PackSplit(n: bv32)
    requires n < 0x100_0000
    ensures Pack([Low8(n), Low8(Shr8(n)), Low8(Shr8(Shr8(n)))]) == n
  {
  }

  lemma InvertForm(c: bv32)
    requires c < 0x100_0000
    ensures Invert(c) == Xor32(c, 0xff_ffff) && Invert(c) < 0x100_0000
  {
  }

  lemma {:induction false} ClocksAdd(c: bv32, a: nat, b: nat)
    ensures Clocks(c, a + b) == Clocks(Clocks(c, a), b)
    decreases a
  {
    hide Clock;
    if a > 0 {
      ClocksAdd(Clock(c), a - 1, b);
    }
  }

  /** Adding h, moved up by one octet, before eight clocks is adding h after them. */
  lemma ClocksPastUpper(c: bv32, h: bv32)
    requires h < 0x100_0000
    ensures Clocks(Xor32(c, Shl8(h)), 8) == Xor32(Clocks(c, 8), h)
  {
    hide *;
    ClocksLinear(c, Shl8(h), 8);
    ClocksOfUpper(h);
  }

  lemma CrcOfThree(s: bv32, f: seq<bv8>)
    requires |f| == 3
    ensures Crc24(s, f) == TableStep(TableStep(TableStep(s, f[0]), f[1]), f[2])
  {
    hide TableStep;
    var s1 := TableStep(s, f[0]);
    var s2 := TableStep(s1, f[1]);
    var s3 := TableStep(s2, f[2]);
    assert Crc24(s, f) == Crc24(s1, f[1..]);
    assert Crc24(s1, f[1..]) == Crc24(s2, f[1..][1..]);
    assert f[1..][1..] == [f[2]] && [f[2]][1..] == [];
    assert Crc24(s2, [f[2]]) == Crc24(s3, []);
  }

  /** Three octets act on the register as if they had been added to it beforehand. */
  lemma ThreeOctets(s: bv32, f: seq<bv8>)
    requires |f| == 3
    ensures Crc24(s, f) == Clocks(Xor32(s, Pack(f)), 24)
  {
    hide *;
    var upper := Xor32(Wide(f[1]), Shl8(Wide(f[2])));
    var s1 := TableStep(s, f[0]);
    var s2 := TableStep(s1, f[1]);
    CrcOfThree(s, f);
    TableStepIsEightClocks(s, f[0]);
    TableStepIsEightClocks(s1, f[1]);
    TableStepIsEightClocks(s2, f[2]);
    PackBounds(f);
    PackForm(f);
    Assoc(s, Wide(f[0]), Shl8(upper));
    ClocksPastUpper(Xor32(s, Wide(f[0])), upper);
    Assoc(s1, Wide(f[1]), Shl8(Wide(f[2])));
    ClocksPastUpper(Xor32(s1, Wide(f[1])), Wide(f[2]));
    ClocksAdd(Xor32(s, Pack(f)), 8, 16);
    ClocksAdd(Xor32(s1, upper), 8, 8);
  }

  lemma PackForm(f: seq<bv8>)
    requires |f| == 3
    ensures Pack(f) == Xor32(Wide(f[0]), Shl8(Xor32(Wide(f[1]), Shl8(Wide(f[2])))))
  {
  }

  lemma ClockKernel(d: bv32)
    requires d < 0x100_0000 && Clock(d) == 0
    ensures d == 0
  {
  }

  lemma {:induction false} ClocksInjective(a: bv32, b: bv32, n: nat)
    requires a < 0x100_0000 && b < 0x100_0000
    requires Clocks(a, n) == Clocks(b, n)
    ensures a == b
    decreases n
  {
    hide Clock, Xor32;
    if n > 0 {
      ClockBound(a);
      ClockBound(b);
      ClocksInjective(Clock(a), Clock(b), n - 1);
      ClockLinear(a, b);
      Cancel(Clock(a), 0);
      XorBound(a, b);
      ClockKernel(Xor32(a, b));
      Cancel(a, b);
      Cancel(b, 0);
    }
  }

  lemma {:induction false} CrcAppend(fcs: bv32, m: seq<bv8>, k: seq<bv8>)
    ensures Crc24(fcs, m + k) == Crc24(Crc24(fcs, m), k)
    decreases |m|
  {
    hide TableStep;
    if m == [] {
      assert m + k == k;
    } else {
      assert (m + k)[1..] == m[1..] + k;
      CrcAppend(TableStep(fcs, m[0]), m[1..], k);
    }
  }

  lemma FcsPack(m: seq<bv8>)
    ensures Pack(Fcs(m)) == Xor32(Crc24(INIT_CRC24, m), 0xff_ffff)
    ensures Crc24(INIT_CRC24, m) < 0x100_0000
  {
    hide Crc24, Pack, Xor32, Invert, Low8, Shr8;
    TableRefinesSerial(INIT_CRC24, m);
    InvertForm(Crc24(INIT_CRC24, m));
    PackSplit(Invert(Crc24(INIT_CRC24, m)));
  }

  /** The value of the register after a message and its own check sequence. */
  const RESIDUE: bv32 := 0x0c_91b6

  lemma ResidueValue()
    ensures Clocks(0xff_ffff, 24) == RESIDUE
  {
    hide Clocks;
    EightClocks(0xff_ffff);
    EightClocks(0x4d_62d2);
    EightClocks(0xc8_d9f9);
    ClocksAdd(0xff_ffff, 8, 16);
    ClocksAdd(0x4d_62d2, 8, 8);
  }

  /** Running the CRC over a message and three more octets ends at one and the same value for every message, exactly if
      those octets are the check sequence of the message. */
  lemma FcsChecks(m: seq<bv8>, f: seq<bv8>)
    requires |f| == 3
    ensures Crc24(INIT_CRC24, m + f) == RESIDUE <==> f == Fcs(m)
  {
    hide *;
    var s := Crc24(INIT_CRC24, m);
    CrcAppend(INIT_CRC24, m, f);
    ThreeOctets(s, f);
    ResidueValue();
    FcsPack(m);
    Cancel(s, 0xff_ffff);
    Assoc(s, s, 0xff_ffff);
    Cancel(0xff_ffff, 0);
    if Crc24(INIT_CRC24, m + f) == RESIDUE {
      PackBounds(f);
      PackBounds(Fcs(m));
      XorBound(s, Pack(f));
      ClocksInjective(Xor32(s, Pack(f)), 0xff_ffff, 24);
      Comm(s, Pack(f));
      Cancel(Pack(f), s);
      Comm(s, 0xff_ffff);
      assert Pack(f) == Pack(Fcs(m));
    }
  }

  // ----- damage

  lemma GeneratorEnds()
    ensures |G24| == 24 && G24[23]
  {
    assert Test(0xad85dd, Mask24(23));
  }

  /** Two octet strings whose bits differ only within one window of at most 24 bits, at any bit position, get different
      check sequences. */
  lemma BurstChangesFcs(m: seq<bv8>, m': seq<bv8>, before: Bits, d: Bits, d': Bits, after: Bits)
    requires |d| == |d'| <= 24 && d != d'
    requires Unpack(m) == before + d + after && Unpack(m') == before + d' + after
    ensures Fcs(m) != Fcs(m')
  {
    hide *;
    GeneratorEnds();
    InitBound();
    TableRefinesSerial(INIT_CRC24, m);
    TableRefinesSerial(INIT_CRC24, m');
    BurstDetected(G24, Register24(INIT_CRC24), before, d, d', after);
    FcsPack(m);
    FcsPack(m');
    Cancel(Crc24(INIT_CRC24, m), 0xff_ffff);
    Cancel(Crc24(INIT_CRC24, m'), 0xff_ffff);
  }

  lemma InitBound()
    ensures INIT_CRC24 < 0x100_0000
  {
  }

  lemma {:induction false} UnpackAppend(a: seq<bv8>, b: seq<bv8>)
    ensures Unpack(a + b) == Unpack(a) + Unpack(b)
    decreases |a|
  {
    hide BitsLsb, Wide;
    if a == [] {
      assert a + b == b;
    } else {
      assert (a + b)[1..] == a[1..] + b;
      UnpackAppend(a[1..], b);
    }
  }

  lemma {:induction false} BitsInjective(v: bv32, w: bv32, n: nat)
    requires Below(v, n) && Below(w, n) && BitsLsb(v, n) == BitsLsb(w, n)
    ensures v == w
    decreases n
  {
    hide Shr1, Odd;
    if n > 0 {
      assert BitsLsb(v, n)[0] == Odd(v) && BitsLsb(w, n)[0] == Odd(w);
      assert BitsLsb(v, n)[1..] == BitsLsb(Shr1(v), n - 1);
      assert BitsLsb(w, n)[1..] == BitsLsb(Shr1(w), n - 1);
      BitsInjective(Shr1(v), Shr1(w), n - 1);
      HalvesDetermine(v, w);
    }
  }

  lemma HalvesDetermine(v: bv32, w: bv32)
    requires Shr1(v) == Shr1(w) && Odd(v) == Odd(w)
    ensures v == w
  {
  }

  lemma {:induction false} UnpackInjective(a: seq<bv8>, b: seq<bv8>)
    requires |a| == |b| && Unpack(a) == Unpack(b)
    ensures a == b
    decreases |a|
  {
    hide BitsLsb, Wide, Below;
    if a != [] {
      var va, vb := BitsLsb(Wide(a[0]), 8), BitsLsb(Wide(b[0]), 8);
      assert Unpack(a)[..8] == va && Unpack(b)[..8] == vb;
      assert Unpack(a)[8..] == Unpack(a[1..]) && Unpack(b)[8..] == Unpack(b[1..]);
      OctetBelow(a[0]);
      OctetBelow(b[0]);
      BitsInjective(Wide(a[0]), Wide(b[0]), 8);
      WideInjective(a[0], b[0]);
      UnpackInjective(a[1..], b[1..]);
      assert a == [a[0]] + a[1..] && b == [b[0]] + b[1..];
    }
  }

  lemma WideInjective(a: bv8, b: bv8)
    requires Wide(a) == Wide(b)
    ensures a == b
  {
  }

  /** Changing up to three neighbouring octets of a message of any length always changes its check sequence. */
  lemma ThreeOctetsChangeFcs(p: seq<bv8>, x: seq<bv8>, x': seq<bv8>, s: seq<bv8>)
    requires |x| == |x'| <= 3 && x != x'
    ensures Fcs(p + x + s) != Fcs(p + x' + s)
  {
    hide *;
    UnpackAppend(p + x, s);
    UnpackAppend(p, x);
    UnpackAppend(p + x', s);
    UnpackAppend(p, x');
    if Unpack(x) == Unpack(x') {
      UnpackInjective(x, x');
    }
    BurstChangesFcs(p + x + s, p + x' + s, Unpack(p), Unpack(x), Unpack(x'), Unpack(s));
  }
}
