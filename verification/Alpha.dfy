/** GF(2^8) arithmetic of the SNOW 3G feedback register (3GPP TS 35.216, sections 3.1 and 3.4).

    The element x of GF(2)[x] / (x^8 + 0xa9) has order 255. That is the reason why multiplying a word by alpha and
    dividing it by alpha, which the source computes from two unrelated tables of exponents, undo each other. */
module Alpha {
  import opened Gf8

  // ----- 32-bit words and their octets, named so that proofs can hide the bit operations

  function Word(b0: bv8, b1: bv8, b2: bv8, b3: bv8): bv32 {
    (b0 as bv32 << 24) | (b1 as bv32 << 16) | (b2 as bv32 << 8) | (b3 as bv32)
  }

  function Octet0(w: bv32): bv8 { ((w >> 24) & 0xff) as bv8 }

  function Octet1(w: bv32): bv8 { ((w >> 16) & 0xff) as bv8 }

  function Octet2(w: bv32): bv8 { ((w >> 8) & 0xff) as bv8 }

  function Octet3(w: bv32): bv8 { (w & 0xff) as bv8 }

  function Left8(w: bv32): bv32 { (w << 8) & 0xffffff00 }

  function Right8(w: bv32): bv32 { (w >> 8) & 0x00ffffff }

  function Xor(v: bv32, w: bv32): bv32 { v ^ w }

  lemma WordOctets(w: bv32)
    ensures w == Word(Octet0(w), Octet1(w), Octet2(w), Octet3(w))
  {
  }

  lemma OctetsOfWord(b0: bv8, b1: bv8, b2: bv8, b3: bv8)
    ensures Octet0(Word(b0, b1, b2, b3)) == b0
    ensures Octet1(Word(b0, b1, b2, b3)) == b1
    ensures Octet2(Word(b0, b1, b2, b3)) == b2
    ensures Octet3(Word(b0, b1, b2, b3)) == b3
  {
  }

  lemma Left8Word(b0: bv8, b1: bv8, b2: bv8, b3: bv8)
    ensures Left8(Word(b0, b1, b2, b3)) == Word(b1, b2, b3, 0)
  {
  }

  lemma Right8Word(b0: bv8, b1: bv8, b2: bv8, b3: bv8)
    ensures Right8(Word(b0, b1, b2, b3)) == Word(0, b0, b1, b2)
  {
  }

  lemma XorWord(b0: bv8, b1: bv8, b2: bv8, b3: bv8, m0: bv8, m1: bv8, m2: bv8, m3: bv8)
    ensures Xor(Word(b0, b1, b2, b3), Word(m0, m1, m2, m3))
         == Word(Xor8(b0, m0), Xor8(b1, m1), Xor8(b2, m2), Xor8(b3, m3))
  {
  }

  // ----- the source's functions

  function MULalpha(c: bv8): bv32 {
    Word(MULxPOW(c, 23, 0xa9), MULxPOW(c, 245, 0xa9), MULxPOW(c, 48, 0xa9), MULxPOW(c, 239, 0xa9))
  }

  function DIValpha(c: bv8): bv32 {
    Word(MULxPOW(c, 16, 0xa9), MULxPOW(c, 39, 0xa9), MULxPOW(c, 6, 0xa9), MULxPOW(c, 64, 0xa9))
  }

  /** The term of the feedback that comes from S0: S0 times alpha. */
  function TimesAlpha(w: bv32): bv32 { Xor(Left8(w), MULalpha(Octet0(w))) }

  /** The term of the feedback that comes from S11: S11 divided by alpha. */
  function OverAlpha(w: bv32): bv32 { Xor(Right8(w), DIValpha(Octet3(w))) }

  // ----- x has order 255: closed forms of x^1, x^2, x^4, ... obtained by squaring

  function X1(v: bv8): bv8 {
    (if v & 0x01 != 0 then 0x02 else 0) ^ (if v & 0x02 != 0 then 0x04 else 0) ^
    (if v & 0x04 != 0 then 0x08 else 0) ^ (if v & 0x08 != 0 then 0x10 else 0) ^
    (if v & 0x10 != 0 then 0x20 else 0) ^ (if v & 0x20 != 0 then 0x40 else 0) ^
    (if v & 0x40 != 0 then 0x80 else 0) ^ (if v & 0x80 != 0 then 0xa9 else 0)
  }

  function X2(v: bv8): bv8 {
    (if v & 0x01 != 0 then 0x04 else 0) ^ (if v & 0x02 != 0 then 0x08 else 0) ^
    (if v & 0x04 != 0 then 0x10 else 0) ^ (if v & 0x08 != 0 then 0x20 else 0) ^
    (if v & 0x10 != 0 then 0x40 else 0) ^ (if v & 0x20 != 0 then 0x80 else 0) ^
    (if v & 0x40 != 0 then 0xa9 else 0) ^ (if v & 0x80 != 0 then 0xfb else 0)
  }

  function X4(v: bv8): bv8 {
    (if v & 0x01 != 0 then 0x10 else 0) ^ (if v & 0x02 != 0 then 0x20 else 0) ^
    (if v & 0x04 != 0 then 0x40 else 0) ^ (if v & 0x08 != 0 then 0x80 else 0) ^
    (if v & 0x10 != 0 then 0xa9 else 0) ^ (if v & 0x20 != 0 then 0xfb else 0) ^
    (if v & 0x40 != 0 then 0x5f else 0) ^ (if v & 0x80 != 0 then 0xbe else 0)
  }

  function X8(v: bv8): bv8 {
    (if v & 0x01 != 0 then 0xa9 else 0) ^ (if v & 0x02 != 0 then 0xfb else 0) ^
    (if v & 0x04 != 0 then 0x5f else 0) ^ (if v & 0x08 != 0 then 0xbe else 0) ^
    (if v & 0x10 != 0 then 0xd5 else 0) ^ (if v & 0x20 != 0 then 0x03 else 0) ^
    (if v & 0x40 != 0 then 0x06 else 0) ^ (if v & 0x80 != 0 then 0x0c else 0)
  }

  function X16(v: bv8): bv8 {
    (if v & 0x01 != 0 then 0x18 else 0) ^ (if v & 0x02 != 0 then 0x30 else 0) ^
    (if v & 0x04 != 0 then 0x60 else 0) ^ (if v & 0x08 != 0 then 0xc0 else 0) ^
    (if v & 0x10 != 0 then 0x29 else 0) ^ (if v & 0x20 != 0 then 0x52 else 0) ^
    (if v & 0x40 != 0 then 0xa4 else 0) ^ (if v & 0x80 != 0 then 0xe1 else 0)
  }

  function X32(v: bv8): bv8 {
    (if v & 0x01 != 0 then 0xe9 else 0) ^ (if v & 0x02 != 0 then 0x7b else 0) ^
    (if v & 0x04 != 0 then 0xf6 else 0) ^ (if v & 0x08 != 0 then 0x45 else 0) ^
    (if v & 0x10 != 0 then 0x8a else 0) ^ (if v & 0x20 != 0 then 0xbd else 0) ^
    (if v & 0x40 != 0 then 0xd3 else 0) ^ (if v & 0x80 != 0 then 0x0f else 0)
  }

  function X64(v: bv8): bv8 {
    (if v & 0x01 != 0 then 0xcd else 0) ^ (if v & 0x02 != 0 then 0x33 else 0) ^
    (if v & 0x04 != 0 then 0x66 else 0) ^ (if v & 0x08 != 0 then 0xcc else 0) ^
    (if v & 0x10 != 0 then 0x31 else 0) ^ (if v & 0x20 != 0 then 0x62 else 0) ^
    (if v & 0x40 != 0 then 0xc4 else 0) ^ (if v & 0x80 != 0 then 0x21 else 0)
  }

  function X128(v: bv8): bv8 {
    (if v & 0x01 != 0 then 0x82 else 0) ^ (if v & 0x02 != 0 then 0xad else 0) ^
    (if v & 0x04 != 0 then 0xf3 else 0) ^ (if v & 0x08 != 0 then 0x4f else 0) ^
    (if v & 0x10 != 0 then 0x9e else 0) ^ (if v & 0x20 != 0 then 0x95 else 0) ^
    (if v & 0x40 != 0 then 0x83 else 0) ^ (if v & 0x80 != 0 then 0xaf else 0)
  }

  lemma Closed1(v: bv8)
    ensures MULxPOW(v, 1, 0xa9) == X1(v)
  {
    assert MULxPOW(v, 0, 0xa9) == v;
  }

  lemma Square1(v: bv8)
    ensures X1(X1(v)) == X2(v)
  {
  }

  lemma Square2(v: bv8)
    ensures X2(X2(v)) == X4(v)
  {
  }

  lemma Square4(v: bv8)
    ensures X4(X4(v)) == X8(v)
  {
  }

  lemma Square8(v: bv8)
    ensures X8(X8(v)) == X16(v)
  {
  }

  lemma Square16(v: bv8)
    ensures X16(X16(v)) == X32(v)
  {
  }

  lemma Square32(v: bv8)
    ensures X32(X32(v)) == X64(v)
  {
  }

  lemma Square64(v: bv8)
    ensures X64(X64(v)) == X128(v)
  {
  }

  lemma Square128(v: bv8)
    ensures X128(X128(v)) == X1(v)
  {
  }

  lemma Doubling(v: bv8, n: nat)
    ensures MULxPOW(v, n + n, 0xa9) == MULxPOW(MULxPOW(v, n, 0xa9), n, 0xa9)
  {
    hide *;
    PowAdd(v, n, n, 0xa9);
  }

  lemma Closed2(v: bv8)
    ensures MULxPOW(v, 2, 0xa9) == X2(v)
  {
    hide *;
    Doubling(v, 1);
    Closed1(v);
    Closed1(X1(v));
    Square1(v);
  }

  lemma Closed4(v: bv8)
    ensures MULxPOW(v, 4, 0xa9) == X4(v)
  {
    hide *;
    Doubling(v, 2);
    Closed2(v);
    Closed2(X2(v));
    Square2(v);
  }

  lemma Closed8(v: bv8)
    ensures MULxPOW(v, 8, 0xa9) == X8(v)
  {
    hide *;
    Doubling(v, 4);
    Closed4(v);
    Closed4(X4(v));
    Square4(v);
  }

  lemma Closed16(v: bv8)
    ensures MULxPOW(v, 16, 0xa9) == X16(v)
  {
    hide *;
    Doubling(v, 8);
    Closed8(v);
    Closed8(X8(v));
    Square8(v);
  }

  lemma Closed32(v: bv8)
    ensures MULxPOW(v, 32, 0xa9) == X32(v)
  {
    hide *;
    Doubling(v, 16);
    Closed16(v);
    Closed16(X16(v));
    Square16(v);
  }

  lemma Closed64(v: bv8)
    ensures MULxPOW(v, 64, 0xa9) == X64(v)
  {
    hide *;
    Doubling(v, 32);
    Closed32(v);
    Closed32(X32(v));
    Square32(v);
  }

  lemma Closed128(v: bv8)
    ensures MULxPOW(v, 128, 0xa9) == X128(v)
  {
    hide *;
    Doubling(v, 64);
    Closed64(v);
    Closed64(X64(v));
    Square64(v);
  }

  lemma MULxInjective(v: bv8, w: bv8)
    requires MULx(v, 0xa9) == MULx(w, 0xa9)
    ensures v == w
  {
  }

  lemma Order255(v: bv8)
    ensures MULxPOW(v, 255, 0xa9) == v
  {
    hide *;
    Doubling(v, 128);
    Closed128(v);
    Closed128(X128(v));
    Square128(v);
    Closed1(v);
    PowStep(v, 255, 0xa9);
    PowStep(v, 0, 0xa9);
    MULxInjective(MULxPOW(v, 255, 0xa9), v);
  }

  /** Exponents count modulo 255. */
  lemma PowWrap(v: bv8, i: nat, j: nat)
    requires i + j >= 255
    ensures MULxPOW(MULxPOW(v, i, 0xa9), j, 0xa9) == MULxPOW(v, i + j - 255, 0xa9)
  {
    hide *;
    PowAdd(v, i, j, 0xa9);
    PowAdd(v, 255, i + j - 255, 0xa9);
    Order255(v);
  }

  // ----- multiplication and division by alpha are inverse maps of 32-bit words

  lemma TimesForm(b0: bv8, b1: bv8, b2: bv8, b3: bv8)
    ensures TimesAlpha(Word(b0, b1, b2, b3))
         == Word(Xor8(b1, MULxPOW(b0, 23, 0xa9)), Xor8(b2, MULxPOW(b0, 245, 0xa9)),
                 Xor8(b3, MULxPOW(b0, 48, 0xa9)), MULxPOW(b0, 239, 0xa9))
  {
    hide Word, MULxPOW, Xor, Xor8, Left8, Octet0;
    OctetsOfWord(b0, b1, b2, b3);
    Left8Word(b0, b1, b2, b3);
    XorWord(b1, b2, b3, 0,
            MULxPOW(b0, 23, 0xa9), MULxPOW(b0, 245, 0xa9), MULxPOW(b0, 48, 0xa9), MULxPOW(b0, 239, 0xa9));
    Cancel(MULxPOW(b0, 239, 0xa9), 0);
  }

  lemma OverForm(b0: bv8, b1: bv8, b2: bv8, b3: bv8)
    ensures OverAlpha(Word(b0, b1, b2, b3))
         == Word(MULxPOW(b3, 16, 0xa9), Xor8(b0, MULxPOW(b3, 39, 0xa9)),
                 Xor8(b1, MULxPOW(b3, 6, 0xa9)), Xor8(b2, MULxPOW(b3, 64, 0xa9)))
  {
    hide Word, MULxPOW, Xor, Xor8, Right8, Octet3;
    OctetsOfWord(b0, b1, b2, b3);
    Right8Word(b0, b1, b2, b3);
    XorWord(0, b0, b1, b2,
            MULxPOW(b3, 16, 0xa9), MULxPOW(b3, 39, 0xa9), MULxPOW(b3, 6, 0xa9), MULxPOW(b3, 64, 0xa9));
    Cancel(MULxPOW(b3, 16, 0xa9), 0);
  }

  lemma OverUndoesTimes(w: bv32)
    ensures OverAlpha(TimesAlpha(w)) == w
  {
    hide *;
    var b0, b1, b2, b3 := Octet0(w), Octet1(w), Octet2(w), Octet3(w);
    var m0, m1, m2 := MULxPOW(b0, 23, 0xa9), MULxPOW(b0, 245, 0xa9), MULxPOW(b0, 48, 0xa9);
    WordOctets(w);
    TimesForm(b0, b1, b2, b3);
    OverForm(Xor8(b1, m0), Xor8(b2, m1), Xor8(b3, m2), MULxPOW(b0, 239, 0xa9));
    PowWrap(b0, 239, 16);
    PowStep(b0, 0, 0xa9);
    PowWrap(b0, 239, 39);
    PowAdd(b0, 239, 6, 0xa9);
    PowWrap(b0, 239, 64);
    Cancel(b1, m0);
    Cancel(b2, m1);
    Cancel(b3, m2);
  }

  lemma TimesUndoesOver(w: bv32)
    ensures TimesAlpha(OverAlpha(w)) == w
  {
    hide *;
    var b0, b1, b2, b3 := Octet0(w), Octet1(w), Octet2(w), Octet3(w);
    var m1, m2, m3 := MULxPOW(b3, 39, 0xa9), MULxPOW(b3, 6, 0xa9), MULxPOW(b3, 64, 0xa9);
    WordOctets(w);
    OverForm(b0, b1, b2, b3);
    TimesForm(MULxPOW(b3, 16, 0xa9), Xor8(b0, m1), Xor8(b1, m2), Xor8(b2, m3));
    PowAdd(b3, 16, 23, 0xa9);
    PowWrap(b3, 16, 245);
    PowAdd(b3, 16, 48, 0xa9);
    PowWrap(b3, 16, 239);
    PowStep(b3, 0, 0xa9);
    Cancel(b0, m1);
    Cancel(b1, m2);
    Cancel(b2, m3);
  }

  lemma AlphaZero()
    ensures TimesAlpha(0) == 0 && OverAlpha(0) == 0
  {
    hide MULxPOW, MULx;
    PowZero(23, 0xa9);
    PowZero(245, 0xa9);
    PowZero(48, 0xa9);
    PowZero(239, 0xa9);
    PowZero(16, 0xa9);
    PowZero(39, 0xa9);
    PowZero(6, 0xa9);
    PowZero(64, 0xa9);
  }

}
