/** f8 and f9 as 3GPP TS 35.215, sections 3 and 4, write them: which octets of key, count, bearer, fresh and direction
    the generator starts from, which keystream bits meet which message bits, and the polynomial with its length, its two
    factors and its mask. */
module UeaStandard {
  import opened Numbers
  import opened Gf8
  import opened Alpha
  import opened Snow3g
  import opened UeaUia
  import Gf64

  // ----- what the generator starts from

  /** The key's last four octets are the first word. */
  predicate IsKey(key: Key, k: Quad) {
    && k[0] == Word(key[12], key[13], key[14], key[15]) && k[1] == Word(key[8], key[9], key[10], key[11])
    && k[2] == Word(key[4], key[5], key[6], key[7]) && k[3] == Word(key[0], key[1], key[2], key[3])
  }

  /** COUNT twice, and twice a word of five bits of bearer, one of direction, and zeros. */
  predicate IsF8Variable(count: bv32, bearer: bv8, dir: bv8, IV: Quad) {
    && IV[3] == count && IV[1] == count
    && IV[2] == Word((bearer << 3) | (dir << 2), 0, 0, 0) && IV[0] == IV[2]
  }

  /** COUNT and FRESH, and again with the direction added to the top bit of COUNT and to bit 15 of FRESH. */
  predicate IsF9Variable(c: seq<bv8>, f: seq<bv8>, dir: bv8, IV: Quad)
    requires |c| == |f| == 4
  {
    && IV[3] == Word(c[0], c[1], c[2], c[3]) && IV[2] == Word(f[0], f[1], f[2], f[3])
    && IV[1] == Word(if dir == 1 then c[0] ^ 0x80 else c[0], c[1], c[2], c[3])
    && IV[0] == Word(f[0], f[1], if dir == 1 then f[2] ^ 0x80 else f[2], f[3])
  }

  lemma KeyWordsAre(key: Key, k: Quad)
    requires IsKey(key, k)
    ensures KeyWords(key) == k
  {
    hide Word;
  }

  lemma F8VariableIs(count: bv32, bearer: bv8, dir: bv8, IV: Quad)
    requires bearer < 32 && dir < 2 && IsF8Variable(count, bearer, dir, IV)
    ensures F8IV(count, bearer as bv32, dir as bv32) == IV
  {
    BearerWord(bearer, dir);
    hide Word;
  }

  lemma BearerWord(bearer: bv8, dir: bv8)
    requires bearer < 32 && dir < 2
    ensures ((bearer as bv32) << 27) | ((dir as bv32 & 0x1) << 26) == Word((bearer << 3) | (dir << 2), 0, 0, 0)
  {
  }

  lemma F9VariableIs(c: seq<bv8>, f: seq<bv8>, dir: bv8, IV: Quad)
    requires |c| == |f| == 4 && dir < 2 && IsF9Variable(c, f, dir, IV)
    ensures F9IV(Word(c[0], c[1], c[2], c[3]), Word(f[0], f[1], f[2], f[3]), dir as bv32) == IV
  {
    DirectionWords(c[0], c[1], c[2], c[3], f[0], f[1], f[2], f[3], dir);
    hide Word, DirectedCount, DirectedFresh;
  }

  lemma DirectionWords(c0: bv8, c1: bv8, c2: bv8, c3: bv8, f0: bv8, f1: bv8, f2: bv8, f3: bv8, dir: bv8)
    requires dir < 2
    ensures DirectedCount(Word(c0, c1, c2, c3), dir as bv32) == Word(if dir == 1 then c0 ^ 0x80 else c0, c1, c2, c3)
    ensures DirectedFresh(Word(f0, f1, f2, f3), dir as bv32) == Word(f0, f1, if dir == 1 then f2 ^ 0x80 else f2, f3)
  {
    Up(Word(c0, c1, c2, c3), Word(f0, f1, f2, f3));
    Down(c0, c1, c2, c3, f0, f1, f2, f3);
    hide DirectedCount, DirectedFresh, Word;
    if dir == 0 {
      assert dir as bv32 == 0;
    } else {
      assert dir as bv32 == 1;
    }
  }

  lemma Up(count: bv32, nonce: bv32)
    ensures DirectedCount(count, 0) == count && DirectedFresh(nonce, 0) == nonce
  {
  }

  lemma Down(c0: bv8, c1: bv8, c2: bv8, c3: bv8, f0: bv8, f1: bv8, f2: bv8, f3: bv8)
    ensures DirectedCount(Word(c0, c1, c2, c3), 1) == Word(c0 ^ 0x80, c1, c2, c3)
    ensures DirectedFresh(Word(f0, f1, f2, f3), 1) == Word(f0, f1, f2 ^ 0x80, f3)
  {
  }

  // ----- f8

  /** The first n bits of an octet, the others zero. */
  function FirstBits(o: bv8, n: nat): bv8
    requires n <= 8
  {
    if n == 0 then 0 else if n == 1 then o & 0x80 else if n == 2 then o & 0xc0 else if n == 3 then o & 0xe0 else
    if n == 4 then o & 0xf0 else if n == 5 then o & 0xf8 else if n == 6 then o & 0xfc else if n == 7 then o & 0xfe
    else o
  }

  lemma KeepIsFirstBits(o: bv8, n: nat)
    requires n <= 8
    ensures Keep(o, n) == FirstBits(o, n)
  {
  }

  /** Octet i of the keystream, the top octet of a word first. */
  function StreamOctet(ks: seq<bv32>, i: nat): bv8
    requires i < 4 * |ks|
  {
    var w := ks[i / 4];
    if i % 4 == 0 then (w >> 24) as bv8
    else if i % 4 == 1 then ((w >> 16) & 0xff) as bv8
    else if i % 4 == 2 then ((w >> 8) & 0xff) as bv8
    else (w & 0xff) as bv8
  }

  lemma KeyOctetIs(ks: seq<bv32>, i: nat)
    requires i < 4 * |ks|
    ensures KeyOctet(ks, i) == StreamOctet(ks, i)
  {
    TopOctet(ks[i / 4]);
  }

  lemma TopOctet(w: bv32)
    ensures Octet0(w) == (w >> 24) as bv8
  {
  }

  /** For every message: octet by octet, data plus keystream from ceil(length / 32) words, and the octet in which the
      message ends cut to its bits. */
  lemma F8Standard(key: Key, count: bv32, bearer: bv8, dir: bv8, data: seq<bv8>, length: nat, k: Quad, IV: Quad,
                   i: nat)
    requires bearer < 32 && dir < 2 && IsKey(key, k) && IsF8Variable(count, bearer, dir, IV)
    requires length <= 0xffff_ffe0 && Fits(data, length) && i < |data|
    ensures
      var ks := KeyStream(k, IV, (length + 31) / 32);
      var x := if i < 4 * |ks| then data[i] ^ StreamOctet(ks, i) else data[i];
      F8(key, count, bearer as bv32, dir as bv32, data, length)[i]
      == if length % 8 != 0 && i == length / 8 then FirstBits(x, length % 8) else x
  {
    hide KeyStream, F8, StreamOctet, KeyOctet, FirstBits, Keep, Fits, IsKey, IsF8Variable, KeyWords, F8IV;
    KeyWordsAre(key, k);
    F8VariableIs(count, bearer, dir, IV);
    F8At(key, count, bearer as bv32, dir as bv32, data, length, i);
    assert WordCount(length) == (length + 31) / 32;
    var ks := KeyStream(k, IV, (length + 31) / 32);
    if i < 4 * |ks| {
      KeyOctetIs(ks, i);
      XorIs8(data[i], StreamOctet(ks, i));
      if length % 8 != 0 {
        KeepIsFirstBits(Xor8(data[i], StreamOctet(ks, i)), length % 8);
      }
    } else if length % 8 != 0 {
      KeepIsFirstBits(data[i], length % 8);
    }
  }

  lemma XorIs8(a: bv8, b: bv8)
    ensures Xor8(a, b) == a ^ b
  {
  }

  // ----- f9: the message in blocks, and the length

  /** Octet k of the message, with zeros behind its last bit. */
  function Padded(data: seq<bv8>, length: nat, k: nat): bv8
    requires length <= 8 * |data|
  {
    if 8 * k + 8 <= length then data[k] else if 8 * k < length then FirstBits(data[k], length - 8 * k) else 0
  }

  /** The 64-bit words that are the message in ceil(length / 64) blocks, the first octet highest. */
  predicate AreBlocks(data: seq<bv8>, length: nat, blocks: seq<bv64>)
    requires length <= 8 * |data|
  {
    && |blocks| == (length + 63) / 64
    && forall j | 0 <= j < |blocks| :: IsBlock(data, length, j, blocks[j])
  }

  predicate IsBlock(data: seq<bv8>, length: nat, j: nat, m: bv64)
    requires length <= 8 * |data|
  {
    && (m >> 56) as bv8 == Padded(data, length, 8 * j)
    && ((m >> 48) & 0xff) as bv8 == Padded(data, length, 8 * j + 1)
    && ((m >> 40) & 0xff) as bv8 == Padded(data, length, 8 * j + 2)
    && ((m >> 32) & 0xff) as bv8 == Padded(data, length, 8 * j + 3)
    && ((m >> 24) & 0xff) as bv8 == Padded(data, length, 8 * j + 4)
    && ((m >> 16) & 0xff) as bv8 == Padded(data, length, 8 * j + 5)
    && ((m >> 8) & 0xff) as bv8 == Padded(data, length, 8 * j + 6)
    && (m & 0xff) as bv8 == Padded(data, length, 8 * j + 7)
  }

  lemma PaddedIs(data: seq<bv8>, length: nat, k: nat)
    requires length <= 8 * |data|
    ensures MessageOctet(data, length, k) == Padded(data, length, k)
  {
    hide Keep, FirstBits;
    if 8 * k < length {
      KeepIsFirstBits(data[k], if length - 8 * k < 8 then length - 8 * k else 8);
      EightBits(data[k]);
    }
  }

  lemma EightBits(o: bv8)
    ensures FirstBits(o, 8) == o
  {
  }

  lemma JoinIs(m: bv64, a: bv8, b: bv8, c: bv8, d: bv8, e: bv8, f: bv8, g: bv8, h: bv8)
    requires (m >> 56) as bv8 == a && ((m >> 48) & 0xff) as bv8 == b && ((m >> 40) & 0xff) as bv8 == c
    requires ((m >> 32) & 0xff) as bv8 == d && ((m >> 24) & 0xff) as bv8 == e && ((m >> 16) & 0xff) as bv8 == f
    requires ((m >> 8) & 0xff) as bv8 == g && (m & 0xff) as bv8 == h
    ensures m == Join(a, b, c, d, e, f, g, h)
  {
  }

  lemma BlockIs(data: seq<bv8>, length: nat, j: nat, m: bv64)
    requires length <= 8 * |data| && IsBlock(data, length, j, m)
    ensures m == Block(data, length, j)
  {
    hide Padded, MessageOctet;
    PaddedIs(data, length, 8 * j);
    PaddedIs(data, length, 8 * j + 1);
    PaddedIs(data, length, 8 * j + 2);
    PaddedIs(data, length, 8 * j + 3);
    PaddedIs(data, length, 8 * j + 4);
    PaddedIs(data, length, 8 * j + 5);
    PaddedIs(data, length, 8 * j + 6);
    PaddedIs(data, length, 8 * j + 7);
    JoinIs(m, Padded(data, length, 8 * j), Padded(data, length, 8 * j + 1), Padded(data, length, 8 * j + 2),
           Padded(data, length, 8 * j + 3), Padded(data, length, 8 * j + 4), Padded(data, length, 8 * j + 5),
           Padded(data, length, 8 * j + 6), Padded(data, length, 8 * j + 7));
    hide Join;
  }

  // ----- the length as a number

  function Value8(o: bv8): nat { o as nat }

  lemma BehindValue(x: bv64, o: bv8)
    requires x < 0x100_0000_0000_0000
    ensures ((x << 8) | (o as bv64)) as nat == 256 * (x as nat) + (o as nat)
  {
  }

  lemma BehindBound(x: bv64, o: bv8)
    ensures x < 0x100 ==> (x << 8) | (o as bv64) < 0x1_0000
    ensures x < 0x1_0000 ==> (x << 8) | (o as bv64) < 0x100_0000
    ensures x < 0x100_0000 ==> (x << 8) | (o as bv64) < 0x1_0000_0000
    ensures x < 0x1_0000_0000 ==> (x << 8) | (o as bv64) < 0x100_0000_0000
    ensures x < 0x100_0000_0000 ==> (x << 8) | (o as bv64) < 0x1_0000_0000_0000
    ensures x < 0x1_0000_0000_0000 ==> (x << 8) | (o as bv64) < 0x100_0000_0000_0000
  {
  }

  function Appended(x: bv64, o: bv8): bv64 { (x << 8) | (o as bv64) }

  function Lifted(o: bv8): bv64 { o as bv64 }

  /** x has at most so many octets. */
  predicate Within(x: bv64, octets: nat) {
    if octets <= 1 then x < 0x100 else if octets == 2 then x < 0x1_0000 else if octets == 3 then x < 0x100_0000 else
    if octets == 4 then x < 0x1_0000_0000 else if octets == 5 then x < 0x100_0000_0000 else
    if octets == 6 then x < 0x1_0000_0000_0000 else x < 0x100_0000_0000_0000
  }

  lemma OneOctet(o: bv8)
    ensures Within(Lifted(o), 1) && Number64(Lifted(o)) == Value8(o)
  {
  }

  /** An octet put behind a number of `octets` octets. */
  lemma Behind(x: bv64, o: bv8, octets: nat)
    requires 1 <= octets <= 7 && Within(x, octets)
    ensures Number64(Appended(x, o)) == 256 * Number64(x) + Value8(o)
    ensures octets < 7 ==> Within(Appended(x, o), octets + 1)
  {
    WithinSeven(x, octets);
    BehindNumber(x, o);
    WithinMore(x, o, octets);
    hide *;
  }

  lemma WithinSeven(x: bv64, octets: nat)
    requires 1 <= octets <= 7 && Within(x, octets)
    ensures x < 0x100_0000_0000_0000
  {
  }

  lemma WithinMore(x: bv64, o: bv8, octets: nat)
    requires 1 <= octets < 7 ==> Within(x, octets)
    ensures 1 <= octets < 7 ==> Within(Appended(x, o), octets + 1)
  {
    BehindBound(x, o);
  }

  lemma BehindNumber(x: bv64, o: bv8)
    requires x < 0x100_0000_0000_0000
    ensures Number64(Appended(x, o)) == 256 * Number64(x) + Value8(o)
  {
    BehindValue(x, o);
  }

  function FourOf(a: bv8, b: bv8, c: bv8, d: bv8): nat {
    256 * (256 * (256 * Value8(a) + Value8(b)) + Value8(c)) + Value8(d)
  }

  lemma JoinValue(a: bv8, b: bv8, c: bv8, d: bv8, e: bv8, f: bv8, g: bv8, h: bv8)
    ensures Number64(Join(a, b, c, d, e, f, g, h))
         == 256 * (256 * (256 * (256 * FourOf(a, b, c, d) + Value8(e)) + Value8(f)) + Value8(g)) + Value8(h)
  {
    hide *;
    var y4 := FourValue(a, b, c, d);
    Behind(y4, e, 4);
    Behind(Appended(y4, e), f, 5);
    Behind(Appended(Appended(y4, e), f), g, 6);
    Behind(Appended(Appended(Appended(y4, e), f), g), h, 7);
    JoinSteps(a, b, c, d, e, f, g, h);
  }

  lemma FourValue(a: bv8, b: bv8, c: bv8, d: bv8) returns (y: bv64)
    ensures y == Appended(Appended(Appended(Lifted(a), b), c), d) && Within(y, 4)
    ensures Number64(y) == FourOf(a, b, c, d)
  {
    hide Number64, Value8, Lifted, Appended, Within;
    y := Appended(Appended(Appended(Lifted(a), b), c), d);
    OneOctet(a);
    Behind(Lifted(a), b, 1);
    Behind(Appended(Lifted(a), b), c, 2);
    Behind(Appended(Appended(Lifted(a), b), c), d, 3);
  }

  lemma JoinSteps(a: bv8, b: bv8, c: bv8, d: bv8, e: bv8, f: bv8, g: bv8, h: bv8)
    ensures
      var y4 := Appended(Appended(Appended(Lifted(a), b), c), d);
      Join(a, b, c, d, e, f, g, h) == Appended(Appended(Appended(Appended(y4, e), f), g), h)
  {
  }

  lemma DigitValue(n: nat)
    ensures Value8(Digit(n)) == n % 256
  {
    OctetAndBack(n % 256);
  }

  /** The word that f9 adds for the length is the length. */
  lemma LengthWord(length: nat, l: bv64)
    requires length < TWO64
    ensures l == WordOf(length) <==> Number64(l) == length
  {
    WordValue(length);
    hide WordOf, Number64, Word64;
    NumberBack64(l);
    NumberBack64(WordOf(length));
  }

  lemma WordValue(n: nat)
    requires n < TWO64
    ensures Number64(WordOf(n)) == n
  {
    hide Number64, Value8, Join, Digit, FourOf;
    var n1 := n / 256;
    var n2 := n1 / 256;
    var n3 := n2 / 256;
    var n4 := n3 / 256;
    DigitValue(n);
    DigitValue(n1);
    DigitValue(n2);
    DigitValue(n3);
    UpperValue(n4);
    JoinValue(Digit(n4 / 256 / 256 / 256), Digit(n4 / 256 / 256), Digit(n4 / 256), Digit(n4),
              Digit(n3), Digit(n2), Digit(n1), Digit(n));
  }

  lemma UpperValue(n: nat)
    requires n < 0x1_0000_0000
    ensures FourOf(Digit(n / 256 / 256 / 256), Digit(n / 256 / 256), Digit(n / 256), Digit(n)) == n
  {
    hide Value8, Digit;
    var n1 := n / 256;
    var n2 := n1 / 256;
    var n3 := n2 / 256;
    DigitValue(n);
    DigitValue(n1);
    DigitValue(n2);
    TopDigit(n);
    FourDigits(n, n1, n2, n3, n % 256, n1 % 256, n2 % 256);
  }

  lemma TopDigit(n: nat)
    requires n < 0x1_0000_0000
    ensures Value8(Digit(n / 256 / 256 / 256)) == n / 256 / 256 / 256
  {
    hide Value8, Digit;
    DigitValue(n / 256 / 256 / 256);
  }

  lemma FourDigits(n: nat, n1: nat, n2: nat, n3: nat, d: nat, d1: nat, d2: nat)
    requires n == 256 * n1 + d && n1 == 256 * n2 + d1 && n2 == 256 * n3 + d2
    ensures 256 * (256 * (256 * n3 + d2) + d1) + d == n
  {
  }

  // ----- f9

  /** The sum over all n blocks of block j times P^(n - j). */
  function Sum(blocks: seq<bv64>, P: bv64, k: nat): bv64
    requires k <= |blocks|
  {
    if k == 0 then 0
    else Gf64.Add(Sum(blocks, P, k - 1),
                  Gf64.Product(blocks[k - 1], Gf64.Power(P, |blocks| - (k - 1), 0x1b), 0x1b))
  }

  lemma {:induction false} SumIsTerms(data: seq<bv8>, length: nat, blocks: seq<bv64>, P: bv64, k: nat)
    requires length <= 8 * |data| && AreBlocks(data, length, blocks) && k <= |blocks|
    ensures Sum(blocks, P, k) == Terms(data, length, P, |blocks|, k)
    decreases k
  {
    hide Gf64.Product, Gf64.Power, Gf64.Add, Block, IsBlock;
    if k > 0 {
      SumIsTerms(data, length, blocks, P, k - 1);
      assert IsBlock(data, length, k - 1, blocks[k - 1]);
      BlockIs(data, length, k - 1, blocks[k - 1]);
    }
  }

  /** For every message of 1 bit to 2^35 bits: with the words z1 to z5 that the generator makes from the key and the
      variable, P being z1 and z2 and Q being z3 and z4, the MAC is the upper half of the polynomial in P plus the
      length, times Q, with z5 added. */
  lemma F9Standard(key: Key, c: seq<bv8>, f: seq<bv8>, dir: bv8, data: seq<bv8>, length: nat, k: Quad, IV: Quad,
                   blocks: seq<bv64>, l: bv64)
    requires |c| == |f| == 4 && dir < 2 && IsKey(key, k) && IsF9Variable(c, f, dir, IV)
    requires 1 <= length <= 0x8_0000_0000 && length <= 8 * |data|
    requires AreBlocks(data, length, blocks) && Number64(l) == length
    ensures Readable(data, length)
    ensures
      var z := KeyStream(k, IV, 5);
      var p, q := (z[0] as bv64 << 32) | (z[1] as bv64), (z[2] as bv64 << 32) | (z[3] as bv64);
      var e := Gf64.Product(Gf64.Add(Sum(blocks, p, |blocks|), l), q, 0x1b);
      SourceF9(key, Word(c[0], c[1], c[2], c[3]), Word(f[0], f[1], f[2], f[3]), dir as bv32, data, length)
      == Xor((e >> 32) as bv32, z[4])
  {
    var count, nonce := Word(c[0], c[1], c[2], c[3]), Word(f[0], f[1], f[2], f[3]);
    KeyWordsAre(key, k);
    F9VariableIs(c, f, dir, IV);
    hide *;
    ReadableExactly(data, length);
    SourceIsF9(key, count, nonce, dir as bv32, data, length);
    MacIs(key, count, nonce, dir as bv32, data, length, k, IV, blocks, l);
  }

  lemma MacIs(key: Key, count: bv32, nonce: bv32, dir: bv32, data: seq<bv8>, length: nat, k: Quad, IV: Quad,
              blocks: seq<bv64>, l: bv64)
    requires KeyWords(key) == k && F9IV(count, nonce, dir) == IV
    requires 1 <= length <= 0x8_0000_0000 && length <= 8 * |data|
    requires AreBlocks(data, length, blocks) && Number64(l) == length
    ensures
      var z := KeyStream(k, IV, 5);
      var p, q := (z[0] as bv64 << 32) | (z[1] as bv64), (z[2] as bv64 << 32) | (z[3] as bv64);
      var e := Gf64.Product(Gf64.Add(Sum(blocks, p, |blocks|), l), q, 0x1b);
      F9(key, count, nonce, dir, data, length) == Xor((e >> 32) as bv32, z[4])
  {
    hide KeyStream, KeyWords, F9IV, AreBlocks, WordOf, Number64, Horner, Terms, Sum, Gf64.Product, Gf64.Add, Xor;
    var z := KeyStream(k, IV, 5);
    LengthWord(length, l);
    EvalIsSum(data, length, blocks, P(z));
  }

  lemma EvalIsSum(data: seq<bv8>, length: nat, blocks: seq<bv64>, P: bv64)
    requires length <= 8 * |data| && AreBlocks(data, length, blocks)
    ensures Eval(data, length, P) == Sum(blocks, P, |blocks|)
  {
    hide IsBlock, Horner, Terms, Sum;
    HornerIsPolynomial(data, length, P, |blocks|);
    SumIsTerms(data, length, blocks, P, |blocks|);
  }
}
