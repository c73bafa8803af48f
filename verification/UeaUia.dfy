/** The UEA2 cipher f8 and the UIA2 message authentication f9 (3GPP TS 35.215, sections 3 and 4), on top of the
    SNOW 3G machine. Messages are bit strings, most significant bit of the first octet first. */
module UeaUia {
  import opened Gf8
  import opened MsbBits
  import opened Alpha
  import opened Snow3g
  import Gf64

  type Key = k: seq<bv8> | |k| == 16 witness seq(16, _ => 0)

  // ----- bits and masks

  /** The r most significant bits of an octet. */
  function TopBits(r: nat): bv8
    requires r <= 8
  {
    if r == 0 then 0x00 else if r == 1 then 0x80 else if r == 2 then 0xc0 else if r == 3 then 0xe0 else
    if r == 4 then 0xf0 else if r == 5 then 0xf8 else if r == 6 then 0xfc else if r == 7 then 0xfe else 0xff
  }

  function Keep(a: bv8, r: nat): bv8
    requires r <= 8
  {
    And8(a, TopBits(r))
  }

  /** Bit i of an octet string. */
  predicate Bit(data: seq<bv8>, i: nat)
    requires i < 8 * |data|
  {
    OctetBit(data[i / 8], i % 8)
  }

  /** The mask f8 applies to its last octet, and the mask of mask8bit, which f9 applies. */
  function LastMask(lastbits: nat): bv8
    requires 1 <= lastbits <= 7
  {
    0 - ((1 as bv8) << lastbits)
  }

  function mask8bit(n: nat): bv8
    requires 1 <= n <= 7
  {
    0xff ^ (((1 as bv8) << (8 - n)) - 1)
  }

  lemma MasksKeepTopBits(r: nat)
    requires 1 <= r <= 7
    ensures LastMask(8 - r) == TopBits(r)
    ensures mask8bit(r) == TopBits(r)
  {
    if r == 1 {
    } else if r == 2 {
    } else if r == 3 {
    } else if r == 4 {
    } else if r == 5 {
    } else if r == 6 {
    } else {
      assert r == 7;
    }
  }

  lemma KeepLaws(a: bv8, b: bv8, r: nat)
    requires r <= 8
    ensures Keep(Xor8(a, b), r) == Xor8(Keep(a, r), Keep(b, r))
    ensures Keep(Keep(a, r), r) == Keep(a, r)
  {
    hide TopBits, And8, Xor8;
    AndXor(a, b, TopBits(r));
    AndTwice(a, TopBits(r));
  }

  lemma AndXor(a: bv8, b: bv8, m: bv8)
    ensures And8(Xor8(a, b), m) == Xor8(And8(a, m), And8(b, m))
  {
  }

  lemma AndTwice(a: bv8, m: bv8)
    ensures And8(And8(a, m), m) == And8(a, m)
  {
  }

  lemma KeepTwice(a: bv8, k: bv8, r: nat)
    requires r <= 8
    ensures Keep(Xor8(Keep(Xor8(a, k), r), k), r) == Keep(a, r)
  {
    hide *;
    KeepLaws(Keep(Xor8(a, k), r), k, r);
    KeepLaws(Xor8(a, k), k, r);
    KeepLaws(Xor8(a, k), k, r);
    Cancel(a, k);
  }

  // ----- loading the machine

  function KeyWords(key: Key): Quad {
    [Word(key[12], key[13], key[14], key[15]), Word(key[8], key[9], key[10], key[11]),
     Word(key[4], key[5], key[6], key[7]), Word(key[0], key[1], key[2], key[3])]
  }

  function F8IV(count: bv32, bearer: bv32, dir: bv32): Quad {
    var w := (bearer << 27) | ((dir & 0x1) << 26);
    [w, count, w, count]
  }

  /** The direction at bit 31 of COUNT, and at bit 15 of FRESH. */
  function DirectedCount(count: bv32, dir: bv32): bv32 { count ^ (dir << 31) }

  function DirectedFresh(nonce: bv32, dir: bv32): bv32 { nonce ^ (dir << 15) }

  function F9IV(count: bv32, nonce: bv32, dir: bv32): Quad {
    [DirectedFresh(nonce, dir), DirectedCount(count, dir), nonce, count]
  }

  lemma WordInjective(a0: bv8, a1: bv8, a2: bv8, a3: bv8, b0: bv8, b1: bv8, b2: bv8, b3: bv8)
    requires Word(a0, a1, a2, a3) == Word(b0, b1, b2, b3)
    ensures a0 == b0 && a1 == b1 && a2 == b2 && a3 == b3
  {
    hide *;
    OctetsOfWord(a0, a1, a2, a3);
    OctetsOfWord(b0, b1, b2, b3);
  }

  lemma KeyWordsInjective(key: Key, key': Key)
    requires KeyWords(key) == KeyWords(key')
    ensures key == key'
  {
    hide Word;
    var w, w' := KeyWords(key), KeyWords(key');
    assert w[0] == w'[0] && w[1] == w'[1] && w[2] == w'[2] && w[3] == w'[3];
    WordInjective(key[0], key[1], key[2], key[3], key'[0], key'[1], key'[2], key'[3]);
    WordInjective(key[4], key[5], key[6], key[7], key'[4], key'[5], key'[6], key'[7]);
    WordInjective(key[8], key[9], key[10], key[11], key'[8], key'[9], key'[10], key'[11]);
    WordInjective(key[12], key[13], key[14], key[15], key'[12], key'[13], key'[14], key'[15]);
  }

  lemma F8IVInjective(count: bv32, bearer: bv32, dir: bv32, count': bv32, bearer': bv32, dir': bv32)
    requires bearer < 32 && bearer' < 32 && dir < 2 && dir' < 2
    requires F8IV(count, bearer, dir) == F8IV(count', bearer', dir')
    ensures count == count' && bearer == bearer' && dir == dir'
  {
    var iv, iv' := F8IV(count, bearer, dir), F8IV(count', bearer', dir');
    assert iv[0] == iv'[0] && iv[1] == iv'[1];
    BearerDirection(bearer, dir, bearer', dir');
  }

  lemma BearerDirection(b: bv32, d: bv32, b': bv32, d': bv32)
    requires b < 32 && b' < 32 && d < 2 && d' < 2
    requires (b << 27) | ((d & 0x1) << 26) == (b' << 27) | ((d' & 0x1) << 26)
    ensures b == b' && d == d'
  {
  }

  /** No two uses of f8 with different keys or different (count, bearer, direction) ever share a generator state. */
  lemma F8NeverSharesState(key: Key, count: bv32, bearer: bv32, dir: bv32,
                           key': Key, count': bv32, bearer': bv32, dir': bv32, n: nat)
    requires bearer < 32 && bearer' < 32 && dir < 2 && dir' < 2
    requires key != key' || count != count' || bearer != bearer' || dir != dir'
    ensures Steps(Initialize(KeyWords(key), F8IV(count, bearer, dir)), n)
         != Steps(Initialize(KeyWords(key'), F8IV(count', bearer', dir')), n)
  {
    hide *;
    if KeyWords(key) == KeyWords(key') {
      KeyWordsInjective(key, key');
    }
    if F8IV(count, bearer, dir) == F8IV(count', bearer', dir') {
      F8IVInjective(count, bearer, dir, count', bearer', dir');
    }
    RunsNeverMerge(KeyWords(key), F8IV(count, bearer, dir), KeyWords(key'), F8IV(count', bearer', dir'), n);
  }

  lemma F9IVInjective(count: bv32, nonce: bv32, dir: bv32, count': bv32, nonce': bv32, dir': bv32)
    requires dir < 2 && dir' < 2
    requires F9IV(count, nonce, dir) == F9IV(count', nonce', dir')
    ensures count == count' && nonce == nonce' && dir == dir'
  {
    var iv, iv' := F9IV(count, nonce, dir), F9IV(count', nonce', dir');
    assert iv[2] == iv'[2] && iv[3] == iv'[3] && iv[1] == iv'[1];
    OneDirection(count, dir, dir');
  }

  lemma OneDirection(count: bv32, d: bv32, d': bv32)
    requires d < 2 && d' < 2 && count ^ (d << 31) == count ^ (d' << 31)
    ensures d == d'
  {
  }

  /** Nor do two uses of f9 with different keys or different (count, fresh, direction). */
  lemma F9NeverSharesState(key: Key, count: bv32, nonce: bv32, dir: bv32,
                           key': Key, count': bv32, nonce': bv32, dir': bv32, n: nat)
    requires dir < 2 && dir' < 2
    requires key != key' || count != count' || nonce != nonce' || dir != dir'
    ensures Steps(Initialize(KeyWords(key), F9IV(count, nonce, dir)), n)
         != Steps(Initialize(KeyWords(key'), F9IV(count', nonce', dir')), n)
  {
    hide *;
    if KeyWords(key) == KeyWords(key') {
      KeyWordsInjective(key, key');
    }
    if F9IV(count, nonce, dir) == F9IV(count', nonce', dir') {
      F9IVInjective(count, nonce, dir, count', nonce', dir');
    }
    RunsNeverMerge(KeyWords(key), F9IV(count, nonce, dir), KeyWords(key'), F9IV(count', nonce', dir'), n);
  }

  // ----- f8
  //
  // `data` is the memory from the first octet of the message on. f8 works on whole words, so for most lengths it writes
  // beyond the octets of the message; `Fits` says that this memory is there.

  /** The number of keystream words: the sum wraps at 32 bits, as in the source. */
  function WordCount(length: nat): nat {
    ((length + 31) % 0x1_0000_0000) / 32
  }

  function WordOctet(w: bv32, i: nat): bv8
    requires i < 4
  {
    if i == 0 then Octet0(w) else if i == 1 then Octet1(w) else if i == 2 then Octet2(w) else Octet3(w)
  }

  /** Octet i of a keystream. */
  function KeyOctet(ks: seq<bv32>, i: nat): bv8
    requires i < 4 * |ks|
  {
    WordOctet(ks[i / 4], i % 4)
  }

  predicate Fits(data: seq<bv8>, length: nat) {
    4 * WordCount(length) <= |data| && (length % 8 != 0 ==> length / 8 < |data|)
  }

  function MaskLast(data: seq<bv8>, length: nat): (r: seq<bv8>)
    requires Fits(data, length)
    ensures |r| == |data|
  {
    if length % 8 == 0 then data else data[length / 8 := Keep(data[length / 8], length % 8)]
  }

  function XorKeyStream(data: seq<bv8>, ks: seq<bv32>): (r: seq<bv8>)
    requires 4 * |ks| <= |data|
    ensures |r| == |data|
  {
    seq(|data|, i requires 0 <= i < |data| => if i < 4 * |ks| then Xor8(data[i], KeyOctet(ks, i)) else data[i])
  }

  /** What f8 does to the data once the keystream is there. */
  function Encipher(data: seq<bv8>, ks: seq<bv32>, length: nat): (r: seq<bv8>)
    requires Fits(data, length) && |ks| == WordCount(length)
    ensures |r| == |data|
  {
    MaskLast(XorKeyStream(data, ks), length)
  }

  function F8(key: Key, count: bv32, bearer: bv32, dir: bv32, data: seq<bv8>, length: nat): (r: seq<bv8>)
    requires Fits(data, length)
    ensures |r| == |data|
  {
    Encipher(data, KeyStream(KeyWords(key), F8IV(count, bearer, dir), WordCount(length)), length)
  }

  lemma EncipherTwice(data: seq<bv8>, ks: seq<bv32>, length: nat)
    requires Fits(data, length) && |ks| == WordCount(length)
    ensures Encipher(Encipher(data, ks, length), ks, length) == MaskLast(data, length)
  {
    hide Xor8, KeyOctet, Keep, Encipher, MaskLast;
    var once := Encipher(data, ks, length);
    var twice := Encipher(once, ks, length);
    forall i | 0 <= i < |data|
      ensures twice[i] == MaskLast(data, length)[i]
    {
      EncipherAt(data, ks, length, i);
      EncipherAt(once, ks, length, i);
      MaskLastAt(data, length, i);
      if i < 4 * |ks| {
        Cancel(data[i], KeyOctet(ks, i));
        KeepTwice(data[i], KeyOctet(ks, i), length % 8);
      } else {
        KeepLaws(data[i], 0, length % 8);
      }
    }
  }

  lemma MaskLastAt(data: seq<bv8>, length: nat, i: nat)
    requires Fits(data, length) && i < |data|
    ensures MaskLast(data, length)[i]
         == if length % 8 != 0 && i == length / 8 then Keep(data[i], length % 8) else data[i]
  {
    hide Keep;
  }

  lemma EncipherAt(data: seq<bv8>, ks: seq<bv32>, length: nat, i: nat)
    requires Fits(data, length) && |ks| == WordCount(length) && i < |data|
    ensures var x := if i < 4 * |ks| then Xor8(data[i], KeyOctet(ks, i)) else data[i];
            Encipher(data, ks, length)[i] == if length % 8 != 0 && i == length / 8 then Keep(x, length % 8) else x
  {
    hide Xor8, KeyOctet, Keep, MaskLast;
    MaskLastAt(XorKeyStream(data, ks), length, i);
  }

  /** Enciphering twice gives the data back, octet by octet, but for the unused low bits of the last octet: these
      are zero. The octets behind the message up to the next word boundary come back as well. */
  lemma F8Involution(key: Key, count: bv32, bearer: bv32, dir: bv32, data: seq<bv8>, length: nat)
    requires Fits(data, length)
    ensures F8(key, count, bearer, dir, F8(key, count, bearer, dir, data, length), length) == MaskLast(data, length)
  {
    hide KeyStream, F8IV, KeyWords, Encipher, MaskLast;
    EncipherTwice(data, KeyStream(KeyWords(key), F8IV(count, bearer, dir), WordCount(length)), length);
  }

  lemma BitOfXor(a: bv8, b: bv8, r: nat)
    requires r < 8
    ensures OctetBit(Xor8(a, b), r) <==> OctetBit(a, r) != OctetBit(b, r)
  {
    hide And8, Xor8, BitMask;
    AndXor(a, b, BitMask(r));
    OneBit(a, r);
    OneBit(b, r);
    Cancel(BitMask(r), 0);
    Cancel(0, 0);
  }

  lemma OneBit(a: bv8, r: nat)
    requires r < 8
    ensures And8(a, BitMask(r)) == 0 || And8(a, BitMask(r)) == BitMask(r)
    ensures BitMask(r) != 0
  {
  }

  lemma MaskKeepsBit(a: bv8, r: nat, n: nat)
    requires r < n <= 8
    ensures OctetBit(Keep(a, n), r) <==> OctetBit(a, r)
  {
  }

  /** Each of the first `length` bits is exclusive-ored with its keystream bit, for every length whose word count
      does not wrap. */
  lemma F8Bits(key: Key, count: bv32, bearer: bv32, dir: bv32, data: seq<bv8>, length: nat, i: nat)
    requires i < length <= 0xffff_ffe0 && Fits(data, length)
    ensures i < 32 * WordCount(length) && i < 8 * |data|
    ensures var ks := KeyStream(KeyWords(key), F8IV(count, bearer, dir), WordCount(length));
            Bit(F8(key, count, bearer, dir, data, length), i)
            <==> Bit(data, i) != OctetBit(KeyOctet(ks, i / 8), i % 8)
  {
    hide KeyStream, F8IV, KeyWords, KeyOctet, Xor8, Keep, OctetBit, Encipher;
    var ks := KeyStream(KeyWords(key), F8IV(count, bearer, dir), WordCount(length));
    EncipherAt(data, ks, length, i / 8);
    BitOfXor(data[i / 8], KeyOctet(ks, i / 8), i % 8);
    if i / 8 == length / 8 {
      MaskKeepsBit(Xor8(data[i / 8], KeyOctet(ks, i / 8)), i % 8, length % 8);
    }
  }

  /** Every message bit has a keystream bit exactly for lengths up to 2^32 - 32. Beyond, the word count wraps to 0
      and the message leaves f8 as it came, but for the masked bits. */
  lemma F8Coverage(key: Key, count: bv32, bearer: bv32, dir: bv32, data: seq<bv8>, length: nat)
    requires length < 0x1_0000_0000 && Fits(data, length)
    ensures length <= 32 * WordCount(length) <==> length <= 0xffff_ffe0
    ensures length > 0xffff_ffe0 ==> F8(key, count, bearer, dir, data, length) == MaskLast(data, length)
  {
    hide KeyStream, F8IV, KeyWords, Xor8, KeyOctet;
    if length > 0xffff_ffe0 {
      assert WordCount(length) == 0;
      assert XorKeyStream(data, []) == data;
    }
  }

  /** What becomes of every octet of the memory: up to the last whole word it is exclusive-ored with the keystream, and
      the octet in which the message ends loses the bits that do not belong to it. */
  lemma F8At(key: Key, count: bv32, bearer: bv32, dir: bv32, data: seq<bv8>, length: nat, i: nat)
    requires Fits(data, length) && i < |data|
    ensures
      var ks := KeyStream(KeyWords(key), F8IV(count, bearer, dir), WordCount(length));
      var x := if i < 4 * |ks| then Xor8(data[i], KeyOctet(ks, i)) else data[i];
      F8(key, count, bearer, dir, data, length)[i]
      == if length % 8 != 0 && i == length / 8 then Keep(x, length % 8) else x
  {
    hide KeyStream, F8IV, KeyWords, Encipher, Xor8, KeyOctet, Keep;
    EncipherAt(data, KeyStream(KeyWords(key), F8IV(count, bearer, dir), WordCount(length)), length, i);
  }

  /** f8 stays inside the octets of the message exactly for messages that end in the last octet of a word, or that are
      so long that the word count wraps to 0. */
  lemma F8StaysInside(length: nat)
    requires length < 0x1_0000_0000
    ensures 4 * WordCount(length) <= (length + 7) / 8
            <==> length % 32 == 0 || length % 32 > 24 || length > 0xffff_ffe0
  {
    var q, r := length / 32, length % 32;
    assert length == 32 * q + r;
    assert WordCount(length) == if length > 0xffff_ffe0 then 0 else q + (r + 31) / 32;
    assert (length + 7) / 8 == 4 * q + (r + 7) / 8;
  }

  // ----- the source's f8

  /** The loop that loads the key into four words, the last one first. */
  method LoadKey(key: Key) returns (K: Quad)
    ensures K == KeyWords(key)
  {
    hide Word;
    var a := new bv32[4];
    for i := 0 to 4
      invariant forall k | 4 - i <= k < 4 ::
                  a[k] == Word(key[12 - 4 * k], key[13 - 4 * k], key[14 - 4 * k], key[15 - 4 * k])
    {
      a[3 - i] := Word(key[4 * i], key[4 * i + 1], key[4 * i + 2], key[4 * i + 3]);
    }
    K := a[..];
  }

  lemma KeyOctetPrefix(ks: seq<bv32>, n: nat, j: nat)
    requires n <= |ks| && j < 4 * n
    ensures KeyOctet(ks[..n], j) == KeyOctet(ks, j)
  {
    hide WordOctet;
  }

  lemma KeyOctets(ks: seq<bv32>, i: nat)
    requires i < |ks|
    ensures KeyOctet(ks, 4 * i) == Octet0(ks[i]) && KeyOctet(ks, 4 * i + 1) == Octet1(ks[i])
    ensures KeyOctet(ks, 4 * i + 2) == Octet2(ks[i]) && KeyOctet(ks, 4 * i + 3) == Octet3(ks[i])
  {
    hide Octet0, Octet1, Octet2, Octet3;
  }

  lemma KeepForm(a: bv8, r: nat)
    requires 1 <= r <= 7
    ensures And8(a, LastMask(8 - r)) == Keep(a, r)
    ensures And8(a, mask8bit(r)) == Keep(a, r)
  {
    MasksKeepTopBits(r);
  }

  lemma KeyStreamForm(k: Quad, IV: Quad, n: nat)
    ensures KeyStream(k, IV, n) == KeyStreamFrom(Step(Initialize(k, IV)), n)
  {
  }

  function XorWord(data: seq<bv8>, i: nat, w: bv32): seq<bv8>
    requires 4 * i + 4 <= |data|
  {
    data[4 * i := Xor8(data[4 * i], Octet0(w))]
        [4 * i + 1 := Xor8(data[4 * i + 1], Octet1(w))]
        [4 * i + 2 := Xor8(data[4 * i + 2], Octet2(w))]
        [4 * i + 3 := Xor8(data[4 * i + 3], Octet3(w))]
  }

  lemma XorNextWord(data: seq<bv8>, ks: seq<bv32>, i: nat)
    requires i < |ks| && 4 * |ks| <= |data|
    ensures XorKeyStream(data, ks[..i + 1]) == XorWord(XorKeyStream(data, ks[..i]), i, ks[i])
  {
    hide Xor8, Octet0, Octet1, Octet2, Octet3, KeyOctet;
    var a, b := XorKeyStream(data, ks[..i + 1]), XorWord(XorKeyStream(data, ks[..i]), i, ks[i]);
    KeyOctets(ks[..i + 1], i);
    forall j | 0 <= j < |data|
      ensures a[j] == b[j]
    {
      if j < 4 * i {
        KeyOctetPrefix(ks, i, j);
        KeyOctetPrefix(ks, i + 1, j);
      }
    }
  }

  /** The body of the source's loop. */
  method XorWordInPlace(data: array<bv8>, i: nat, w: bv32)
    requires 4 * i + 4 <= data.Length
    modifies data
    ensures data[..] == XorWord(old(data[..]), i, w)
  {
    hide Xor8, Octet0, Octet1, Octet2, Octet3;
    data[4 * i + 0] := Xor8(data[4 * i + 0], Octet0(w));
    data[4 * i + 1] := Xor8(data[4 * i + 1], Octet1(w));
    data[4 * i + 2] := Xor8(data[4 * i + 2], Octet2(w));
    data[4 * i + 3] := Xor8(data[4 * i + 3], Octet3(w));
  }

  method XorWords(data: array<bv8>, KS: array<bv32>)
    requires 4 * KS.Length <= data.Length
    modifies data
    ensures data[..] == XorKeyStream(old(data[..]), KS[..])
  {
    hide Xor8, KeyOctet, XorWord;
    ghost var was, ks := data[..], KS[..];
    for i := 0 to KS.Length
      invariant data[..] == XorKeyStream(was, ks[..i])
    {
      XorNextWord(was, ks, i);
      XorWordInPlace(data, i, KS[i]);
    }
    assert ks[..KS.Length] == ks;
  }

  /** The second half of the source's f8: the loop over the words and the masking of the last octet. */
  method XorInPlace(data: array<bv8>, KS: array<bv32>, length: nat)
    requires length < 0x1_0000_0000 && Fits(data[..], length) && KS.Length == WordCount(length)
    modifies data
    ensures data[..] == Encipher(old(data[..]), KS[..], length)
  {
    hide XorKeyStream, Keep, LastMask, And8;
    var lastbits := (8 - length % 8) % 8;
    XorWords(data, KS);
    if lastbits != 0 {
      KeepForm(data[length / 8], length % 8);
      data[length / 8] := And8(data[length / 8], LastMask(lastbits));
    }
  }

  method snow_3g_f8(machine: Snow, key: Key, count: bv32, bearer: bv32, dir: bv32, data: array<bv8>, length: nat)
    requires length < 0x1_0000_0000 && Fits(data[..], length)
    modifies machine, data
    ensures data[..] == F8(key, count, bearer, dir, old(data[..]), length)
  {
    hide KeyStream, KeyStreamFrom, KeyWords, Initialize, Step, Encipher;
    var n := WordCount(length);
    var KS := new bv32[n];
    var K := LoadKey(key);
    var w := (bearer << 27) | ((dir & 0x1) << 26);
    var IV: Quad := [w, count, w, count];
    machine.snow_3g_initialize(K, IV);
    machine.snow_3g_generate_key_stream(n, KS);
    assert KS[..] == KS[..n];
    KeyStreamForm(KeyWords(key), F8IV(count, bearer, dir), n);
    XorInPlace(data, KS, length);
  }

  // ----- the test suite's call of f8

  /** f__snow__3g__f8 passes the number of octets where f8 asks for the number of bits. beyond is the memory behind the
      data. */
  function CallF8(key: Key, count: bv32, bearer: bv32, dir: bv32, data: seq<bv8>, beyond: seq<bv8>): (r: seq<bv8>)
    requires Fits(data + beyond, |data|)
    ensures |r| == |data|
  {
    F8(key, count, bearer, dir, data + beyond, |data|)[..|data|]
  }

  method f__snow__3g__f8(machine: Snow, key: Key, count: bv32, bearer: bv32, is_downlink: bool, data: seq<bv8>,
                         beyond: seq<bv8>)
    returns (r: seq<bv8>)
    requires |data| < 0x8000_0000 && Fits(data + beyond, |data|)
    modifies machine
    ensures r == CallF8(key, count, bearer, if is_downlink then 1 else 0, data, beyond)
  {
    hide F8;
    var direction: bv32 := if is_downlink then 1 else 0;
    var mem := data + beyond;
    var buf := new bv8[|mem|](i requires 0 <= i < |mem| => mem[i]);
    assert buf[..] == mem;
    snow_3g_f8(machine, key, count, bearer, direction, buf, |data|);
    r := buf[..|data|];
    assert r == buf[..][..|data|];
  }

  lemma SameFit(a: seq<bv8>, b: seq<bv8>, beyond: seq<bv8>, length: nat)
    requires |a| == |b| && Fits(a + beyond, length)
    ensures Fits(b + beyond, length)
  {
  }

  /** The call made again on what it returned, with whatever lies in memory behind that. */
  function CallTwice(key: Key, count: bv32, bearer: bv32, dir: bv32, data: seq<bv8>, beyond: seq<bv8>,
                     beyond': seq<bv8>): (r: seq<bv8>)
    requires Fits(data + beyond, |data|) && Fits(data + beyond', |data|)
    ensures |r| == |data|
  {
    var once := CallF8(key, count, bearer, dir, data, beyond);
    SameFit(data, once, beyond', |data|);
    CallF8(key, count, bearer, dir, once, beyond')
  }

  /** Calling it on its own output gives the data back exactly if the number of octets is a multiple of 8, or if in the
      octet at an eighth of that number the bits are zero that f8 takes for unused. */
  lemma CallDecipheredExactly(key: Key, count: bv32, bearer: bv32, dir: bv32, data: seq<bv8>, beyond: seq<bv8>,
                              beyond': seq<bv8>)
    requires |data| < 0x8000_0000 && Fits(data + beyond, |data|) && Fits(data + beyond', |data|)
    ensures CallTwice(key, count, bearer, dir, data, beyond, beyond') == data
            <==> |data| % 8 == 0 || Keep(data[|data| / 8], |data| % 8) == data[|data| / 8]
  {
    hide CallTwice, Keep, Fits;
    var n, twice := |data|, CallTwice(key, count, bearer, dir, data, beyond, beyond');
    forall i | 0 <= i < n
      ensures twice[i] == if n % 8 != 0 && i == n / 8 then Keep(data[i], n % 8) else data[i]
    {
      CallTwiceAt(key, count, bearer, dir, data, beyond, beyond', i);
    }
    if n % 8 != 0 {
      assert twice[n / 8] == Keep(data[n / 8], n % 8);
    }
  }

  lemma CallTwiceAt(key: Key, count: bv32, bearer: bv32, dir: bv32, data: seq<bv8>, beyond: seq<bv8>,
                    beyond': seq<bv8>, i: nat)
    requires i < |data| < 0x8000_0000 && Fits(data + beyond, |data|) && Fits(data + beyond', |data|)
    ensures CallTwice(key, count, bearer, dir, data, beyond, beyond')[i]
         == if |data| % 8 != 0 && i == |data| / 8 then Keep(data[i], |data| % 8) else data[i]
  {
    hide F8, KeyStream, F8IV, KeyWords, Xor8, KeyOctet, Keep, Fits;
    var n, once := |data|, CallF8(key, count, bearer, dir, data, beyond);
    SameFit(data, once, beyond', n);
    F8At(key, count, bearer, dir, data + beyond, n, i);
    F8At(key, count, bearer, dir, once + beyond', n, i);
    var ks := KeyStream(KeyWords(key), F8IV(count, bearer, dir), WordCount(n));
    if i < 4 * |ks| {
      Cancel(data[i], KeyOctet(ks, i));
      KeepTwice(data[i], KeyOctet(ks, i), n % 8);
    } else {
      KeepLaws(data[i], 0, n % 8);
    }
  }

  /** Of the data only the first 4 * ceil(n / 32) octets are enciphered; the others, seven eighths of long data, stay as
      they are. */
  lemma CallLeavesClear(key: Key, count: bv32, bearer: bv32, dir: bv32, data: seq<bv8>, beyond: seq<bv8>, i: nat)
    requires |data| < 0x8000_0000 && Fits(data + beyond, |data|) && 4 * ((|data| + 31) / 32) <= i < |data|
    ensures CallF8(key, count, bearer, dir, data, beyond)[i] == data[i]
  {
    hide F8, KeyStream, F8IV, KeyWords, Xor8, KeyOctet, Keep, Fits;
    F8At(key, count, bearer, dir, data + beyond, |data|, i);
    EighthIsInside(|data|);
  }

  lemma EighthIsInside(n: nat)
    requires n < 0x8000_0000
    ensures WordCount(n) == (n + 31) / 32
    ensures n % 8 != 0 ==> n / 8 < 4 * ((n + 31) / 32)
  {
  }

  // ----- f9: the message as 64-bit blocks

  /** Octet k of the message: the bits at and behind `length` count as zero. */
  function MessageOctet(data: seq<bv8>, length: nat, k: nat): bv8
    requires length <= 8 * |data|
  {
    if 8 * k >= length then 0
    else Keep(data[k], if length - 8 * k < 8 then length - 8 * k else 8)
  }

  function Join(a: bv8, b: bv8, c: bv8, d: bv8, e: bv8, f: bv8, g: bv8, h: bv8): bv64 {
    (a as bv64 << 56) | (b as bv64 << 48) | (c as bv64 << 40) | (d as bv64 << 32) |
    (e as bv64 << 24) | (f as bv64 << 16) | (g as bv64 << 8) | (h as bv64)
  }

  function Digit(n: nat): bv8 { (n % 256) as bv8 }

  /** A 64-bit length as the source holds it, octet by octet. */
  function WordOf(n: nat): bv64 {
    var n1 := n / 256;
    var n2 := n1 / 256;
    var n3 := n2 / 256;
    var n4 := n3 / 256;
    var n5 := n4 / 256;
    var n6 := n5 / 256;
    var n7 := n6 / 256;
    Join(Digit(n7), Digit(n6), Digit(n5), Digit(n4), Digit(n3), Digit(n2), Digit(n1), Digit(n))
  }

  /** Block j of the message, padded with zero bits. */
  function Block(data: seq<bv8>, length: nat, j: nat): bv64
    requires length <= 8 * |data|
  {
    Join(MessageOctet(data, length, 8 * j), MessageOctet(data, length, 8 * j + 1),
         MessageOctet(data, length, 8 * j + 2), MessageOctet(data, length, 8 * j + 3),
         MessageOctet(data, length, 8 * j + 4), MessageOctet(data, length, 8 * j + 5),
         MessageOctet(data, length, 8 * j + 6), MessageOctet(data, length, 8 * j + 7))
  }

  function BlockCount(length: nat): nat { (length + 63) / 64 }

  /** EVAL after j blocks. */
  function Horner(data: seq<bv8>, length: nat, P: bv64, j: nat): bv64
    requires length <= 8 * |data|
  {
    if j == 0 then 0 else Gf64.Product(Gf64.Add(Horner(data, length, P, j - 1), Block(data, length, j - 1)), P, Gf64.C)
  }

  function Eval(data: seq<bv8>, length: nat, P: bv64): bv64
    requires length <= 8 * |data|
  {
    Horner(data, length, P, BlockCount(length))
  }

  function Join32(a: bv32, b: bv32): bv64 { (a as bv64 << 32) | (b as bv64) }

  function Top32(e: bv64): bv32 { (e >> 32) as bv32 }

  function Low32(e: bv64): bv32 { (e & 0xffff_ffff) as bv32 }

  lemma JoinTop(e: bv64)
    ensures Join32(Top32(e), Low32(e)) == e
  {
  }

  /** The MAC from the keystream words: EVAL plus the length, times Q, of which the upper half is masked with z5. */
  function Mac(z: seq<bv32>, eval: bv64, length: nat): bv32
    requires |z| == 5 && length < 0x1_0000_0000_0000_0000
  {
    Xor(Top32(Gf64.Product(Gf64.Add(eval, WordOf(length)), Q(z), Gf64.C)), z[4])
  }

  function F9Words(key: Key, count: bv32, nonce: bv32, dir: bv32): (z: seq<bv32>)
    ensures |z| == 5
  {
    KeyStream(KeyWords(key), F9IV(count, nonce, dir), 5)
  }

  function P(z: seq<bv32>): bv64
    requires |z| == 5
  {
    Join32(z[0], z[1])
  }

  function Q(z: seq<bv32>): bv64
    requires |z| == 5
  {
    Join32(z[2], z[3])
  }

  function F9(key: Key, count: bv32, nonce: bv32, dir: bv32, data: seq<bv8>, length: nat): bv32
    requires length <= 8 * |data| && length < 0x1_0000_0000_0000_0000
  {
    var z := F9Words(key, count, nonce, dir);
    Mac(z, Eval(data, length, P(z)), length)
  }

  // ----- the loop is a polynomial evaluation

  /** The first k terms of the polynomial with n terms: the sum over i < k of block i times P^(n - i). */
  function Terms(data: seq<bv8>, length: nat, P: bv64, n: nat, k: nat): bv64
    requires length <= 8 * |data| && k <= n
    decreases k
  {
    if k == 0 then 0
    else Gf64.Add(Terms(data, length, P, n, k - 1),
                  Gf64.Product(Block(data, length, k - 1), Gf64.Power(P, n - (k - 1), Gf64.C), Gf64.C))
  }

  lemma {:induction false} TermsTimesP(data: seq<bv8>, length: nat, P: bv64, n: nat, k: nat)
    requires length <= 8 * |data| && k <= n
    ensures Gf64.Product(Terms(data, length, P, n, k), P, Gf64.C) == Terms(data, length, P, n + 1, k)
    decreases k
  {
    hide Gf64.Product, Gf64.Add, Block, Gf64.Power;
    if k == 0 {
      Gf64.Unit(P, Gf64.C);
    } else {
      var b, e := Block(data, length, k - 1), n - (k - 1);
      TermsTimesP(data, length, P, n, k - 1);
      Gf64.Distributive(P, Terms(data, length, P, n, k - 1), Gf64.Product(b, Gf64.Power(P, e, Gf64.C), Gf64.C), Gf64.C);
      Gf64.Associative(b, Gf64.Power(P, e, Gf64.C), P, Gf64.C);
      Gf64.PowerNext(P, e, Gf64.C);
    }
  }

  lemma {:induction false} HornerIsPolynomial(data: seq<bv8>, length: nat, P: bv64, n: nat)
    requires length <= 8 * |data|
    ensures Horner(data, length, P, n) == Terms(data, length, P, n, n)
  {
    hide Gf64.Product, Gf64.Add, Block, Gf64.Power;
    if n > 0 {
      var b := Block(data, length, n - 1);
      HornerIsPolynomial(data, length, P, n - 1);
      Gf64.Distributive(P, Terms(data, length, P, n - 1, n - 1), b, Gf64.C);
      TermsTimesP(data, length, P, n - 1, n - 1);
      Gf64.PowerOne(P, Gf64.C);
    }
  }

  // ----- f9 sees the message bits and nothing else

  function Or8(a: bv8, b: bv8): bv8 { a | b }

  lemma KeepNext(a: bv8, r: nat)
    requires r < 8
    ensures Keep(a, r + 1) == Or8(Keep(a, r), And8(a, BitMask(r)))
    ensures Keep(a, 0) == 0
  {
  }

  lemma {:induction false} OctetFromBits(a: bv8, b: bv8, r: nat)
    requires r <= 8
    requires forall k :: 0 <= k < r ==> (OctetBit(a, k) <==> OctetBit(b, k))
    ensures Keep(a, r) == Keep(b, r)
  {
    hide Keep, Or8, And8, BitMask;
    if r == 0 {
      KeepNext(a, 0);
      KeepNext(b, 0);
    } else {
      OctetFromBits(a, b, r - 1);
      KeepNext(a, r - 1);
      KeepNext(b, r - 1);
      OneBit(a, r - 1);
      OneBit(b, r - 1);
      assert OctetBit(a, r - 1) <==> OctetBit(b, r - 1);
    }
  }

  ghost predicate SameBits(data: seq<bv8>, data': seq<bv8>, length: nat)
    requires length <= 8 * |data| && length <= 8 * |data'|
  {
    forall i :: 0 <= i < length ==> (Bit(data, i) <==> Bit(data', i))
  }

  lemma SameOctets(data: seq<bv8>, data': seq<bv8>, length: nat, k: nat)
    requires length <= 8 * |data| && length <= 8 * |data'| && SameBits(data, data', length)
    ensures MessageOctet(data, length, k) == MessageOctet(data', length, k)
  {
    hide OctetBit, Keep;
    if 8 * k < length {
      var r := if length - 8 * k < 8 then length - 8 * k else 8;
      forall m | 0 <= m < r
        ensures OctetBit(data[k], m) <==> OctetBit(data'[k], m)
      {
        assert Bit(data, 8 * k + m) <==> Bit(data', 8 * k + m);
        assert (8 * k + m) / 8 == k && (8 * k + m) % 8 == m;
      }
      OctetFromBits(data[k], data'[k], r);
    }
  }

  lemma {:induction false} SameHorner(data: seq<bv8>, data': seq<bv8>, length: nat, P: bv64, j: nat)
    requires length <= 8 * |data| && length <= 8 * |data'| && SameBits(data, data', length)
    ensures Horner(data, length, P, j) == Horner(data', length, P, j)
  {
    hide Gf64.Product, Gf64.Add, MessageOctet, Join, SameBits;
    if j > 0 {
      SameHorner(data, data', length, P, j - 1);
      forall k
        ensures MessageOctet(data, length, k) == MessageOctet(data', length, k)
      {
        SameOctets(data, data', length, k);
      }
    }
  }

  /** Two buffers that agree on the first `length` bits get the same MAC, whatever follows those bits. */
  lemma F9DependsOnMessageBits(key: Key, count: bv32, nonce: bv32, dir: bv32,
                               data: seq<bv8>, data': seq<bv8>, length: nat)
    requires length <= 8 * |data| && length <= 8 * |data'| && length < 0x1_0000_0000_0000_0000
    requires SameBits(data, data', length)
    ensures F9(key, count, nonce, dir, data, length) == F9(key, count, nonce, dir, data', length)
  {
    hide F9Words, Mac, Horner, SameBits, P;
    SameHorner(data, data', length, P(F9Words(key, count, nonce, dir)), BlockCount(length));
  }

  // ----- f9 is linear in the message

  function XorData(data: seq<bv8>, data': seq<bv8>): (r: seq<bv8>)
    requires |data| == |data'|
    ensures |r| == |data|
  {
    seq(|data|, i requires 0 <= i < |data| => Xor8(data[i], data'[i]))
  }

  lemma OctetOfXor(data: seq<bv8>, data': seq<bv8>, length: nat, k: nat)
    requires length <= 8 * |data| && |data| == |data'|
    ensures MessageOctet(XorData(data, data'), length, k)
         == Xor8(MessageOctet(data, length, k), MessageOctet(data', length, k))
  {
    hide Keep, Xor8;
    if 8 * k >= length {
      Cancel(0, 0);
    } else {
      KeepLaws(data[k], data'[k], if length - 8 * k < 8 then length - 8 * k else 8);
    }
  }

  lemma JoinXor(a: bv8, b: bv8, c: bv8, d: bv8, e: bv8, f: bv8, g: bv8, h: bv8,
                a': bv8, b': bv8, c': bv8, d': bv8, e': bv8, f': bv8, g': bv8, h': bv8)
    ensures Join(Xor8(a, a'), Xor8(b, b'), Xor8(c, c'), Xor8(d, d'), Xor8(e, e'), Xor8(f, f'), Xor8(g, g'), Xor8(h, h'))
         == Gf64.Add(Join(a, b, c, d, e, f, g, h), Join(a', b', c', d', e', f', g', h'))
  {
  }

  lemma BlockOfXor(data: seq<bv8>, data': seq<bv8>, length: nat, j: nat)
    requires length <= 8 * |data| && |data| == |data'|
    ensures Block(XorData(data, data'), length, j) == Gf64.Add(Block(data, length, j), Block(data', length, j))
  {
    hide MessageOctet, XorData, Join, Xor8, Gf64.Add;
    forall k
      ensures MessageOctet(XorData(data, data'), length, k)
           == Xor8(MessageOctet(data, length, k), MessageOctet(data', length, k))
    {
      OctetOfXor(data, data', length, k);
    }
    JoinXor(MessageOctet(data, length, 8 * j), MessageOctet(data, length, 8 * j + 1),
            MessageOctet(data, length, 8 * j + 2), MessageOctet(data, length, 8 * j + 3),
            MessageOctet(data, length, 8 * j + 4), MessageOctet(data, length, 8 * j + 5),
            MessageOctet(data, length, 8 * j + 6), MessageOctet(data, length, 8 * j + 7),
            MessageOctet(data', length, 8 * j), MessageOctet(data', length, 8 * j + 1),
            MessageOctet(data', length, 8 * j + 2), MessageOctet(data', length, 8 * j + 3),
            MessageOctet(data', length, 8 * j + 4), MessageOctet(data', length, 8 * j + 5),
            MessageOctet(data', length, 8 * j + 6), MessageOctet(data', length, 8 * j + 7));
  }

  lemma {:induction false} HornerOfXor(data: seq<bv8>, data': seq<bv8>, length: nat, P: bv64, j: nat)
    requires length <= 8 * |data| && |data| == |data'|
    ensures Horner(XorData(data, data'), length, P, j)
         == Gf64.Add(Horner(data, length, P, j), Horner(data', length, P, j))
  {
    hide Gf64.Product, Gf64.Add, Block, XorData;
    if j == 0 {
      Gf64.AddZero(0);
    } else {
      var h, h', b, b' := Horner(data, length, P, j - 1), Horner(data', length, P, j - 1),
                          Block(data, length, j - 1), Block(data', length, j - 1);
      HornerOfXor(data, data', length, P, j - 1);
      BlockOfXor(data, data', length, j - 1);
      Gf64.AddSwap(h, h', b, b');
      Gf64.Distributive(P, Gf64.Add(h, b), Gf64.Add(h', b'), Gf64.C);
    }
  }

  lemma Top32Add(a: bv64, b: bv64)
    ensures Top32(Gf64.Add(a, b)) == Xor(Top32(a), Top32(b))
  {
  }

  lemma XorOfMasked(a: bv32, b: bv32, z: bv32)
    ensures Xor(Xor(a, z), Xor(b, z)) == Xor(a, b)
  {
    hide *;
    XorAssoc(a, z, Xor(b, z));
    XorLaws(z, Xor(b, z));
    XorLaws(b, z);
  }

  /** Under the same key, count, fresh and direction, the MACs of two messages of the same length differ by the upper
      half of (polynomial of the difference of the messages) times Q: the length and the mask z5 drop out. */
  lemma MacDifference(key: Key, count: bv32, nonce: bv32, dir: bv32,
                      data: seq<bv8>, data': seq<bv8>, length: nat)
    requires length <= 8 * |data| && |data| == |data'| && length < 0x1_0000_0000_0000_0000
    ensures Xor(F9(key, count, nonce, dir, data, length), F9(key, count, nonce, dir, data', length))
         == MacDelta(F9Words(key, count, nonce, dir), XorData(data, data'), length)
  {
    hide F9Words, Horner, Xor, Top32, P, Q, XorData, Gf64.Product, Gf64.Add;
    var z, l := F9Words(key, count, nonce, dir), WordOf(length);
    var e, e' := Eval(data, length, P(z)), Eval(data', length, P(z));
    var t, t' := Gf64.Product(Gf64.Add(e, l), Q(z), Gf64.C), Gf64.Product(Gf64.Add(e', l), Q(z), Gf64.C);
    XorOfMasked(Top32(t), Top32(t'), z[4]);
    Top32Add(t, t');
    Gf64.Distributive(Q(z), Gf64.Add(e, l), Gf64.Add(e', l), Gf64.C);
    Gf64.AddSwap(e, l, e', l);
    Gf64.AddZero(l);
    Gf64.AddZero(Gf64.Add(e, e'));
    HornerOfXor(data, data', length, P(z), BlockCount(length));
  }

  function MacDelta(z: seq<bv32>, delta: seq<bv8>, length: nat): bv32
    requires |z| == 5 && length <= 8 * |delta|
  {
    Top32(Gf64.Product(Eval(delta, length, P(z)), Q(z), Gf64.C))
  }

  // ----- the source's f9

  /** Octet i of a block at its place: shifted left by 8 * (7 - i). */
  function Place(o: bv8, i: nat): bv64
    requires i < 8
  {
    var w := o as bv64;
    if i == 0 then w << 56 else if i == 1 then w << 48 else if i == 2 then w << 40 else if i == 3 then w << 32 else
    if i == 4 then w << 24 else if i == 5 then w << 16 else if i == 6 then w << 8 else w
  }

  function Or(a: bv64, b: bv64): bv64 { a | b }

  /** The first i octets of block j, the rest zero. */
  function Partial(data: seq<bv8>, length: nat, j: nat, i: nat): bv64
    requires length <= 8 * |data| && i <= 8
  {
    var o := (k: nat) => if k < i then MessageOctet(data, length, 8 * j + k) else 0;
    Join(o(0), o(1), o(2), o(3), o(4), o(5), o(6), o(7))
  }

  lemma PartialNext(data: seq<bv8>, length: nat, j: nat, i: nat)
    requires length <= 8 * |data| && i < 8
    ensures Or(Partial(data, length, j, i), Place(MessageOctet(data, length, 8 * j + i), i))
         == Partial(data, length, j, i + 1)
  {
    hide MessageOctet, Join, Or, Place;
    var o := (k: nat) => if k < i then MessageOctet(data, length, 8 * j + k) else 0;
    var p := (k: nat) => if k == i then MessageOctet(data, length, 8 * j + i) else 0;
    PlaceForm(MessageOctet(data, length, 8 * j + i), i);
    JoinOr(o(0), o(1), o(2), o(3), o(4), o(5), o(6), o(7), p(0), p(1), p(2), p(3), p(4), p(5), p(6), p(7));
    forall x: bv8
      ensures Or8(x, 0) == x && Or8(0, x) == x
    {
    }
  }

  lemma JoinOr(a: bv8, b: bv8, c: bv8, d: bv8, e: bv8, f: bv8, g: bv8, h: bv8,
               a': bv8, b': bv8, c': bv8, d': bv8, e': bv8, f': bv8, g': bv8, h': bv8)
    ensures Or(Join(a, b, c, d, e, f, g, h), Join(a', b', c', d', e', f', g', h'))
         == Join(Or8(a, a'), Or8(b, b'), Or8(c, c'), Or8(d, d'), Or8(e, e'), Or8(f, f'), Or8(g, g'), Or8(h, h'))
  {
  }

  lemma PlaceForm(o: bv8, i: nat)
    requires i < 8
    ensures Place(o, i) == Join(if i == 0 then o else 0, if i == 1 then o else 0, if i == 2 then o else 0,
                                if i == 3 then o else 0, if i == 4 then o else 0, if i == 5 then o else 0,
                                if i == 6 then o else 0, if i == 7 then o else 0)
  {
  }

  /** The last block, of which so many bits from octet base on are left: whole octets are shifted into place one by
      one, then the masked rest. No octet beyond the last message bit is read. */
  method LastBlock(data: array<bv8>, base: nat, bits: nat) returns (M: bv64)
    requires 1 <= bits <= 64 && base <= data.Length && bits <= 8 * (data.Length - base)
    ensures M == Block(data[base..], bits, 0)
  {
    hide Join, Keep, Place, Or, LastMask, mask8bit;
    ghost var d := data[base..];
    var rem_bits := bits;
    var i := 0;
    M := 0;
    PartialNone(d, bits, 0);
    while rem_bits > 7
      invariant 0 <= i <= 8 && rem_bits >= 0
      invariant 8 * i + rem_bits == bits
      invariant M == Partial(d, bits, 0, i)
    {
      KeepAll(data[base + i]);
      PartialNext(d, bits, 0, i);
      M := Or(M, Place(data[base + i], i));
      rem_bits := rem_bits - 8;
      i := i + 1;
    }
    if rem_bits > 0 {
      KeepForm(data[base + i], rem_bits);
      PartialNext(d, bits, 0, i);
      M := Or(M, Place(And8(data[base + i], mask8bit(rem_bits)), i));
      i := i + 1;
    }
    PartialAll(d, bits, 0, i);
  }

  lemma KeepAll(a: bv8)
    ensures Keep(a, 8) == a
  {
  }

  lemma PartialNone(data: seq<bv8>, length: nat, j: nat)
    requires length <= 8 * |data|
    ensures Partial(data, length, j, 0) == 0
  {
  }

  lemma PartialAll(data: seq<bv8>, length: nat, j: nat, i: nat)
    requires length <= 8 * |data| && i <= 8 && length <= 8 * (8 * j + i)
    ensures Partial(data, length, j, i) == Block(data, length, j)
  {
    hide Join, Keep;
  }

  // ----- the block counter and the octet index of the source have 32 bits

  const WRAP := 0x1_0000_0000

  /** D - 2, the number of blocks before the last, as the source counts them. */
  function FullBlocks(length: nat): nat {
    var D := (if length % 64 == 0 then length / 64 + 1 else length / 64 + 2) % WRAP;
    (D + WRAP - 2) % WRAP
  }

  function At(i: nat): nat { 8 * i % WRAP }

  function LastBits(length: nat): nat { if length % 64 == 0 then 64 else length % 64 }

  /** The memory that f9 reads is there. */
  predicate Readable(data: seq<bv8>, length: nat) {
    && (forall i | 0 <= i < FullBlocks(length) :: At(i) + 8 <= |data|)
    && At(FullBlocks(length)) + (LastBits(length) + 7) / 8 <= |data|
  }

  function Raw(data: seq<bv8>, at: nat): bv64
    requires at + 8 <= |data|
  {
    Join(data[at], data[at + 1], data[at + 2], data[at + 3], data[at + 4], data[at + 5], data[at + 6], data[at + 7])
  }

  function SourceLoop(data: seq<bv8>, P: bv64, n: nat): bv64
    requires forall i | 0 <= i < n :: At(i) + 8 <= |data|
  {
    if n == 0 then 0
    else Gf64.Product(Gf64.Add(SourceLoop(data, P, n - 1), Raw(data, At(n - 1))), P, Gf64.C)
  }

  /** EVAL as the source computes it, for every 64-bit length. */
  function SourceEval(data: seq<bv8>, length: nat, P: bv64): bv64
    requires Readable(data, length)
  {
    var n := FullBlocks(length);
    Gf64.Product(Gf64.Add(SourceLoop(data, P, n), Block(data[At(n)..], LastBits(length), 0)), P, Gf64.C)
  }

  function SourceF9(key: Key, count: bv32, nonce: bv32, dir: bv32, data: seq<bv8>, length: nat): bv32
    requires Readable(data, length) && length < 0x1_0000_0000_0000_0000
  {
    var z := F9Words(key, count, nonce, dir);
    Mac(z, SourceEval(data, length, P(z)), length)
  }

  method snow_3g_f9(machine: Snow, key: Key, count: bv32, nonce: bv32, dir: bv32, data: array<bv8>, length: nat)
    returns (out: seq<bv8>)
    requires length < 0x1_0000_0000_0000_0000 && Readable(data[..], length)
    modifies machine
    ensures |out| == 4
    ensures Word(out[0], out[1], out[2], out[3]) == SourceF9(key, count, nonce, dir, data[..], length)
  {
    hide KeyStream, KeyStreamFrom, KeyWords, Initialize, Step, Mac, SourceEval, Readable;
    var z := new bv32[5];
    var K := LoadKey(key);
    var IV: Quad := [nonce ^ (dir << 15), count ^ (dir << 31), nonce, count];
    machine.snow_3g_initialize(K, IV);
    machine.snow_3g_generate_key_stream(5, z);
    assert z[..] == z[..5];
    KeyStreamForm(KeyWords(key), F9IV(count, nonce, dir), 5);
    out := Hash(z[..], data, length);
  }

  /** The second half of the source's f9. */
  method Hash(z: seq<bv32>, data: array<bv8>, length: nat) returns (out: seq<bv8>)
    requires |z| == 5 && length < 0x1_0000_0000_0000_0000 && Readable(data[..], length)
    ensures |out| == 4
    ensures Word(out[0], out[1], out[2], out[3]) == Mac(z, SourceEval(data[..], length, P(z)), length)
  {
    hide SourceEval, Readable, Join32, Top32, Xor, Word, Gf64.Product, Gf64.Add, Octet0, Octet1, Octet2, Octet3;
    var p := Join32(z[0], z[1]);
    var q := Join32(z[2], z[3]);
    var EVAL := HashBlocks(p, data, length);
    EVAL := Gf64.MUL64(Gf64.Add(EVAL, WordOf(length)), q, Gf64.C);
    var mac := Xor(Top32(EVAL), z[4]);
    out := [Octet0(mac), Octet1(mac), Octet2(mac), Octet3(mac)];
    WordOctets(mac);
  }

  method HashBlocks(P: bv64, data: array<bv8>, length: nat) returns (EVAL: bv64)
    requires Readable(data[..], length)
    ensures EVAL == SourceEval(data[..], length, P)
  {
    hide Join, Block, Gf64.Product, Gf64.Add, At, FullBlocks, LastBits;
    ghost var d := data[..];
    var n := FullBlocks(length);
    EVAL := 0;
    for i := 0 to n
      invariant EVAL == SourceLoop(d, P, i)
    {
      var at := At(i);
      var V := Gf64.Add(EVAL, Join(data[at], data[at + 1], data[at + 2], data[at + 3],
                                   data[at + 4], data[at + 5], data[at + 6], data[at + 7]));
      EVAL := Gf64.MUL64(V, P, Gf64.C);
    }
    LastBitsBound(length);
    var M_D_2 := LastBlock(data, At(n), LastBits(length));
    assert data[At(n)..] == d[At(n)..];
    EVAL := Gf64.MUL64(Gf64.Add(EVAL, M_D_2), P, Gf64.C);
  }

  lemma LastBitsBound(length: nat)
    ensures 1 <= LastBits(length) <= 64
  {
  }

  /** From 1 bit to 2^35 bits nothing wraps. */
  lemma NoWrap(length: nat)
    requires 1 <= length <= 0x8_0000_0000
    ensures length == 64 * FullBlocks(length) + LastBits(length)
    ensures FullBlocks(length) + 1 == BlockCount(length)
    ensures forall i | 0 <= i <= FullBlocks(length) :: At(i) == 8 * i
  {
  }

  lemma FullBlock(data: seq<bv8>, length: nat, j: nat)
    requires length <= 8 * |data| && 64 * (j + 1) <= length
    ensures Block(data, length, j) == Raw(data, 8 * j)
  {
    hide Join, Keep;
    forall k | 8 * j <= k < 8 * j + 8
      ensures MessageOctet(data, length, k) == data[k]
    {
      KeepAll(data[k]);
    }
  }

  lemma {:induction false} LoopIsHorner(data: seq<bv8>, length: nat, P: bv64, n: nat)
    requires length <= 8 * |data| && 64 * n <= length
    requires forall i | 0 <= i < n :: At(i) == 8 * i
    ensures forall i | 0 <= i < n :: At(i) + 8 <= |data|
    ensures SourceLoop(data, P, n) == Horner(data, length, P, n)
    decreases n
  {
    hide Gf64.Product, Gf64.Add, Block, Raw, At;
    if n > 0 {
      LoopIsHorner(data, length, P, n - 1);
      FullBlock(data, length, n - 1);
    }
  }

  lemma LastIsBlock(data: seq<bv8>, length: nat, n: nat, bits: nat)
    requires length == 64 * n + bits <= 8 * |data| && 1 <= bits <= 64
    ensures Block(data[8 * n..], bits, 0) == Block(data, length, n)
  {
    hide Join, Keep;
    forall k: nat | k < 8
      ensures MessageOctet(data[8 * n..], bits, k) == MessageOctet(data, length, 8 * n + k)
    {
    }
  }

  lemma SourceEvalIsEval(data: seq<bv8>, length: nat, P: bv64)
    requires 1 <= length <= 0x8_0000_0000 && length <= 8 * |data|
    ensures Readable(data, length) && SourceEval(data, length, P) == Eval(data, length, P)
  {
    hide Gf64.Product, Gf64.Add, Block, Raw, At, FullBlocks, LastBits, BlockCount;
    NoWrap(length);
    LastBitsBound(length);
    var n := FullBlocks(length);
    LoopIsHorner(data, length, P, n);
    LastIsBlock(data, length, n, LastBits(length));
  }

  /** For every message of 1 bit to 2^35 bits, f9 reads the octets of the message and no others, and its result is
      the MAC of the standard. */
  lemma SourceIsF9(key: Key, count: bv32, nonce: bv32, dir: bv32, data: seq<bv8>, length: nat)
    requires 1 <= length <= 0x8_0000_0000
    ensures Readable(data, length) <==> length <= 8 * |data|
    ensures Readable(data, length) ==>
              SourceF9(key, count, nonce, dir, data, length) == F9(key, count, nonce, dir, data, length)
  {
    hide F9Words, Mac, Eval, SourceEval, P;
    ReadableExactly(data, length);
    if length <= 8 * |data| {
      SourceEvalIsEval(data, length, P(F9Words(key, count, nonce, dir)));
    }
  }

  lemma ReadableExactly(data: seq<bv8>, length: nat)
    requires 1 <= length <= 0x8_0000_0000
    ensures Readable(data, length) <==> length <= 8 * |data|
  {
    hide At, FullBlocks, LastBits, BlockCount;
    NoWrap(length);
    LastBitsBound(length);
  }

  /** Longer messages are read only in their first 2^32 octets, over and over: two that differ behind these have the
      same MAC. */
  lemma FarOctetsIgnored(key: Key, count: bv32, nonce: bv32, dir: bv32, data: seq<bv8>, data': seq<bv8>, length: nat)
    requires length < 0x1_0000_0000_0000_0000
    requires |data| >= WRAP && |data'| >= WRAP && data[..WRAP] == data'[..WRAP]
    ensures Readable(data, length) && Readable(data', length)
    ensures SourceF9(key, count, nonce, dir, data, length) == SourceF9(key, count, nonce, dir, data', length)
  {
    hide F9Words, Mac, SourceEval, P, Readable;
    FarEval(data, data', length, P(F9Words(key, count, nonce, dir)));
  }

  lemma AtBound(i: nat)
    ensures At(i) + 8 <= WRAP
  {
  }

  lemma AtInside()
    ensures forall i: nat :: At(i) + 8 <= WRAP
  {
    hide At;
    forall i: nat
      ensures At(i) + 8 <= WRAP
    {
      AtBound(i);
    }
  }

  lemma FarEval(data: seq<bv8>, data': seq<bv8>, length: nat, P: bv64)
    requires |data| >= WRAP && |data'| >= WRAP && data[..WRAP] == data'[..WRAP]
    ensures Readable(data, length) && Readable(data', length)
    ensures SourceEval(data, length, P) == SourceEval(data', length, P)
  {
    hide Gf64.Product, Gf64.Add, Block, Raw, At, FullBlocks, LastBits;
    var n, bits := FullBlocks(length), LastBits(length);
    LastBitsBound(length);
    AtInside();
    FarLoop(data, data', P, n);
    SameFirstBlock(data[At(n)..], data'[At(n)..], bits);
  }

  lemma SameFirstBlock(data: seq<bv8>, data': seq<bv8>, bits: nat)
    requires 1 <= bits <= 64 && |data| >= 8 && |data'| >= 8 && data[..8] == data'[..8]
    ensures Block(data, bits, 0) == Block(data', bits, 0)
  {
    hide Join, Keep;
    forall k: nat | k < 8
      ensures MessageOctet(data, bits, k) == MessageOctet(data', bits, k)
    {
      assert data[k] == data[..8][k] && data'[k] == data'[..8][k];
    }
  }

  lemma {:induction false} FarLoop(data: seq<bv8>, data': seq<bv8>, P: bv64, n: nat)
    requires |data| >= WRAP && |data'| >= WRAP && data[..WRAP] == data'[..WRAP]
    requires forall i | 0 <= i < n :: At(i) + 8 <= WRAP
    ensures SourceLoop(data, P, n) == SourceLoop(data', P, n)
    decreases n
  {
    hide Gf64.Product, Gf64.Add, Raw, At;
    if n > 0 {
      FarLoop(data, data', P, n - 1);
      SameRaw(data, data', At(n - 1));
    }
  }

  lemma SameRaw(data: seq<bv8>, data': seq<bv8>, at: nat)
    requires |data| >= WRAP && |data'| >= WRAP && data[..WRAP] == data'[..WRAP] && at + 8 <= WRAP
    ensures Raw(data, at) == Raw(data', at)
  {
    hide Join;
    forall k | at <= k < at + 8
      ensures data[k] == data'[k]
    {
      assert data[k] == data[..WRAP][k] && data'[k] == data'[..WRAP][k];
    }
  }

  // ----- the test suite's call of f9

  /** f__snow__3g__f9 passes eight times the number of octets. beyond is the memory behind the data. */
  method f__snow__3g__f9(machine: Snow, key: Key, count: bv32, nonce: bv32, is_downlink: bool, data: seq<bv8>,
                         beyond: seq<bv8>)
    returns (r: seq<bv8>)
    requires |data| < 0x8000_0000 && Readable(data + beyond, 8 * |data|)
    modifies machine
    ensures |r| == 4
    ensures Word(r[0], r[1], r[2], r[3])
         == SourceF9(key, count, nonce, if is_downlink then 1 else 0, data + beyond, 8 * |data|)
  {
    hide SourceF9, Readable;
    var direction: bv32 := if is_downlink then 1 else 0;
    var mem := data + beyond;
    var buf := new bv8[|mem|](i requires 0 <= i < |mem| => mem[i]);
    assert buf[..] == mem;
    r := snow_3g_f9(machine, key, count, nonce, direction, buf, 8 * |data|);
  }

  /** For data of at least one octet, the call needs no memory behind them and returns the MAC of the standard. */
  lemma CallIsF9(key: Key, count: bv32, nonce: bv32, dir: bv32, data: seq<bv8>, beyond: seq<bv8>)
    requires data != [] && |data| < 0x8000_0000
    ensures Readable(data, 8 * |data|) && Readable(data + beyond, 8 * |data|)
    ensures SourceF9(key, count, nonce, dir, data + beyond, 8 * |data|)
         == F9(key, count, nonce, dir, data, 8 * |data|)
  {
    hide SourceF9, F9, Readable, OctetBit;
    var n := 8 * |data|;
    ReadableExactly(data, n);
    SourceIsF9(key, count, nonce, dir, data + beyond, n);
    assert forall i | 0 <= i < n :: Bit(data + beyond, i) == Bit(data, i);
    F9DependsOnMessageBits(key, count, nonce, dir, data + beyond, data, n);
  }

  /** With no data at all, the call reads 2^32 octets of the memory behind them. */
  lemma EmptyCallReads(beyond: seq<bv8>)
    ensures Readable([] + beyond, 0) <==> |beyond| >= WRAP
  {
    assert [] + beyond == beyond;
    assert At(FullBlocks(0)) == WRAP - 8;
    hide At, FullBlocks;
    AtInside();
  }
}
