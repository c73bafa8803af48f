/** The BSP channel as the standards write it, octet by octet (GSMA SGP.22, section 2.6.4; NIST SP 800-38A, section 6.2;
    ITU-T X.690, section 8.1.3): chaining vector, cipher blocks, lengths, what the MAC covers, and every reason for
    which a segment is refused. */
module BspWire {
  import opened Numbers
  import opened BspPrimitives
  import opened BspChannel

  // ----- exclusive or

  /** Sum without carry: digit by digit modulo 2. */
  predicate IsSum(a: Octet, b: Octet, r: Octet) {
    forall i | 0 <= i < 8 :: BinaryDigit(r, i) == (BinaryDigit(a, i) + BinaryDigit(b, i)) % 2
  }

  predicate IsXor(a: Octets, b: Octets, r: Octets) {
    |a| == |b| == |r| && forall j | 0 <= j < |a| :: IsSum(a[j], b[j], r[j])
  }

  lemma DigitZero(n: nat)
    ensures BinaryDigit(n, 0) == n % 2
  {
    assert Pow2(0) == 1;
  }

  lemma DigitNext(n: nat, i: nat)
    ensures BinaryDigit(n, i + 1) == BinaryDigit(n / 2, i)
  {
    var p := Pow2(i);
    assert Pow2(i + 1) == 2 * p;
    HalfQuotient(n, p);
  }

  lemma {:induction false} XorDigitAt(a: nat, b: nat, digits: nat, i: nat)
    requires a < Pow2(digits) && b < Pow2(digits) && i < digits
    ensures BinaryDigit(XorDigits(a, b, digits), i) == (BinaryDigit(a, i) + BinaryDigit(b, i)) % 2
    decreases digits
  {
    hide BinaryDigit, Pow2;
    HalfBound(a, digits);
    HalfBound(b, digits);
    var rest := XorDigits(Half(a), Half(b), digits - 1);
    var x := XorDigits(a, b, digits);
    LastDigit(rest, a, b);
    if i == 0 {
      DigitZero(a);
      DigitZero(b);
      DigitZero(x);
      LowDigit(rest, a, b);
    } else {
      DigitNext(a, i - 1);
      DigitNext(b, i - 1);
      DigitNext(x, i - 1);
      XorDigitAt(Half(a), Half(b), digits - 1, i - 1);
    }
  }

  lemma LowDigit(rest: nat, a: nat, b: nat)
    ensures (2 * rest + Sum2(a, b)) % 2 == (a % 2 + b % 2) % 2
  {
  }

  lemma XorIsSum(a: Octet, b: Octet)
    ensures IsSum(a, b, XorOctet(a, b))
  {
    hide XorDigits, BinaryDigit, Pow2;
    EightDigits();
    forall i | 0 <= i < 8
      ensures BinaryDigit(XorOctet(a, b), i) == (BinaryDigit(a, i) + BinaryDigit(b, i)) % 2
    {
      XorDigitAt(a, b, 8, i);
    }
  }

  lemma XorIsXor(a: Block, b: Block)
    ensures IsXor(a, b, Xor(a, b))
  {
    hide IsSum, XorOctet;
    forall j | 0 <= j < 16
      ensures IsSum(a[j], b[j], Xor(a, b)[j])
    {
      XorIsSum(a[j], b[j]);
    }
  }

  lemma {:induction false} XorDigitsZero(a: nat, digits: nat)
    requires a < Pow2(digits)
    ensures 0 < Pow2(digits) && XorDigits(a, 0, digits) == a
    decreases digits
  {
    if digits > 0 {
      HalfBound(a, digits);
      HalfBound(0, digits);
      XorDigitsZero(Half(a), digits - 1);
    }
  }

  lemma XorZeros(a: Block)
    ensures Xor(a, Zeros(16)) == a
  {
    hide XorDigits;
    EightDigits();
    forall j | 0 <= j < 16
      ensures Xor(a, Zeros(16))[j] == a[j]
    {
      XorDigitsZero(a[j], 8);
    }
  }

  // ----- the chaining vector

  /** Four octets as a number, the highest first. */
  function Number(a: Octet, b: Octet, c: Octet, d: Octet): nat {
    a as nat * 0x100_0000 + b as nat * 0x1_0000 + c as nat * 0x100 + d
  }

  /** Twelve octets of zero, then the block number, highest octet first, all under the cipher. */
  predicate IsIcv(p: Suite, key: Block, n: Counter, icv: Block) {
    var d := p.decrypt(key, icv);
    && (forall j | 0 <= j < 12 :: d[j] == 0)
    && Number(d[12], d[13], d[14], d[15]) == n
  }

  lemma BigEndianValue(n: Counter)
    ensures
      var b := BigEndian(n);
      Number(b[0], b[1], b[2], b[3]) == n
  {
  }

  lemma IcvLayout(p: Suite, key: Block, n: Counter)
    requires Lawful(p)
    ensures IsIcv(p, key, n, Icv(p, key, n))
  {
    hide Xor, BigEndian;
    var plain: Block := Zeros(12) + BigEndian(n);
    XorZeros(plain);
    BigEndianValue(n);
    assert p.decrypt(key, p.encrypt(key, plain)) == plain;
  }

  // ----- padding and cipher blocks

  predicate IsPadded(plain: Octets, padded: Octets) {
    && |padded| == |plain| / 16 * 16 + 16
    && padded[..|plain|] == plain && padded[|plain|] == 0x80
    && forall i | |plain| < i < |padded| :: padded[i] == 0x00
  }

  lemma PaddedIsPadded(plain: Octets)
    ensures IsPadded(plain, Padded(plain))
  {
    PaddingRoundTrip(plain);
    NextSixteen(|plain|, |Padded(plain)|);
  }

  lemma NextSixteen(n: nat, m: nat)
    requires m % 16 == 0 && n < m <= n + 16
    ensures m == n / 16 * 16 + 16
  {
  }

  /** What is left of marked data when mark and zeros are taken off. */
  predicate Marked(data: Octets, plain: Octets) {
    && |plain| < |data| && data[..|plain|] == plain && data[|plain|] == 0x80
    && forall i | |plain| < i < |data| :: data[i] == 0x00
  }

  lemma {:induction false} StrippedExactly(data: Octets)
    ensures
      var s := Stripped(data);
      && |s| <= |data| && data[..|s|] == s && (forall i | |s| <= i < |data| :: data[i] == 0x00)
      && (s != [] ==> s[|s| - 1] != 0x00)
    decreases |data|
  {
    if data != [] && data[|data| - 1] == 0x00 {
      StrippedExactly(data[..|data| - 1]);
    }
  }

  /** Removing the padding takes off zeros and one 0x80 before them, and leaves everything else as it is. */
  lemma UnpaddedExactly(data: Octets)
    ensures forall plain | Marked(data, plain) :: Unpadded(data) == plain
    ensures (forall plain :: !Marked(data, plain)) ==> Unpadded(data) == data
  {
    hide Stripped;
    StrippedExactly(data);
    var s := Stripped(data);
    if s != [] && s[|s| - 1] == 0x80 {
      assert Marked(data, s[..|s| - 1]);
    }
    forall plain | Marked(data, plain)
      ensures Unpadded(data) == plain
    {
      MarkIsLast(data, plain, s);
    }
  }

  lemma MarkIsLast(data: Octets, plain: Octets, s: Octets)
    requires Marked(data, plain)
    requires |s| <= |data| && data[..|s|] == s && forall i | |s| <= i < |data| :: data[i] == 0x00
    requires s != [] ==> s[|s| - 1] != 0x00
    ensures s != [] && s[|s| - 1] == 0x80 && s[..|s| - 1] == plain
  {
    var m := |plain|;
    assert data[m] != 0x00;
    assert forall i | 0 <= i < |s| :: s[i] == data[i];
    assert |s| == m + 1;
  }

  /** What a cipher block decrypts to is the plain block plus the cipher block before it. */
  predicate IsCbcBlock(p: Suite, key: Block, iv: Block, data: Octets, c: Octets, k: nat)
    requires |c| == |data| && 16 * k + 16 <= |data|
  {
    IsXor(data[16 * k..16 * k + 16], if k == 0 then iv else c[16 * k - 16..16 * k],
          p.decrypt(key, c[16 * k..16 * k + 16]))
  }

  predicate IsCbc(p: Suite, key: Block, iv: Block, data: Octets, c: Octets) {
    && |c| == |data| && |data| % 16 == 0
    && forall k | 0 <= k < |data| / 16 :: IsCbcBlock(p, key, iv, data, c, k)
  }

  lemma FirstCbcBlock(p: Suite, key: Block, iv: Block, data: Octets, rest: Octets)
    requires Lawful(p) && |data| >= 16 && |rest| == |data| - 16
    ensures IsCbcBlock(p, key, iv, data, p.encrypt(key, Xor(data[..16], iv)) + rest, 0)
  {
    hide IsXor, Xor;
    var first: Block := p.encrypt(key, Xor(data[..16], iv));
    XorIsXor(data[..16], iv);
    assert (first + rest)[..16] == first;
    assert p.decrypt(key, first) == Xor(data[..16], iv);
  }

  lemma NextCbcBlock(p: Suite, key: Block, iv: Block, first: Block, data: Octets, rest: Octets, j: nat)
    requires |data| >= 16 && |rest| == |data| - 16 && 16 * j + 16 <= |rest|
    requires IsCbcBlock(p, key, first, data[16..], rest, j)
    ensures IsCbcBlock(p, key, iv, data, first + rest, j + 1)
  {
    hide IsXor;
    var c, k := first + rest, j + 1;
    assert data[16..][16 * j..16 * j + 16] == data[16 * k..16 * k + 16];
    assert rest[16 * j..16 * j + 16] == c[16 * k..16 * k + 16];
    assert c[16 * k - 16..16 * k] == if j == 0 then first else rest[16 * j - 16..16 * j];
  }

  lemma {:induction false} CbcIsCbc(p: Suite, key: Block, iv: Block, data: Octets)
    requires Lawful(p) && |data| % 16 == 0
    ensures IsCbc(p, key, iv, data, CbcEncrypt(p, key, iv, data))
    decreases |data|
  {
    hide IsCbcBlock, Xor;
    if data != [] {
      var first: Block := p.encrypt(key, Xor(data[..16], iv));
      var rest := CbcEncrypt(p, key, first, data[16..]);
      CbcIsCbc(p, key, first, data[16..]);
      forall k | 0 <= k < |data| / 16
        ensures IsCbcBlock(p, key, iv, data, first + rest, k)
      {
        if k == 0 {
          FirstCbcBlock(p, key, iv, data, rest);
        } else {
          NextCbcBlock(p, key, iv, first, data, rest, k - 1);
        }
      }
    }
  }

  // ----- a sealed segment

  predicate IsShortestLength(field: Octets, n: nat) {
    && (n < 0x80 ==> field == [n])
    && (0x80 <= n < 0x100 ==> field == [0x81, n])
    && (0x100 <= n < 0x1_0000 ==> field == [0x82, n / 256, n % 256])
  }

  lemma MacOverShortest(p: Suite, keys: Keys, chain: Block, tag: Octet, payload: Octets, shortest: Octets)
    requires |payload| + 8 < 0x1_0000 && IsShortestLength(shortest, |payload| + 8)
    ensures FullMac(p, keys, chain, tag, payload) == p.cmac(keys.mac, chain + [tag] + shortest + payload)
  {
    assert EncodeLength(|payload| + 8).value == shortest;
  }

  /** All there is to sealing. The segment is tag, shortest length, payload and half a MAC; the MAC is over chain, tag,
      length and payload, and becomes the chain; the payload is the plaintext in clear, or padded and encrypted in
      chained blocks from the vector of the block number; the number goes on by one and wraps at 32 bits. */
  lemma SealedOnTheWire(p: Suite, keys: Keys, ch: Channel, s: Sending)
    returns (field: Octets, payload: Octets, padded: Octets, icv: Block)
    requires Lawful(p) && |s.plain| <= 1010
    ensures Send(p, keys, ch, s).result.Ok?
    ensures
      var o := Send(p, keys, ch, s);
      && o.result.value == [s.tag] + field + payload + o.after.chain[..8]
      && o.after.chain == p.cmac(keys.mac, ch.chain + [s.tag] + field + payload)
      && o.after.block == if ch.block == 0xffff_ffff then 0 else ch.block + 1
    ensures IsShortestLength(field, |payload| + 8)
    ensures s.Clear? ==> payload == s.plain
    ensures s.Encrypted? ==>
              IsPadded(s.plain, padded) && IsIcv(p, keys.enc, ch.block, icv) && IsCbc(p, keys.enc, icv, padded, payload)
  {
    hide Padded, CbcEncrypt, Icv, IsPadded, IsIcv, IsCbc;
    PaddingRoundTrip(s.plain);
    PaddedIsPadded(s.plain);
    IcvLayout(p, keys.enc, ch.block);
    padded, icv := Padded(s.plain), Icv(p, keys.enc, ch.block);
    CbcIsCbc(p, keys.enc, icv, padded);
    payload := Payload(p, keys, ch.block, s);
    field := EncodeLength(|payload| + 8).value;
  }

  /** Exactly plaintexts of more than 1010 octets are refused, and change nothing. */
  lemma TooLargeExactly(p: Suite, keys: Keys, ch: Channel, s: Sending)
    ensures Send(p, keys, ch, s).result == Err(SegmentTooLarge) <==> |s.plain| > 1010
    ensures Send(p, keys, ch, s).result.Err? ==> Send(p, keys, ch, s) == Outcome(ch, Err(SegmentTooLarge))
  {
  }

  // ----- an opened segment

  predicate IsOpenedBlock(p: Suite, key: Block, iv: Block, c: Octets, data: Octets, k: nat)
    requires |c| == |data| && 16 * k + 16 <= |data|
  {
    IsXor(p.decrypt(key, c[16 * k..16 * k + 16]), if k == 0 then iv else c[16 * k - 16..16 * k],
          data[16 * k..16 * k + 16])
  }

  predicate IsOpened(p: Suite, key: Block, iv: Block, c: Octets, data: Octets) {
    && |c| == |data| && |data| % 16 == 0
    && forall k | 0 <= k < |data| / 16 :: IsOpenedBlock(p, key, iv, c, data, k)
  }

  lemma FirstOpenedBlock(p: Suite, key: Block, iv: Block, c: Octets, rest: Octets)
    requires |c| >= 16 && |rest| == |c| - 16
    ensures IsOpenedBlock(p, key, iv, c, Xor(p.decrypt(key, c[..16]), iv) + rest, 0)
  {
    hide IsXor, Xor;
    var first := Xor(p.decrypt(key, c[..16]), iv);
    XorIsXor(p.decrypt(key, c[..16]), iv);
    assert (first + rest)[..16] == first;
  }

  lemma NextOpenedBlock(p: Suite, key: Block, iv: Block, c: Octets, first: Octets, rest: Octets, j: nat)
    requires |c| >= 16 && |first| == 16 && |rest| == |c| - 16 && 16 * j + 16 <= |rest|
    requires IsOpenedBlock(p, key, c[..16], c[16..], rest, j)
    ensures IsOpenedBlock(p, key, iv, c, first + rest, j + 1)
  {
    hide IsXor;
    var data, k := first + rest, j + 1;
    assert c[16..][16 * j..16 * j + 16] == c[16 * k..16 * k + 16];
    assert rest[16 * j..16 * j + 16] == data[16 * k..16 * k + 16];
    assert c[16 * k - 16..16 * k] == if j == 0 then c[..16] else c[16..][16 * j - 16..16 * j];
  }

  lemma {:induction false} DecryptIsOpened(p: Suite, key: Block, iv: Block, c: Octets)
    requires |c| % 16 == 0
    ensures IsOpened(p, key, iv, c, CbcDecrypt(p, key, iv, c))
    decreases |c|
  {
    hide IsOpenedBlock, Xor;
    if c != [] {
      var first := Xor(p.decrypt(key, c[..16]), iv);
      var rest := CbcDecrypt(p, key, c[..16], c[16..]);
      DecryptIsOpened(p, key, c[..16], c[16..]);
      forall k | 0 <= k < |c| / 16
        ensures IsOpenedBlock(p, key, iv, c, first + rest, k)
      {
        if k == 0 {
          FirstOpenedBlock(p, key, iv, c, rest);
        } else {
          NextOpenedBlock(p, key, iv, c, first, rest, k - 1);
        }
      }
    }
  }

  /** A segment with this payload and MAC, its length in any of the three forms, and anything behind. */
  ghost predicate Carries(segment: Octets, payload: Octets, mac: Octets) {
    exists field, rest ::
      segment != [] && IsLengthField(field, |payload| + 8)
      && IsSegment(segment, segment[0], field, payload, mac, rest)
  }

  /** What comes out of a decrypted payload. */
  ghost predicate IsDecrypted(p: Suite, key: Block, n: Counter, payload: Octets, icv: Block, data: Octets,
                              out: Octets) {
    && IsIcv(p, key, n, icv) && IsOpened(p, key, icv, payload, data)
    && (forall plain | Marked(data, plain) :: out == plain)
    && ((forall plain :: !Marked(data, plain)) ==> out == data)
  }

  lemma OpenedFrame(p: Suite, keys: Keys, ch: Channel, segment: Octets, decrypt: bool) returns (f: Framed)
    requires Open(p, keys, ch, segment, decrypt).result.Ok?
    ensures segment != [] && f.tag == segment[0] && f.payload != [] && |f.payload| + 8 < 0x1_0000
    ensures
      var o := Open(p, keys, ch, segment, decrypt);
      && o.after.chain == FullMac(p, keys, ch.chain, f.tag, f.payload)
      && o.after.block == (if ch.block == 0xffff_ffff then 0 else ch.block + 1)
      && o.result == Plain(p, keys, ch.block, f.payload, decrypt)
      && Carries(segment, f.payload, o.after.chain[..8])
  {
    f := Parsed(segment).value;
    ReadIsFrame(segment, f);
    TagIsFirst(segment);
    hide FullMac, Plain, Parsed, IsLengthField, IsSegment;
  }

  lemma PlainIsDecrypted(p: Suite, keys: Keys, n: Counter, payload: Octets) returns (icv: Block, data: Octets)
    requires Lawful(p) && Plain(p, keys, n, payload, true).Ok?
    ensures IsDecrypted(p, keys.enc, n, payload, icv, data, Plain(p, keys, n, payload, true).value)
  {
    icv := Icv(p, keys.enc, n);
    data := CbcDecrypt(p, keys.enc, icv, payload);
    IcvLayout(p, keys.enc, n);
    DecryptIsOpened(p, keys.enc, icv, payload);
    UnpaddedExactly(data);
    hide Unpadded, CbcDecrypt, Icv, Marked, IsIcv, IsOpened;
  }

  /** All there is to opening, for whatever is opened without an error: what the MAC was taken over, the new chain and
      number, and the payload as it is or decrypted block by block and freed of its padding. */
  lemma OpenedOnTheWire(p: Suite, keys: Keys, ch: Channel, segment: Octets, decrypt: bool)
    returns (shortest: Octets, payload: Octets, data: Octets, icv: Block)
    requires Lawful(p) && Open(p, keys, ch, segment, decrypt).result.Ok?
    ensures payload != [] && IsShortestLength(shortest, |payload| + 8) && segment != []
    ensures
      var o := Open(p, keys, ch, segment, decrypt);
      && o.after.chain == p.cmac(keys.mac, ch.chain + [segment[0]] + shortest + payload)
      && o.after.block == (if ch.block == 0xffff_ffff then 0 else ch.block + 1)
      && Carries(segment, payload, o.after.chain[..8])
      && (!decrypt ==> o.result.value == payload)
      && (decrypt ==> IsDecrypted(p, keys.enc, ch.block, payload, icv, data, o.result.value))
  {
    var f := OpenedFrame(p, keys, ch, segment, decrypt);
    payload := f.payload;
    LengthSize(|payload| + 8);
    shortest := EncodeLength(|payload| + 8).value;
    MacOverShortest(p, keys, ch.chain, f.tag, payload, shortest);
    icv, data := ch.chain, payload;
    if decrypt {
      icv, data := PlainIsDecrypted(p, keys, ch.block, payload);
    }
    hide Open, FullMac, Carries, IsDecrypted;
  }

  // ----- reasons for refusing a segment

  /** Length fields that are not in one of the three forms, or not complete. */
  lemma BadLengths(p: Suite, keys: Keys, ch: Channel, segment: Octets, decrypt: bool)
    ensures |segment| < 3 <==> Open(p, keys, ch, segment, decrypt).result == Err(SegmentTooSmall)
    ensures Open(p, keys, ch, segment, decrypt).result == Err(UnsupportedLengthEncoding)
            <==> |segment| >= 3 && (segment[1] == 0x80 || segment[1] > 0x82)
    ensures Open(p, keys, ch, segment, decrypt).result == Err(InvalidLengthEncoding)
            <==> |segment| == 3 && segment[1] == 0x82
  {
    hide FullMac, Unpadded, CbcDecrypt, Icv;
  }

  lemma ParsedBehind(segment: Octets, start: nat, n: nat)
    requires 3 <= |segment| && 2 <= start <= |segment| && IsLengthField(segment[1..start], n)
    ensures start + n > |segment| ==> Parsed(segment) == Err(InvalidSegmentLength)
    ensures start + n <= |segment| && n <= 8 ==> Parsed(segment) == Err(PayloadTooSmall)
    ensures start + n <= |segment| && n > 8 ==>
              n < 0x1_0000
              && Parsed(segment)
              == Ok(Framed(segment[0], segment[start..start + n - 8], segment[start + n - 8..start + n]))
  {
    var field := segment[1..start];
    assert forall i | 0 <= i < |field| :: segment[1 + i] == field[i];
    FieldIsRead(segment, field, n);
    hide ParseLength;
  }

  /** Behind a length field for n octets: too few of them, no payload, a wrong MAC, half a block, in this order. */
  lemma BadContents(p: Suite, keys: Keys, ch: Channel, segment: Octets, decrypt: bool, start: nat, n: nat,
                    shortest: Octets)
    requires 3 <= |segment| && 2 <= start <= |segment|
    requires IsLengthField(segment[1..start], n) && IsShortestLength(shortest, n)
    ensures
      var r := Open(p, keys, ch, segment, decrypt).result;
      && (start + n > |segment| ==> r == Err(InvalidSegmentLength))
      && (start + n <= |segment| && n <= 8 ==> r == Err(PayloadTooSmall))
      && (start + n <= |segment| && n > 8 ==>
            var payload := segment[start..start + n - 8];
            var mac := p.cmac(keys.mac, ch.chain + [segment[0]] + shortest + payload);
            if segment[start + n - 8..start + n] != mac[..8] then r == Err(MacVerificationFailed)
            else if decrypt && n % 16 != 8 then r == Err(UnexpectedOutputLength)
            else r.Ok?)
  {
    ParsedBehind(segment, start, n);
    hide Unpadded, CbcDecrypt, Icv, ParseLength, Parsed, IsLengthField;
    if start + n <= |segment| && n > 8 {
      MacOverShortest(p, keys, ch.chain, segment[0], segment[start..start + n - 8], shortest);
      hide FullMac;
    }
  }
}
