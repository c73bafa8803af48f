/** What the BSP secure channel is built from: octets, AES-128-CBC over an abstract block cipher, padding, BER lengths,
    initial chaining vectors and the X9.63 key derivation (GSMA SGP.22, section 2.6.4; ITU-T X.690, section 8.1.3;
    SEC 1, section 3.6.1). */
module BspPrimitives {
  import opened Numbers

  type Octet = x: int | 0 <= x < 256

  type Octets = seq<Octet>

  type Block = s: Octets | |s| == 16 witness seq(16, _ => 0)
  /** uint32_t. */
  type Counter = n: nat | n < 0x1_0000_0000

  type Digest = s: Octets | |s| == 32 witness seq(32, _ => 0)

  datatype Error =
    | SegmentTooSmall | InvalidLengthEncoding | UnsupportedLengthEncoding | InvalidSegmentLength | PayloadTooSmall
    | MacVerificationFailed | UnexpectedOutputLength | SegmentTooLarge | LengthTooLarge
    | MalformedReplaceSessionKeys | HostIdTooLong | EidTooLong

  datatype Result<+T> = Ok(value: T) | Err(error: Error)

  /** The foreign functions: AES-128 on one block and its inverse, AES-CMAC with its full 16 octets, SHA-256. */
  datatype Suite = Suite(encrypt: (Block, Block) -> Block, decrypt: (Block, Block) -> Block,
                         cmac: (Block, Octets) -> Block, sha256: Octets -> Digest)

  ghost predicate Lawful(p: Suite) {
    forall k: Block, b: Block :: p.decrypt(k, p.encrypt(k, b)) == b
  }

  // ----- exclusive or

  function Half(n: nat): nat { n / 2 }

  function Sum2(a: nat, b: nat): (r: nat)
    ensures r < 2
  {
    (a + b) % 2
  }

  lemma LastDigit(rest: nat, a: nat, b: nat)
    ensures Half(2 * rest + Sum2(a, b)) == rest
    ensures 2 * Half(a) + Sum2(2 * rest + Sum2(a, b), b) == a
  {
  }

  lemma HalfBound(n: nat, digits: nat)
    requires digits > 0 && n < Pow2(digits)
    ensures Half(n) < Pow2(digits - 1)
  {
  }

  /** Exclusive or of two numbers of so many binary digits, digit by digit. */
  function XorDigits(a: nat, b: nat, digits: nat): (r: nat)
    requires a < Pow2(digits) && b < Pow2(digits)
    ensures r < Pow2(digits)
    decreases digits
  {
    if digits == 0 then 0
    else
      HalfBound(a, digits);
      HalfBound(b, digits);
      2 * XorDigits(Half(a), Half(b), digits - 1) + Sum2(a, b)
  }

  lemma {:induction false} XorDigitsCancel(a: nat, b: nat, digits: nat)
    requires a < Pow2(digits) && b < Pow2(digits)
    ensures XorDigits(XorDigits(a, b, digits), b, digits) == a
    decreases digits
  {
    hide Half, Sum2;
    if digits > 0 {
      HalfBound(a, digits);
      HalfBound(b, digits);
      XorDigitsCancel(Half(a), Half(b), digits - 1);
      LastDigit(XorDigits(Half(a), Half(b), digits - 1), a, b);
    }
  }

  lemma EightDigits()
    ensures Pow2(8) == 256
  {
    assert Pow2(4) == 16;
  }

  function XorOctet(a: Octet, b: Octet): Octet {
    EightDigits();
    XorDigits(a, b, 8)
  }

  lemma XorOctetCancel(a: Octet, b: Octet)
    ensures XorOctet(XorOctet(a, b), b) == a
  {
    hide Pow2, XorDigits;
    EightDigits();
    XorDigitsCancel(a, b, 8);
  }

  function Xor(a: Block, b: Block): (r: Block)
    ensures |r| == 16
  {
    seq(16, i requires 0 <= i < 16 => XorOctet(a[i], b[i]))
  }

  lemma XorCancel(a: Block, b: Block)
    ensures Xor(Xor(a, b), b) == a
  {
    hide XorOctet;
    forall i | 0 <= i < 16
      ensures Xor(Xor(a, b), b)[i] == a[i]
    {
      XorOctetCancel(a[i], b[i]);
    }
  }

  // ----- AES-CBC without padding

  function CbcEncrypt(p: Suite, key: Block, iv: Block, data: Octets): (r: Octets)
    requires |data| % 16 == 0
    ensures |r| == |data|
    decreases |data|
  {
    if data == [] then []
    else
      var c: Block := p.encrypt(key, Xor(data[..16], iv));
      c + CbcEncrypt(p, key, c, data[16..])
  }

  function CbcDecrypt(p: Suite, key: Block, iv: Block, data: Octets): (r: Octets)
    requires |data| % 16 == 0
    ensures |r| == |data|
    decreases |data|
  {
    if data == [] then []
    else Xor(p.decrypt(key, data[..16]), iv) + CbcDecrypt(p, key, data[..16], data[16..])
  }

  lemma {:induction false} CbcRoundTrip(p: Suite, key: Block, iv: Block, data: Octets)
    requires Lawful(p) && |data| % 16 == 0
    ensures CbcDecrypt(p, key, iv, CbcEncrypt(p, key, iv, data)) == data
    decreases |data|
  {
    hide Xor;
    if data != [] {
      var c: Block := p.encrypt(key, Xor(data[..16], iv));
      var rest := CbcEncrypt(p, key, c, data[16..]);
      CbcRoundTrip(p, key, c, data[16..]);
      assert (c + rest)[..16] == c && (c + rest)[16..] == rest;
      XorCancel(data[..16], iv);
    }
  }

  // ----- padding

  function Zeros(n: nat): (r: Octets)
    ensures |r| == n
  {
    seq(n, _ => 0)
  }

  function PadLen(n: nat): nat { (16 - (n + 1) % 16) % 16 }

  function Padded(data: Octets): Octets { data + [0x80] + Zeros(PadLen(|data|)) }

  /** Strips zeros from the end, then one 0x80. */
  function Stripped(data: Octets): Octets
    decreases |data|
  {
    if data == [] then data
    else if data[|data| - 1] == 0x00 then Stripped(data[..|data| - 1])
    else data
  }

  function Unpadded(data: Octets): Octets {
    var s := Stripped(data);
    if s != [] && s[|s| - 1] == 0x80 then s[..|s| - 1] else data
  }

  /** PadLen is the first number of zeros that completes a block. */
  lemma PadLenIsFirst(size: nat, n: nat)
    ensures n < PadLen(size) ==> (size + 1 + n) % 16 != 0
    ensures n == PadLen(size) ==> (size + 1 + n) % 16 == 0
  {
  }

  method add_padding(data: Octets) returns (padded: Octets)
    ensures padded == Padded(data)
  {
    hide PadLen;
    padded := data;
    padded := padded + [0x80];
    ghost var n := 0;
    while |padded| % 16 != 0
      invariant padded == data + [0x80] + Zeros(n)
      invariant n <= PadLen(|data|)
      decreases PadLen(|data|) - n
    {
      PadLenIsFirst(|data|, n);
      padded := padded + [0x00];
      n := n + 1;
      assert Zeros(n - 1) + [0x00] == Zeros(n);
    }
    PadLenIsFirst(|data|, n);
  }

  method remove_padding(data: Octets) returns (r: Octets)
    ensures r == Unpadded(data)
  {
    if |data| == 0 {
      return data;
    }
    var last_nonzero := |data| - 1;
    assert data[..last_nonzero + 1] == data;
    while last_nonzero >= 0 && data[last_nonzero] == 0x00
      invariant -1 <= last_nonzero < |data|
      invariant Stripped(data[..last_nonzero + 1]) == Stripped(data)
    {
      assert data[..last_nonzero + 1][..last_nonzero] == data[..last_nonzero];
      last_nonzero := last_nonzero - 1;
    }
    if last_nonzero >= 0 && data[last_nonzero] == 0x80 {
      assert data[..last_nonzero + 1][..last_nonzero] == data[..last_nonzero];
      return data[..last_nonzero];
    }
    return data;
  }

  lemma {:induction false} StripZeros(data: Octets, n: nat)
    requires data != [] && data[|data| - 1] != 0x00
    ensures Stripped(data + Zeros(n)) == data
  {
    if n == 0 {
      assert data + Zeros(0) == data;
    } else {
      assert (data + Zeros(n))[..|data| + n - 1] == data + Zeros(n - 1);
      StripZeros(data, n - 1);
    }
  }

  /** Padding reaches the next multiple of 16 by one to sixteen octets, and removing it gives the data back. */
  lemma PaddingRoundTrip(data: Octets)
    ensures |Padded(data)| % 16 == 0 && |data| < |Padded(data)| <= |data| + 16
    ensures Unpadded(Padded(data)) == data
  {
    var s := data + [0x80];
    StripZeros(s, PadLen(|data|));
    assert s[..|s| - 1] == data;
  }

  // ----- BER lengths

  function EncodeLength(length: nat): Result<Octets> {
    if length < 0x80 then Ok([length])
    else if length < 0x100 then Ok([0x81, length])
    else if length < 0x1_0000 then Ok([0x82, length / 256, length % 256])
    else Err(LengthTooLarge)
  }

  /** The length and the offset behind the length field. */
  function ParseLength(data: Octets, offset: nat): Result<(nat, nat)> {
    if offset >= |data| then Err(InvalidLengthEncoding)
    else
      var first := data[offset];
      if first < 0x80 then Ok((first, offset + 1))
      else if first == 0x81 then
        if offset + 1 >= |data| then Err(InvalidLengthEncoding)
        else Ok((data[offset + 1], offset + 2))
      else if first == 0x82 then
        if offset + 2 >= |data| then Err(InvalidLengthEncoding)
        else Ok((data[offset + 1] as nat * 256 + data[offset + 2], offset + 3))
      else Err(UnsupportedLengthEncoding)
  }

  /** Behind any prefix and before any suffix, the encoded length is read back. */
  lemma LengthRoundTrip(before: Octets, length: nat, after: Octets)
    requires length < 0x1_0000
    ensures EncodeLength(length).Ok? && 1 <= |EncodeLength(length).value| <= 3
    ensures ParseLength(before + EncodeLength(length).value + after, |before|)
         == Ok((length, |before| + |EncodeLength(length).value|))
  {
  }

  /** A length takes one octet up to 0x7f, two up to 0xff, three beyond. */
  lemma LengthSize(length: nat)
    requires length < 0x1_0000
    ensures EncodeLength(length).Ok?
    ensures |EncodeLength(length).value| == if length < 0x80 then 1 else if length < 0x100 then 2 else 3
  {
  }

  // ----- initial chaining vectors

  /** htonl. */
  function BigEndian(n: Counter): (r: Octets)
    ensures |r| == 4
  {
    [n / 256 / 256 / 256, n / 256 / 256 % 256, n / 256 % 256, n % 256]
  }

  function Icv(p: Suite, key: Block, block_num: Counter): Block {
    p.encrypt(key, Xor(Zeros(12) + BigEndian(block_num), Zeros(16)))
  }

  lemma BigEndianInjective(m: Counter, n: Counter)
    requires BigEndian(m) == BigEndian(n)
    ensures m == n
  {
    var a, b := BigEndian(m), BigEndian(n);
    assert a[0] == b[0] && a[1] == b[1] && a[2] == b[2] && a[3] == b[3];
    assert m / 256 / 256 == n / 256 / 256;
    assert m / 256 == n / 256;
  }

  /** Different block numbers have different chaining vectors, for any cipher that can be inverted. */
  lemma IcvInjective(p: Suite, key: Block, m: Counter, n: Counter)
    requires Lawful(p) && Icv(p, key, m) == Icv(p, key, n)
    ensures m == n
  {
    hide BigEndian, Xor, XorOctet;
    var z: Block := Zeros(16);
    var a: Block := Zeros(12) + BigEndian(m);
    var b: Block := Zeros(12) + BigEndian(n);
    assert Xor(a, z) == Xor(b, z) by {
      assert p.decrypt(key, p.encrypt(key, Xor(a, z))) == Xor(a, z);
      assert p.decrypt(key, p.encrypt(key, Xor(b, z))) == Xor(b, z);
    }
    XorCancel(a, z);
    XorCancel(b, z);
    assert BigEndian(m) == a[12..] && BigEndian(n) == b[12..];
    BigEndianInjective(m, n);
  }
}
