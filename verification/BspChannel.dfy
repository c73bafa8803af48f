/** The BSP secure channel (GSMA SGP.22, section 2.6.4) as a state machine: a MAC chain and a block counter at either
    end, segments that move both on, and runs of segments between two ends. */
module BspChannel {
  import opened BspPrimitives

  const MAC_LENGTH := 8
  const MAX_SEGMENT_SIZE := 1020

  /** MAX_SEGMENT_SIZE - 10: the most a segment may carry. */
  const MAX_PAYLOAD := 1010

  datatype Keys = Keys(enc: Block, mac: Block)

  datatype Channel = Channel(chain: Block, block: Counter)

  /** What a call leaves behind, whether it returns or throws. */
  datatype Outcome<+T> = Outcome(after: Channel, result: Result<T>)

  /** block_number++. */
  function Next(n: Counter): Counter { (n + 1) % 0x1_0000_0000 }

  // ----- frames

  function Frame(tag: Octet, payload: Octets, mac: Octets): Octets
    requires |payload| + |mac| < 0x1_0000
  {
    [tag] + EncodeLength(|payload| + |mac|).value + payload + mac
  }

  datatype Framed = Framed(tag: Octet, payload: Octets, mac: Octets)

  function Parsed(segment: Octets): (r: Result<Framed>)
    ensures r.Ok? ==> r.value.payload != [] && |r.value.mac| == MAC_LENGTH && |r.value.payload| + MAC_LENGTH < 0x1_0000
  {
    if |segment| < 3 then Err(SegmentTooSmall)
    else
      var field := ParseLength(segment, 1);
      if field.Err? then Err(field.error)
      else
        var (length, start) := field.value;
        if start + length > |segment| then Err(InvalidSegmentLength)
        else if length <= MAC_LENGTH then Err(PayloadTooSmall)
        else
          var middle := start + length - MAC_LENGTH;
          Ok(Framed(segment[0], segment[start..middle], segment[middle..start + length]))
  }

  /** The three ways to write a length that the receiver takes, the shortest or not. */
  predicate IsLengthField(field: Octets, n: nat) {
    || (|field| == 1 && field[0] == n < 0x80)
    || (|field| == 2 && field[0] == 0x81 && field[1] == n)
    || (|field| == 3 && field[0] == 0x82 && field[1] as nat * 256 + field[2] == n)
  }

  predicate IsSegment(segment: Octets, tag: Octet, field: Octets, payload: Octets, mac: Octets, rest: Octets) {
    segment == [tag] + field + payload + mac + rest
  }

  /** A frame is read as what was put in; what follows it makes no difference. */
  lemma FrameIsRead(tag: Octet, payload: Octets, mac: Octets, rest: Octets)
    requires |mac| == MAC_LENGTH && |payload| + MAC_LENGTH < 0x1_0000
    ensures Parsed(Frame(tag, payload, mac) + rest)
         == if payload == [] then Err(PayloadTooSmall) else Ok(Framed(tag, payload, mac))
  {
    var length := |payload| + MAC_LENGTH;
    LengthSize(length);
    var field := EncodeLength(length).value;
    var segment := Frame(tag, payload, mac) + rest;
    assert segment == [tag] + field + (payload + mac + rest);
    LengthRoundTrip([tag], length, payload + mac + rest);
    hide EncodeLength, ParseLength;
    var start := 1 + |field|;
    assert segment[start..start + |payload|] == payload;
    assert segment[start + |payload|..start + length] == mac;
  }

  lemma FiveParts(s: Octets, a: nat, b: nat, c: nat)
    requires 1 <= a <= b <= c <= |s|
    ensures s == [s[0]] + s[1..a] + s[a..b] + s[b..c] + s[c..]
  {
  }

  lemma PartsRead(segment: Octets, f: Framed) returns (length: nat, start: nat)
    requires Parsed(segment) == Ok(f)
    ensures ParseLength(segment, 1) == Ok((length, start))
    ensures 1 <= start && start + length <= |segment| && length == |f.payload| + MAC_LENGTH
    ensures f.tag == segment[0] && f.payload == segment[start..start + length - MAC_LENGTH]
    ensures f.mac == segment[start + length - MAC_LENGTH..start + length]
  {
    length, start := ParseLength(segment, 1).value.0, ParseLength(segment, 1).value.1;
  }

  lemma TagIsFirst(segment: Octets)
    requires Parsed(segment).Ok?
    ensures segment != [] && Parsed(segment).value.tag == segment[0]
  {
  }

  /** And nothing is read that does not have this shape: tag, length field, payload, MAC, and anything behind. */
  lemma ReadIsFrame(segment: Octets, f: Framed)
    requires Parsed(segment) == Ok(f)
    ensures exists field, rest ::
              IsLengthField(field, |f.payload| + MAC_LENGTH) && IsSegment(segment, f.tag, field, f.payload, f.mac, rest)
  {
    hide IsLengthField, ParseLength, Parsed;
    var length, start := PartsRead(segment, f);
    var field, rest := segment[1..start], segment[start + length..];
    LengthFieldRead(segment, length, start);
    FiveParts(segment, start, start + length - MAC_LENGTH, start + length);
    assert IsSegment(segment, f.tag, field, f.payload, f.mac, rest);
  }

  lemma LengthFieldRead(segment: Octets, length: nat, start: nat)
    requires ParseLength(segment, 1) == Ok((length, start)) && start <= |segment|
    ensures 1 < start && IsLengthField(segment[1..start], length)
  {
    assert segment[1..start][0] == segment[1];
  }

  // ----- sealing and opening one segment

  /** What the MAC covers. */
  function MacInput(chain: Block, tag: Octet, payload: Octets): Octets
    requires |payload| + MAC_LENGTH < 0x1_0000
  {
    chain + [tag] + EncodeLength(|payload| + MAC_LENGTH).value + payload
  }

  function FullMac(p: Suite, keys: Keys, chain: Block, tag: Octet, payload: Octets): Block
    requires |payload| + MAC_LENGTH < 0x1_0000
  {
    p.cmac(keys.mac, MacInput(chain, tag, payload))
  }

  /** The MAC leaves nothing out and nothing ambiguous: its input determines chain, tag and payload. */
  lemma MacInputInjective(chain: Block, tag: Octet, payload: Octets, chain': Block, tag': Octet, payload': Octets)
    requires |payload| + MAC_LENGTH < 0x1_0000 && |payload'| + MAC_LENGTH < 0x1_0000
    requires MacInput(chain, tag, payload) == MacInput(chain', tag', payload')
    ensures chain == chain' && tag == tag' && payload == payload'
  {
    hide EncodeLength, ParseLength;
    var x, x' := MacInput(chain, tag, payload), MacInput(chain', tag', payload');
    var n, n' := |payload| + MAC_LENGTH, |payload'| + MAC_LENGTH;
    LengthRoundTrip(chain + [tag], n, payload);
    LengthRoundTrip(chain' + [tag'], n', payload');
    assert x == chain + [tag] + EncodeLength(n).value + payload;
    assert x' == chain' + [tag'] + EncodeLength(n').value + payload';
    assert ParseLength(x, 17) == Ok((n, 17 + |EncodeLength(n).value|));
    assert ParseLength(x', 17) == Ok((n', 17 + |EncodeLength(n').value|));
    assert x[..16] == chain && x'[..16] == chain' && x[16] == tag && x'[16] == tag';
    assert x[17 + |EncodeLength(n).value|..] == payload && x'[17 + |EncodeLength(n').value|..] == payload';
  }

  datatype Sending = Encrypted(tag: Octet, plain: Octets) | Clear(tag: Octet, plain: Octets)

  function Payload(p: Suite, keys: Keys, block: Counter, s: Sending): (r: Octets)
    ensures |r| == if s.Encrypted? then |Padded(s.plain)| else |s.plain|
  {
    match s
    case Encrypted(_, plain) =>
      PaddingRoundTrip(plain);
      CbcEncrypt(p, keys.enc, Icv(p, keys.enc, block), Padded(plain))
    case Clear(_, plain) => plain
  }

  function Send(p: Suite, keys: Keys, ch: Channel, s: Sending): Outcome<Octets> {
    if |s.plain| > MAX_PAYLOAD then Outcome(ch, Err(SegmentTooLarge))
    else
      PaddingRoundTrip(s.plain);
      var payload := Payload(p, keys, ch.block, s);
      var mac := FullMac(p, keys, ch.chain, s.tag, payload);
      Outcome(Channel(mac, Next(ch.block)), Ok(Frame(s.tag, payload, mac[..MAC_LENGTH])))
  }

  function Plain(p: Suite, keys: Keys, block: Counter, payload: Octets, decrypt: bool): Result<Octets> {
    if !decrypt then Ok(payload)
    else if |payload| % 16 != 0 then Err(UnexpectedOutputLength)
    else Ok(Unpadded(CbcDecrypt(p, keys.enc, Icv(p, keys.enc, block), payload)))
  }

  function Open(p: Suite, keys: Keys, ch: Channel, segment: Octets, decrypt: bool): Outcome<Octets> {
    var parsed := Parsed(segment);
    if parsed.Err? then Outcome(ch, Err(parsed.error))
    else
      var f := parsed.value;
      var mac := FullMac(p, keys, ch.chain, f.tag, f.payload);
      if f.mac != mac[..MAC_LENGTH] then Outcome(ch, Err(MacVerificationFailed))
      else Outcome(Channel(mac, Next(ch.block)), Plain(p, keys, ch.block, f.payload, decrypt))
  }

  /** Sendings that the receiver can open: not too large, and not an empty one in clear. */
  predicate Openable(s: Sending) { |s.plain| <= MAX_PAYLOAD && (s.Clear? ==> s.plain != []) }

  lemma PayloadRoundTrip(p: Suite, keys: Keys, block: Counter, s: Sending)
    requires Lawful(p)
    ensures Plain(p, keys, block, Payload(p, keys, block, s), s.Encrypted?) == Ok(s.plain)
  {
    if s.Encrypted? {
      PaddingRoundTrip(s.plain);
      CbcRoundTrip(p, keys.enc, Icv(p, keys.enc, block), Padded(s.plain));
    }
  }

  /** What one end seals, the other end in the same state opens, and the two are in the same state again.
      It fails only for an empty plaintext in clear, which moves the sender on and not the receiver. */
  lemma OpenUndoesSend(p: Suite, keys: Keys, ch: Channel, s: Sending, rest: Octets)
    requires Lawful(p) && |s.plain| <= MAX_PAYLOAD
    ensures Send(p, keys, ch, s).result.Ok?
    ensures Open(p, keys, ch, Send(p, keys, ch, s).result.value + rest, s.Encrypted?)
         == if Openable(s) then Outcome(Send(p, keys, ch, s).after, Ok(s.plain)) else Outcome(ch, Err(PayloadTooSmall))
  {
    hide Padded, PadLen, CbcEncrypt, CbcDecrypt, Icv, Unpadded, Parsed, Frame, Plain, Payload;
    PaddingRoundTrip(s.plain);
    PayloadRoundTrip(p, keys, ch.block, s);
    var payload := Payload(p, keys, ch.block, s);
    FrameIsRead(s.tag, payload, FullMac(p, keys, ch.chain, s.tag, payload)[..MAC_LENGTH], rest);
  }

  // ----- rejection

  /** Whether the segment is well framed and carries the MAC that the receiver's chain asks for. */
  predicate Accepts(p: Suite, keys: Keys, ch: Channel, segment: Octets) {
    var parsed := Parsed(segment);
    parsed.Ok? && parsed.value.mac == FullMac(p, keys, ch.chain, parsed.value.tag, parsed.value.payload)[..MAC_LENGTH]
  }

  /** A receiver moves on exactly by a segment it accepts, whether asked to decrypt or not, and then by one block and to
      the full MAC; a segment refused for its framing or its MAC leaves it as it was and yields an error. */
  lemma RefusedLeavesState(p: Suite, keys: Keys, ch: Channel, segment: Octets, decrypt: bool)
    ensures Open(p, keys, ch, segment, decrypt).after == Open(p, keys, ch, segment, !decrypt).after
    ensures !Accepts(p, keys, ch, segment) ==>
              Open(p, keys, ch, segment, decrypt).after == ch && Open(p, keys, ch, segment, decrypt).result.Err?
    ensures Accepts(p, keys, ch, segment) ==>
              var f := Parsed(segment).value;
              Open(p, keys, ch, segment, decrypt).after
              == Channel(FullMac(p, keys, ch.chain, f.tag, f.payload), Next(ch.block)) != ch
    ensures Open(p, keys, ch, segment, decrypt).result.Ok? <==>
            Accepts(p, keys, ch, segment) && (decrypt ==> |Parsed(segment).value.payload| % 16 == 0)
  {
  }

  /** A segment that is accepted in two states with different chains (one that is replayed, say, or moved to another
      place in the run) has found two inputs of CMAC, different ones, with the same first 8 octets of the result. */
  lemma AcceptedTwiceIsCollision(p: Suite, keys: Keys, ch: Channel, ch': Channel, segment: Octets)
    requires Accepts(p, keys, ch, segment) && Accepts(p, keys, ch', segment) && ch.chain != ch'.chain
    ensures
      var f := Parsed(segment).value;
      var x, x' := MacInput(ch.chain, f.tag, f.payload), MacInput(ch'.chain, f.tag, f.payload);
      x != x' && p.cmac(keys.mac, x)[..MAC_LENGTH] == p.cmac(keys.mac, x')[..MAC_LENGTH]
  {
    hide MacInput, Parsed;
    var f := Parsed(segment).value;
    if MacInput(ch.chain, f.tag, f.payload) == MacInput(ch'.chain, f.tag, f.payload) {
      MacInputInjective(ch.chain, f.tag, f.payload, ch'.chain, f.tag, f.payload);
    }
  }

  /** Acceptance in the terms of the wire: some tag, a length field in any of the three forms, a payload that is not
      empty, the first 8 octets of the MAC over the shortest form of the length, and anything behind. */
  lemma AcceptedExactly(p: Suite, keys: Keys, ch: Channel, segment: Octets)
    ensures Accepts(p, keys, ch, segment) <==>
            exists tag: Octet, field: Octets, payload: Octets, rest: Octets ::
              GenuineSegment(p, keys, ch, segment, tag, field, payload, rest)
  {
    if Accepts(p, keys, ch, segment) {
      var f := Parsed(segment).value;
      ReadIsFrame(segment, f);
      var field, rest :| IsLengthField(field, |f.payload| + MAC_LENGTH)
                         && IsSegment(segment, f.tag, field, f.payload, f.mac, rest);
      assert GenuineSegment(p, keys, ch, segment, f.tag, field, f.payload, rest);
    }
    if tag: Octet, field: Octets, payload: Octets, rest: Octets :|
      GenuineSegment(p, keys, ch, segment, tag, field, payload, rest) {
      SegmentIsRead(segment, tag, field, payload, FullMac(p, keys, ch.chain, tag, payload)[..MAC_LENGTH], rest);
    }
  }

  predicate GenuineSegment(p: Suite, keys: Keys, ch: Channel, segment: Octets,
                           tag: Octet, field: Octets, payload: Octets, rest: Octets) {
    && payload != [] && |payload| + MAC_LENGTH < 0x1_0000
    && IsLengthField(field, |payload| + MAC_LENGTH)
    && IsSegment(segment, tag, field, payload, FullMac(p, keys, ch.chain, tag, payload)[..MAC_LENGTH], rest)
  }

  lemma SegmentIsRead(segment: Octets, tag: Octet, field: Octets, payload: Octets, mac: Octets, rest: Octets)
    requires payload != [] && |mac| == MAC_LENGTH && IsLengthField(field, |payload| + MAC_LENGTH)
    requires IsSegment(segment, tag, field, payload, mac, rest)
    ensures Parsed(segment) == Ok(Framed(tag, payload, mac))
  {
    var start, length := 1 + |field|, |payload| + MAC_LENGTH;
    assert forall i | 0 <= i < |field| :: segment[1 + i] == field[i];
    assert segment[start..start + |payload|] == payload;
    assert segment[start + |payload|..start + length] == mac;
    assert segment[0] == tag;
    FieldIsRead(segment, field, length);
    hide IsLengthField, ParseLength, IsSegment;
  }

  lemma FieldIsRead(segment: Octets, field: Octets, length: nat)
    requires IsLengthField(field, length) && |segment| >= 1 + |field|
    requires forall i | 0 <= i < |field| :: segment[1 + i] == field[i]
    ensures ParseLength(segment, 1) == Ok((length, 1 + |field|))
  {
  }
}
