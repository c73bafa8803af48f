/** The BSP implementation itself: its key derivation, the object that holds one end of the channel, and the processing
    of a bound profile package (GSMA SGP.22, sections 2.5.3 and 2.6.4; SEC 1, section 3.6.1). */
module BspCrypto {
  import opened BspPrimitives
  import opened Options
  import opened BspChannel
  import opened BspRuns

  // ----- key derivation

  /** The counter's value for the k-th hash, starting at 1 and wrapping as uint32_t does. */
  function KdfCounter(k: nat): Counter { (k + 1) % 0x1_0000_0000 }

  lemma KdfCounterStep(k: nat)
    ensures KdfCounter(0) == 1 && KdfCounter(k + 1) == Next(KdfCounter(k))
  {
    var r: nat := KdfCounter(k);
    var q := (k + 1) / 0x1_0000_0000;
    assert k + 2 == 0x1_0000_0000 * q + r + 1;
    if r + 1 == 0x1_0000_0000 {
      assert k + 2 == 0x1_0000_0000 * (q + 1);
    }
  }

  function KdfBlock(p: Suite, secret: Octets, info: Octets, k: nat): Digest {
    p.sha256(secret + BigEndian(KdfCounter(k)) + info)
  }

  /** Octet by octet: the i-th comes from the hash with counter i / 32 + 1. */
  function Kdf(p: Suite, secret: Octets, info: Octets, n: nat): (r: Octets)
    ensures |r| == n
  {
    seq(n, i requires 0 <= i < n => KdfBlock(p, secret, info, i / 32)[i % 32])
  }

  lemma KdfPrefix(p: Suite, secret: Octets, info: Octets, m: nat, n: nat)
    requires m <= n
    ensures Kdf(p, secret, info, n)[..m] == Kdf(p, secret, info, m)
  {
    hide KdfBlock;
    assert forall i | 0 <= i < m :: Kdf(p, secret, info, n)[..m][i] == Kdf(p, secret, info, m)[i];
  }

  lemma KdfGrows(p: Suite, secret: Octets, info: Octets, k: nat, more: nat)
    requires more <= 32
    ensures Kdf(p, secret, info, 32 * k) + KdfBlock(p, secret, info, k)[..more] == Kdf(p, secret, info, 32 * k + more)
  {
    hide KdfBlock;
    var all := Kdf(p, secret, info, 32 * k + more);
    var hash := KdfBlock(p, secret, info, k);
    forall i | 0 <= i < 32 * k + more
      ensures (Kdf(p, secret, info, 32 * k) + hash[..more])[i] == all[i]
    {
      if i >= 32 * k {
        assert i / 32 == k && i % 32 == i - 32 * k;
      }
    }
  }

  method x963_kdf_sha256(p: Suite, shared_secret: Octets, shared_info: Octets, output_length: nat)
    returns (output: Octets)
    ensures output == Kdf(p, shared_secret, shared_info, output_length)
  {
    hide Kdf, KdfCounter, Next, BigEndian;
    output := [];
    var hash_length := 32;
    var counter: Counter := 1;
    ghost var k := 0;
    KdfCounterStep(0);
    assert Kdf(p, shared_secret, shared_info, 0) == [];
    while |output| < output_length
      invariant counter == KdfCounter(k)
      invariant |output| == if 32 * k <= output_length then 32 * k else output_length
      invariant output == Kdf(p, shared_secret, shared_info, |output|)
      decreases output_length - |output|
    {
      var hash_input := shared_secret;
      hash_input := hash_input + BigEndian(counter);
      hash_input := hash_input + shared_info;
      var hash_output := p.sha256(hash_input);
      var left := output_length - |output|;
      var bytes_needed := if hash_length < left then hash_length else left;
      KdfGrows(p, shared_secret, shared_info, k, bytes_needed);
      output := output + hash_output[..bytes_needed];
      KdfCounterStep(k);
      counter := Next(counter);
      k := k + 1;
    }
  }

  /** What from_kdf hashes for a session. */
  function SharedInfo(key_type: Octet, key_length: Octet, host_id: Octets, eid: Octets): Octets
    requires |host_id| <= 255 && |eid| <= 255
  {
    [key_type, key_length, |host_id|] + host_id + [|eid|] + eid
  }

  /** Different parties or key kinds are never hashed alike. */
  lemma SharedInfoInjective(t1: Octet, l1: Octet, h1: Octets, e1: Octets, t2: Octet, l2: Octet, h2: Octets, e2: Octets)
    requires |h1| <= 255 && |e1| <= 255 && |h2| <= 255 && |e2| <= 255
    requires SharedInfo(t1, l1, h1, e1) == SharedInfo(t2, l2, h2, e2)
    ensures t1 == t2 && l1 == l2 && h1 == h2 && e1 == e2
  {
    var a, b := SharedInfo(t1, l1, h1, e1), SharedInfo(t2, l2, h2, e2);
    assert a[0] == t1 && b[0] == t2;
    assert a[1] == l1 && b[1] == l2;
    assert a[2] == |h1| && b[2] == |h2|;
    assert a[3..3 + |h1|] == h1 && b[3..3 + |h2|] == h2;
    assert a[4 + |h1|..] == e1 && b[4 + |h2|..] == e2;
  }

  /** In the standard's terms: octet i is octet i mod 32 of the hash over secret, counter and shared info, the counter
      being i / 32 + 1 in four octets, highest first. */
  lemma KdfOctet(p: Suite, secret: Octets, info: Octets, n: nat, i: nat, counter: Octets)
    requires i < n && |counter| == 4
    requires counter[0] as nat * 0x100_0000 + counter[1] as nat * 0x1_0000 + counter[2] as nat * 0x100 + counter[3]
          == (i / 32 + 1) % 0x1_0000_0000
    ensures Kdf(p, secret, info, n)[i] == p.sha256(secret + counter + info)[i % 32]
  {
    FourOctets(counter, KdfCounter(i / 32));
  }

  lemma FourOctets(o: Octets, n: Counter)
    requires |o| == 4
    requires o[0] as nat * 0x100_0000 + o[1] as nat * 0x1_0000 + o[2] as nat * 0x100 + o[3] == n
    ensures BigEndian(n) == o
  {
    var a: nat, b: nat, c: nat, d: nat := o[0], o[1], o[2], o[3];
    assert n == 256 * (a * 0x1_0000 + b * 0x100 + c) + d;
    assert n / 256 == a * 0x1_0000 + b * 0x100 + c;
    assert n / 256 == 256 * (a * 0x100 + b) + c;
    assert n / 256 / 256 == a * 0x100 + b;
    assert n / 256 / 256 / 256 == a;
  }

  /** The 48 octets of a session: initial chain, encryption key and MAC key from two hashes. */
  lemma SessionOctets(p: Suite, secret: Octets, info: Octets)
    ensures
      var out := Kdf(p, secret, info, 48);
      var h1, h2 := p.sha256(secret + [0, 0, 0, 1] + info), p.sha256(secret + [0, 0, 0, 2] + info);
      out[..16] == h1[..16] && out[16..32] == h1[16..] && out[32..] == h2[..16]
  {
    var out := Kdf(p, secret, info, 48);
    var h1, h2 := p.sha256(secret + [0, 0, 0, 1] + info), p.sha256(secret + [0, 0, 0, 2] + info);
    forall i | 0 <= i < 48
      ensures out[i] == if i < 32 then h1[i] else h2[i - 32]
    {
      KdfOctet(p, secret, info, 48, i, [0, 0, 0, if i < 32 then 1 else 2]);
    }
    hide Kdf;
  }

  // ----- a bound profile package

  datatype NewKeys = NewKeys(mcv: Block, enc: Block, cmac: Block)

  /** The segments of the four sequences, as the ASN.1 library hands them out. */
  datatype Package =
    Package(first87: seq<Octets>, seq88: seq<Octets>, second87: Option<seq<Octets>>, seq86: seq<Octets>)

  datatype Processed =
    Processed(configureIsdp: Octets, storeMetadata: Octets, replaceSessionKeys: Option<NewKeys>, profileData: Octets)

  /** The ASN.1 reading of three fields of 16 octets, or none. */
  type KeyParser = Octets -> Option<NewKeys>

  function ParsedKeys(parser: KeyParser, data: Octets): Result<NewKeys> {
    if data == [] then Err(MalformedReplaceSessionKeys)
    else if parser(data).None? then Err(MalformedReplaceSessionKeys)
    else Ok(parser(data).value)
  }

  /** Element 0; of an empty stack the library encodes nothing. */
  function Element0(segments: seq<Octets>): Octets { if segments == [] then [] else segments[0] }

  function Process(p: Suite, parser: KeyParser, keys: Keys, ch: Channel, b: Package): Outcome<Processed> {
    var isdp := Open(p, keys, ch, Element0(b.first87), true);
    if isdp.result.Err? then Outcome(isdp.after, Err(isdp.result.error))
    else
      var metadata := OpenAll(p, keys, isdp.after, b.seq88, false);
      if metadata.result.Err? then Outcome(metadata.after, Err(metadata.result.error))
      else if b.second87.None? then
        var profile := OpenAll(p, keys, metadata.after, b.seq86, true);
        Outcome(profile.after, Finished(isdp.result.value, metadata.result.value, None, profile.result))
      else
        var request := Open(p, keys, metadata.after, Element0(b.second87.value), true);
        if request.result.Err? then Outcome(request.after, Err(request.result.error))
        else
          var new_keys := ParsedKeys(parser, request.result.value);
          if new_keys.Err? then Outcome(request.after, Err(new_keys.error))
          else
            var k := new_keys.value;
            var profile := OpenAll(p, Keys(k.enc, k.cmac), Channel(k.mcv, 1), b.seq86, true);
            Outcome(request.after, Finished(isdp.result.value, metadata.result.value, Some(k), profile.result))
  }

  function Finished(isdp: Octets, metadata: Octets, k: Option<NewKeys>, profile: Result<Octets>): Result<Processed> {
    if profile.Err? then Err(profile.error) else Ok(Processed(isdp, metadata, k, profile.value))
  }

  /** What goes into a package: the segments of metadata and profile, the encoded request for new keys if there is one,
      and elements behind the first one of the two sequences from which only that one is read. */
  datatype Contents =
    Contents(configure: Sending, metadata: seq<Sending>, request: Option<Sending>, profile: seq<Sending>,
             unread: seq<Octets>)

  predicate Packable(parser: KeyParser, c: Contents) {
    && Openable(c.configure) && c.configure.Encrypted?
    && AllOpenable(c.metadata, false)
    && AllOpenable(c.profile, true)
    && (c.request.Some? ==>
          Openable(c.request.value) && c.request.value.Encrypted? && ParsedKeys(parser, c.request.value.plain).Ok?)
  }

  datatype Packed = Packed(after: Channel, package: Package)

  /** The sender's side: everything with the session keys, except a profile that follows a request for new keys, which
      is sealed with those by a new instance. */
  function Pack(p: Suite, parser: KeyParser, keys: Keys, ch: Channel, c: Contents): Packed
    requires Packable(parser, c) && Lawful(p)
  {
    OpenUndoesSend(p, keys, ch, c.configure, []);
    var isdp := Send(p, keys, ch, c.configure);
    OpenAllUndoesSendAll(p, keys, isdp.after, c.metadata, false);
    var metadata := SendAll(p, keys, isdp.after, c.metadata);
    var first87 := [isdp.result.value] + c.unread;
    match c.request
    case None =>
      OpenAllUndoesSendAll(p, keys, metadata.after, c.profile, true);
      var profile := SendAll(p, keys, metadata.after, c.profile);
      Packed(profile.after, Package(first87, metadata.result.value, None, profile.result.value))
    case Some(r) =>
      OpenUndoesSend(p, keys, metadata.after, r, []);
      var request := Send(p, keys, metadata.after, r);
      var k := ParsedKeys(parser, r.plain).value;
      OpenAllUndoesSendAll(p, Keys(k.enc, k.cmac), Channel(k.mcv, 1), c.profile, true);
      var profile := SendAll(p, Keys(k.enc, k.cmac), Channel(k.mcv, 1), c.profile);
      Packed(request.after,
             Package(first87, metadata.result.value, Some([request.result.value] + c.unread), profile.result.value))
  }

  /** A package is processed to exactly what was put in, and the two ends are in step afterwards. */
  lemma ProcessUndoesPack(p: Suite, parser: KeyParser, keys: Keys, ch: Channel, c: Contents)
    requires Lawful(p) && Packable(parser, c)
    ensures Process(p, parser, keys, ch, Pack(p, parser, keys, ch, c).package)
         == Outcome(Pack(p, parser, keys, ch, c).after,
                    Ok(Processed(c.configure.plain, Plaintext(c.metadata),
                                 if c.request.None? then None
                                 else Some(ParsedKeys(parser, c.request.value.plain).value),
                                 Plaintext(c.profile))))
  {
    hide Open, Send, OpenAll, SendAll, Plaintext, ParsedKeys, AllOpenable;
    OpenUndoesSend(p, keys, ch, c.configure, []);
    var isdp := Send(p, keys, ch, c.configure);
    assert isdp.result.value + [] == isdp.result.value;
    OpenAllUndoesSendAll(p, keys, isdp.after, c.metadata, false);
    var metadata := SendAll(p, keys, isdp.after, c.metadata);
    match c.request
    case None =>
      OpenAllUndoesSendAll(p, keys, metadata.after, c.profile, true);
    case Some(r) =>
      OpenUndoesSend(p, keys, metadata.after, r, []);
      var request := Send(p, keys, metadata.after, r);
      assert request.result.value + [] == request.result.value;
      var k := ParsedKeys(parser, r.plain).value;
      OpenAllUndoesSendAll(p, Keys(k.enc, k.cmac), Channel(k.mcv, 1), c.profile, true);
  }

  /** With a request that reads as new keys, the profile is sealed with these, from their chain and block number 1. Here
      the sender's four steps are written out. */
  lemma NewKeysOpenProfile(p: Suite, parser: KeyParser, keys: Keys, ch: Channel, configure: Sending,
                           metadata: seq<Sending>, request: Sending, mcv: Block, enc: Block, cmac: Block,
                           profile: seq<Sending>, unread: seq<Octets>)
    requires Lawful(p) && |configure.plain| <= 1010 && |request.plain| <= 1010
    requires configure.Encrypted? && request.Encrypted? && AllOpenable(metadata, false) && AllOpenable(profile, true)
    requires request.plain != [] && parser(request.plain) == Some(NewKeys(mcv, enc, cmac))
    ensures
      var s1 := Send(p, keys, ch, configure);
      var s2 := SendAll(p, keys, s1.after, metadata);
      var s3 := Send(p, keys, s2.after, request);
      var s4 := SendAll(p, Keys(enc, cmac), Channel(mcv, 1), profile);
      && s1.result.Ok? && s2.result.Ok? && s3.result.Ok? && s4.result.Ok?
      && Process(p, parser, keys, ch, Package([s1.result.value] + unread, s2.result.value,
                                              Some([s3.result.value] + unread), s4.result.value))
      == Outcome(s3.after, Ok(Processed(configure.plain, Plaintext(metadata), Some(NewKeys(mcv, enc, cmac)),
                                        Plaintext(profile))))
  {
    var c := Contents(configure, metadata, Some(request), profile, unread);
    hide Open, Send, OpenAll, SendAll, Plaintext, AllOpenable, Process;
    ProcessUndoesPack(p, parser, keys, ch, c);
    OpenUndoesSend(p, keys, ch, configure, []);
    OpenAllUndoesSendAll(p, keys, Send(p, keys, ch, configure).after, metadata, false);
    OpenUndoesSend(p, keys, SendAll(p, keys, Send(p, keys, ch, configure).after, metadata).after, request, []);
    OpenAllUndoesSendAll(p, Keys(enc, cmac), Channel(mcv, 1), profile, true);
  }

  /** Without one, all of it is sealed in one run. */
  lemma SameKeysOpenProfile(p: Suite, parser: KeyParser, keys: Keys, ch: Channel, configure: Sending,
                            metadata: seq<Sending>, profile: seq<Sending>, unread: seq<Octets>)
    requires Lawful(p) && |configure.plain| <= 1010
    requires configure.Encrypted? && AllOpenable(metadata, false) && AllOpenable(profile, true)
    ensures
      var s1 := Send(p, keys, ch, configure);
      var s2 := SendAll(p, keys, s1.after, metadata);
      var s3 := SendAll(p, keys, s2.after, profile);
      && s1.result.Ok? && s2.result.Ok? && s3.result.Ok?
      && Process(p, parser, keys, ch, Package([s1.result.value] + unread, s2.result.value, None, s3.result.value))
      == Outcome(s3.after, Ok(Processed(configure.plain, Plaintext(metadata), None, Plaintext(profile))))
  {
    var c := Contents(configure, metadata, None, profile, unread);
    hide Open, Send, OpenAll, SendAll, Plaintext, AllOpenable, Process;
    ProcessUndoesPack(p, parser, keys, ch, c);
    OpenUndoesSend(p, keys, ch, configure, []);
    var s1 := Send(p, keys, ch, configure);
    OpenAllUndoesSendAll(p, keys, s1.after, metadata, false);
    OpenAllUndoesSendAll(p, keys, SendAll(p, keys, s1.after, metadata).after, profile, true);
  }

  /** Metadata and profile of any length, split as the sender splits them, come out whole. */
  lemma ProcessUndoesSplitAndPack(p: Suite, parser: KeyParser, keys: Keys, ch: Channel, configure: Octets,
                                  metadata: Octets, request: Option<Octets>, profile: Octets)
    requires Lawful(p) && |configure| <= MAX_PAYLOAD
    requires request.Some? ==> |request.value| <= MAX_PAYLOAD && ParsedKeys(parser, request.value).Ok?
    ensures
      var c := SplitContents(configure, metadata, request, profile);
      Packable(parser, c)
      && Process(p, parser, keys, ch, Pack(p, parser, keys, ch, c).package).result
      == Ok(Processed(configure, metadata,
                      if request.None? then None else Some(ParsedKeys(parser, request.value).value), profile))
  {
    hide Process, ParsedKeys, Split, Plaintext, AllOpenable;
    SplitIsWhole(0x88, metadata, false);
    SplitIsWhole(0x86, profile, true);
    ProcessUndoesPack(p, parser, keys, ch, SplitContents(configure, metadata, request, profile));
  }

  function SplitContents(configure: Octets, metadata: Octets, request: Option<Octets>, profile: Octets): Contents {
    Contents(Encrypted(0x87, configure), Split(0x88, metadata, false),
             if request.None? then None else Some(Encrypted(0x87, request.value)), Split(0x86, profile, true), [])
  }

  // ----- the object

  lemma SendFits(p: Suite, keys: Keys, ch: Channel, s: Sending)
    requires |s.plain| <= MAX_PAYLOAD
    ensures Send(p, keys, ch, s).result.Ok?
  {
  }

  lemma NothingBefore(s: SentAll)
    ensures SentBefore([], s) == s
  {
    if s.result.Ok? {
      assert [] + s.result.value == s.result.value;
    }
  }

  lemma NothingOpenedBefore(o: Outcome<Octets>)
    ensures OpenedBefore([], o) == o
  {
    if o.result.Ok? {
      assert [] + o.result.value == o.result.value;
    }
  }

  lemma NothingLeft(p: Suite, keys: Keys, ch: Channel, tag: Octet, encrypt: bool, done: seq<Octets>)
    ensures SentBefore(done, SendAll(p, keys, ch, Split(tag, [], encrypt))) == SentAll(ch, Ok(done))
  {
    assert done + [] == done;
  }

  lemma NothingToOpen(p: Suite, keys: Keys, ch: Channel, decrypt: bool, done: Octets)
    ensures OpenedBefore(done, OpenAll(p, keys, ch, [], decrypt)) == Outcome(ch, Ok(done))
  {
    assert done + [] == done;
  }

  lemma OpenAllFails(p: Suite, keys: Keys, ch: Channel, segments: seq<Octets>, decrypt: bool)
    requires segments != [] && Open(p, keys, ch, segments[0], decrypt).result.Err?
    ensures OpenAll(p, keys, ch, segments, decrypt) == Open(p, keys, ch, segments[0], decrypt)
  {
  }

  class BspCrypto {
    const p: Suite
    const s_enc: Block
    const s_mac: Block
    var mac_chain: Block
    var block_number: Counter

    constructor (p: Suite, s_enc_key: Block, s_mac_key: Block, initial_mcv: Block)
      ensures this.p == p && Keys() == BspChannel.Keys(s_enc_key, s_mac_key) && State() == Channel(initial_mcv, 1)
    {
      this.p := p;
      s_enc, s_mac := s_enc_key, s_mac_key;
      mac_chain := initial_mcv;
      block_number := 1;
    }

    function Keys(): BspChannel.Keys { BspChannel.Keys(s_enc, s_mac) }

    function State(): Channel
      reads this
    {
      Channel(mac_chain, block_number)
    }

    static method from_kdf(p: Suite, shared_secret: Octets, key_type: Octet, key_length: Octet, host_id: Octets,
                           eid: Octets)
      returns (r: Result<BspCrypto>)
      ensures r.Ok? <==> |host_id| <= 255 && |eid| <= 255
      ensures r.Err? ==> r.error == if |host_id| > 255 then HostIdTooLong else EidTooLong
      ensures r.Ok? ==> fresh(r.value) && r.value.p == p
      ensures r.Ok? ==>
                var info := [key_type, key_length, |host_id|] + host_id + [|eid|] + eid;
                var h1 := p.sha256(shared_secret + [0, 0, 0, 1] + info);
                var h2 := p.sha256(shared_secret + [0, 0, 0, 2] + info);
                r.value.State() == Channel(h1[..16], 1) && r.value.Keys() == BspChannel.Keys(h1[16..], h2[..16])
    {
      var shared_info: Octets := [];
      shared_info := shared_info + [key_type];
      shared_info := shared_info + [key_length];
      if |host_id| > 255 {
        return Err(HostIdTooLong);
      }
      shared_info := shared_info + [|host_id|];
      shared_info := shared_info + host_id;
      if |eid| > 255 {
        return Err(EidTooLong);
      }
      shared_info := shared_info + [|eid|];
      shared_info := shared_info + eid;
      assert shared_info == [key_type, key_length, |host_id|] + host_id + [|eid|] + eid;
      assert shared_info == SharedInfo(key_type, key_length, host_id, eid);
      SessionOctets(p, shared_secret, shared_info);
      var out := x963_kdf_sha256(p, shared_secret, shared_info, 48);
      var o := new BspCrypto(p, out[16..32], out[32..48], out[0..16]);
      return Ok(o);
    }

    method reset(initial_mcv: Block)
      modifies this
      ensures State() == Channel(initial_mcv, 1)
    {
      mac_chain := initial_mcv;
      block_number := 1;
    }

    method generate_icv_for_block(block_num: Counter) returns (icv: Block)
      ensures icv == Icv(p, s_enc, block_num)
    {
      var block_data: Octets := Zeros(12) + BigEndian(block_num);
      var out := aes_cipher_operation(block_data, s_enc, Zeros(16), true);
      assert block_data[..16] == block_data;
      icv := out.value;
    }

    method generate_icv() returns (icv: Block)
      modifies this
      ensures State() == old(State()).(block := Next(old(block_number)))
      ensures icv == Icv(p, s_enc, old(block_number))
    {
      icv := generate_icv_for_block(block_number);
      block_number := Next(block_number);
    }

    /** Without padding, OpenSSL keeps an incomplete block back, which shows as an unexpected length. */
    method aes_cipher_operation(input: Octets, key: Block, iv: Block, encrypt: bool) returns (r: Result<Octets>)
      ensures |input| % 16 != 0 ==> r == Err(UnexpectedOutputLength)
      ensures |input| % 16 == 0 ==>
                r == Ok(if encrypt then CbcEncrypt(p, key, iv, input) else CbcDecrypt(p, key, iv, input))
    {
      if |input| % 16 != 0 {
        return Err(UnexpectedOutputLength);
      }
      return Ok(if encrypt then CbcEncrypt(p, key, iv, input) else CbcDecrypt(p, key, iv, input));
    }

    method aes_encrypt(plaintext: Octets) returns (r: Octets)
      modifies this
      ensures State() == old(State()).(block := Next(old(block_number)))
      ensures r == Payload(p, Keys(), old(block_number), Encrypted(0, plaintext))
    {
      var padded := add_padding(plaintext);
      PaddingRoundTrip(plaintext);
      var icv := generate_icv();
      var out := aes_cipher_operation(padded, s_enc, icv, true);
      r := out.value;
    }

    method aes_decrypt_with_icv(ciphertext: Octets, icv: Block) returns (r: Result<Octets>)
      ensures |ciphertext| % 16 != 0 ==> r == Err(UnexpectedOutputLength)
      ensures |ciphertext| % 16 == 0 ==> r == Ok(Unpadded(CbcDecrypt(p, s_enc, icv, ciphertext)))
    {
      var decrypted := aes_cipher_operation(ciphertext, s_enc, icv, false);
      if decrypted.Err? {
        return decrypted;
      }
      var stripped := remove_padding(decrypted.value);
      return Ok(stripped);
    }

    method compute_mac(tag: Octet, data: Octets) returns (r: Result<Octets>)
      modifies this
      ensures |data| + MAC_LENGTH >= 0x1_0000 ==> r == Err(LengthTooLarge) && State() == old(State())
      ensures |data| + MAC_LENGTH < 0x1_0000 ==>
                && State() == Channel(FullMac(p, Keys(), old(mac_chain), tag, data), old(block_number))
                && r == Ok(mac_chain[..MAC_LENGTH])
    {
      var lcc := |data| + MAC_LENGTH;
      var temp_data: Octets := mac_chain;
      temp_data := temp_data + [tag];
      var length_bytes := EncodeLength(lcc);
      if length_bytes.Err? {
        return Err(length_bytes.error);
      }
      temp_data := temp_data + length_bytes.value;
      temp_data := temp_data + data;
      var full_mac := p.cmac(s_mac, temp_data);
      mac_chain := full_mac;
      return Ok(full_mac[..MAC_LENGTH]);
    }

    method encrypt_and_mac_one(tag: Octet, plaintext: Octets) returns (r: Result<Octets>)
      modifies this
      ensures Outcome(State(), r) == Send(p, Keys(), old(State()), Encrypted(tag, plaintext))
    {
      if |plaintext| > MAX_SEGMENT_SIZE - 10 {
        return Err(SegmentTooLarge);
      }
      PaddingRoundTrip(plaintext);
      var ciphertext := aes_encrypt(plaintext);
      var mac := compute_mac(tag, ciphertext);
      LengthSize(|ciphertext| + MAC_LENGTH);
      var result: Octets := [tag];
      var length_bytes := EncodeLength(|ciphertext| + MAC_LENGTH);
      result := result + length_bytes.value;
      result := result + ciphertext;
      result := result + mac.value;
      return Ok(result);
    }

    method mac_only_one(tag: Octet, plaintext: Octets) returns (r: Result<Octets>)
      modifies this
      ensures Outcome(State(), r) == Send(p, Keys(), old(State()), Clear(tag, plaintext))
    {
      if |plaintext| > MAX_SEGMENT_SIZE - 10 {
        return Err(SegmentTooLarge);
      }
      var mac := compute_mac(tag, plaintext);
      LengthSize(|plaintext| + MAC_LENGTH);
      var result: Octets := [tag];
      var length_bytes := EncodeLength(|plaintext| + MAC_LENGTH);
      result := result + length_bytes.value;
      result := result + plaintext;
      result := result + mac.value;
      block_number := Next(block_number);
      return Ok(result);
    }

    /** Opening with a chain that may be another than the receiver's own, which a refusal leaves in place. */
    static function Opened(p: Suite, keys: BspChannel.Keys, ch: Channel, chain: Block, segment: Octets, decrypt: bool):
      Outcome<Octets>
    {
      var o := Open(p, keys, Channel(chain, ch.block), segment, decrypt);
      if Accepts(p, keys, Channel(chain, ch.block), segment) then o else Outcome(ch, o.result)
    }

    method verify_and_decrypt_helper(segment: Octets, mac_chain_to_use: Block, decrypt: bool)
      returns (r: Result<Octets>)
      modifies this
      ensures Opened(p, Keys(), old(State()), mac_chain_to_use, segment, decrypt) == Outcome(State(), r)
    {
      if |segment| < 3 {
        return Err(SegmentTooSmall);
      }
      var tag := segment[0];
      var field := ParseLength(segment, 1);
      if field.Err? {
        return Err(field.error);
      }
      var (length, length_end) := field.value;
      if length_end + length > |segment| {
        return Err(InvalidSegmentLength);
      }
      if length <= MAC_LENGTH {
        return Err(PayloadTooSmall);
      }
      var payload_length := length - MAC_LENGTH;
      var payload := segment[length_end..length_end + payload_length];
      var received_mac := segment[length_end + payload_length..length_end + length];
      var lcc := |payload| + MAC_LENGTH;
      var temp_data: Octets := mac_chain_to_use;
      temp_data := temp_data + [tag];
      var length_bytes := EncodeLength(lcc);
      temp_data := temp_data + length_bytes.value;
      temp_data := temp_data + payload;
      var computed_full_mac := p.cmac(s_mac, temp_data);
      var computed_mac := computed_full_mac[..MAC_LENGTH];
      if received_mac != computed_mac {
        return Err(MacVerificationFailed);
      }
      mac_chain := computed_full_mac;
      if decrypt {
        var icv := generate_icv();
        r := aes_decrypt_with_icv(payload, icv);
      } else {
        block_number := Next(block_number);
        r := Ok(payload);
      }
    }

    method decrypt_and_verify(segments: Octets, decrypt: bool) returns (r: Result<Octets>)
      modifies this
      ensures Outcome(State(), r) == Open(p, Keys(), old(State()), segments, decrypt)
    {
      r := verify_and_decrypt_helper(segments, mac_chain, decrypt);
    }

    method encrypt_and_mac_seg(tag: Octet, data: Octets) returns (segments: seq<Octets>)
      modifies this
      ensures SentAll(State(), Ok(segments)) == SendAll(p, Keys(), old(State()), Split(tag, data, true))
    {
      hide Send, SendAll, Split;
      segments := [];
      var max_payload := MAX_SEGMENT_SIZE - 10;
      var offset := 0;
      assert Tail(data, 0) == data;
      ghost var all := SendAll(p, Keys(), State(), Split(tag, data, true));
      assert SentBefore([], all) == all by {
        NothingBefore(all);
      }
      while offset < |data|
        invariant all == SentBefore(segments, SendAll(p, Keys(), State(), Split(tag, Tail(data, offset), true)))
        decreases |data| - offset
      {
        var segment_size := if max_payload < |data| - offset then max_payload else |data| - offset;
        var segment := data[offset..offset + segment_size];
        ghost var left := Split(tag, Tail(data, offset), true);
        SplitStep(tag, data, offset, segment_size, true);
        assert left[0] == Encrypted(tag, segment) && left[1..] == Split(tag, Tail(data, offset + max_payload), true);
        SendFits(p, Keys(), State(), left[0]);
        SendAllStep(p, Keys(), State(), left, segments);
        var sent := encrypt_and_mac_one(tag, segment);
        segments := segments + [sent.value];
        offset := offset + max_payload;
      }
      assert Tail(data, offset) == [];
      NothingLeft(p, Keys(), State(), tag, true, segments);
    }

    method mac_only_seg(tag: Octet, data: Octets) returns (segments: seq<Octets>)
      modifies this
      ensures SentAll(State(), Ok(segments)) == SendAll(p, Keys(), old(State()), Split(tag, data, false))
    {
      hide Send, SendAll, Split;
      segments := [];
      var max_payload := MAX_SEGMENT_SIZE - 10;
      var offset := 0;
      assert Tail(data, 0) == data;
      ghost var all := SendAll(p, Keys(), State(), Split(tag, data, false));
      assert SentBefore([], all) == all by {
        NothingBefore(all);
      }
      while offset < |data|
        invariant all == SentBefore(segments, SendAll(p, Keys(), State(), Split(tag, Tail(data, offset), false)))
        decreases |data| - offset
      {
        var segment_size := if max_payload < |data| - offset then max_payload else |data| - offset;
        var segment := data[offset..offset + segment_size];
        ghost var left := Split(tag, Tail(data, offset), false);
        SplitStep(tag, data, offset, segment_size, false);
        assert left[0] == Clear(tag, segment) && left[1..] == Split(tag, Tail(data, offset + max_payload), false);
        SendFits(p, Keys(), State(), left[0]);
        SendAllStep(p, Keys(), State(), left, segments);
        var sent := mac_only_one(tag, segment);
        segments := segments + [sent.value];
        offset := offset + max_payload;
      }
      assert Tail(data, offset) == [];
      NothingLeft(p, Keys(), State(), tag, false, segments);
    }

    /** The sequence of segments of one kind, opened in order. */
    method decrypt_sequence(segments: seq<Octets>, decrypt: bool) returns (r: Result<Octets>)
      modifies this
      ensures Outcome(State(), r) == OpenAll(p, Keys(), old(State()), segments, decrypt)
    {
      hide Open, OpenAll;
      var data: Octets := [];
      var i := 0;
      ghost var all := OpenAll(p, Keys(), State(), segments, decrypt);
      assert segments[0..] == segments;
      NothingOpenedBefore(all);
      while i < |segments|
        invariant 0 <= i <= |segments|
        invariant all == OpenedBefore(data, OpenAll(p, Keys(), State(), segments[i..], decrypt))
      {
        ghost var before := State();
        var rv := decrypt_and_verify(segments[i], decrypt);
        assert segments[i..][0] == segments[i] && segments[i..][1..] == segments[i + 1..];
        if rv.Err? {
          OpenAllFails(p, Keys(), before, segments[i..], decrypt);
          return rv;
        }
        OpenAllStep(p, Keys(), before, segments[i..], decrypt, data);
        data := data + rv.value;
        i := i + 1;
      }
      NothingToOpen(p, Keys(), State(), decrypt, data);
      assert segments[i..] == [];
      return Ok(data);
    }

    method process_bound_profile_package(parser: KeyParser, bpp: Package) returns (r: Result<Processed>)
      modifies this
      ensures Outcome(State(), r) == Process(p, parser, Keys(), old(State()), bpp)
    {
      hide Open, OpenAll;
      var isdp := decrypt_and_verify(Element0(bpp.first87), true);
      if isdp.Err? {
        return Err(isdp.error);
      }
      var metadata := decrypt_sequence(bpp.seq88, false);
      if metadata.Err? {
        return Err(metadata.error);
      }
      if bpp.second87.Some? {
        var rsk_data := decrypt_and_verify(Element0(bpp.second87.value), true);
        if rsk_data.Err? {
          return Err(rsk_data.error);
        }
        var rsk := ParsedKeys(parser, rsk_data.value);
        if rsk.Err? {
          return Err(rsk.error);
        }
        var ppk_bsp := new BspCrypto(p, rsk.value.enc, rsk.value.cmac, rsk.value.mcv);
        var profile := ppk_bsp.decrypt_sequence(bpp.seq86, true);
        return Finished(isdp.value, metadata.value, Some(rsk.value), profile);
      } else {
        var profile := decrypt_sequence(bpp.seq86, true);
        return Finished(isdp.value, metadata.value, None, profile);
      }
    }
  }
}
