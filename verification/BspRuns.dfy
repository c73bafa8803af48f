/** Runs of the BSP channel: any number of segments between two ends, with anything else arriving in between, and the
    splitting of long data (GSMA SGP.22, sections 2.5.3 and 2.6.4). */
module BspRuns {
  import opened BspPrimitives
  import opened BspChannel

  // ----- one sender, one receiver, and a line that may also carry foreign segments

  datatype Event = Genuine(s: Sending) | Foreign(segment: Octets, decrypt: bool)

  /** A segment as it arrives, with the flag the receiver is called with. */
  datatype Arrival = Arrival(segment: Octets, decrypt: bool)

  datatype Sent = Sent(after: Channel, line: seq<Arrival>)
  datatype Received = Received(after: Channel, results: seq<Result<Octets>>)

  /** Everything sent is in the limits, and every foreign segment is one that the receiver, in step, does not accept. */
  predicate Tolerable(p: Suite, keys: Keys, ch: Channel, events: seq<Event>)
    decreases |events|
  {
    events == [] ||
    match events[0]
    case Genuine(s) => Openable(s) && Tolerable(p, keys, Send(p, keys, ch, s).after, events[1..])
    case Foreign(segment, _) => !Accepts(p, keys, ch, segment) && Tolerable(p, keys, ch, events[1..])
  }

  function Transmit(p: Suite, keys: Keys, ch: Channel, events: seq<Event>): Sent
    decreases |events|
  {
    if events == [] then Sent(ch, [])
    else
      match events[0]
      case Genuine(s) =>
        var o := Send(p, keys, ch, s);
        var rest := Transmit(p, keys, o.after, events[1..]);
        if o.result.Ok? then Sent(rest.after, [Arrival(o.result.value, s.Encrypted?)] + rest.line) else rest
      case Foreign(segment, decrypt) =>
        var rest := Transmit(p, keys, ch, events[1..]);
        Sent(rest.after, [Arrival(segment, decrypt)] + rest.line)
  }

  function Receive(p: Suite, keys: Keys, ch: Channel, line: seq<Arrival>): Received
    decreases |line|
  {
    if line == [] then Received(ch, [])
    else
      var o := Open(p, keys, ch, line[0].segment, line[0].decrypt);
      var rest := Receive(p, keys, o.after, line[1..]);
      Received(rest.after, [o.result] + rest.results)
  }

  /** Result by result: the plaintext for what was sent, an error for what was not. */
  predicate Delivered(results: seq<Result<Octets>>, events: seq<Event>) {
    |results| == |events| && forall i | 0 <= i < |events| :: Fits(results[i], events[i])
  }

  predicate Fits(result: Result<Octets>, event: Event) {
    match event
    case Genuine(s) => result == Ok(s.plain)
    case Foreign(_, _) => result.Err?
  }

  lemma DeliveredFirst(result: Result<Octets>, results: seq<Result<Octets>>, events: seq<Event>)
    requires events != [] && Fits(result, events[0]) && Delivered(results, events[1..])
    ensures Delivered([result] + results, events)
  {
    hide Fits;
    forall i | 0 <= i < |events|
      ensures Fits(([result] + results)[i], events[i])
    {
      assert i == 0 || events[i] == events[1..][i - 1];
    }
  }

  /** In step from the start, in step at the end, and everything sent has arrived. */
  lemma {:induction false} Lockstep(p: Suite, keys: Keys, ch: Channel, events: seq<Event>)
    requires Lawful(p) && Tolerable(p, keys, ch, events)
    ensures Receive(p, keys, ch, Transmit(p, keys, ch, events).line).after == Transmit(p, keys, ch, events).after
    ensures Delivered(Receive(p, keys, ch, Transmit(p, keys, ch, events).line).results, events)
    decreases |events|
  {
    hide Open, Send, Accepts;
    if events != [] {
      hide Delivered;
      var rest := events[1..];
      match events[0]
      case Genuine(s) =>
        var o := Send(p, keys, ch, s);
        OpenUndoesSend(p, keys, ch, s, []);
        assert o.result.value + [] == o.result.value;
        var line := Transmit(p, keys, o.after, rest).line;
        assert ([Arrival(o.result.value, s.Encrypted?)] + line)[1..] == line;
        Lockstep(p, keys, o.after, rest);
        DeliveredFirst(Ok(s.plain), Receive(p, keys, o.after, line).results, events);
      case Foreign(segment, decrypt) =>
        RefusedLeavesState(p, keys, ch, segment, decrypt);
        var line := Transmit(p, keys, ch, rest).line;
        assert ([Arrival(segment, decrypt)] + line)[1..] == line;
        Lockstep(p, keys, ch, rest);
        DeliveredFirst(Open(p, keys, ch, segment, decrypt).result, Receive(p, keys, ch, line).results, events);
    }
  }

  // ----- sequences of segments

  datatype SentAll = SentAll(after: Channel, result: Result<seq<Octets>>)

  function SendAll(p: Suite, keys: Keys, ch: Channel, list: seq<Sending>): SentAll
    decreases |list|
  {
    if list == [] then SentAll(ch, Ok([]))
    else
      var o := Send(p, keys, ch, list[0]);
      if o.result.Err? then SentAll(o.after, Err(o.result.error))
      else
        var rest := SendAll(p, keys, o.after, list[1..]);
        if rest.result.Err? then rest else SentAll(rest.after, Ok([o.result.value] + rest.result.value))
  }

  /** Opening one after the other and stringing the plaintexts together; the first error ends it. */
  function OpenAll(p: Suite, keys: Keys, ch: Channel, segments: seq<Octets>, decrypt: bool): Outcome<Octets>
    decreases |segments|
  {
    if segments == [] then Outcome(ch, Ok([]))
    else
      var o := Open(p, keys, ch, segments[0], decrypt);
      if o.result.Err? then o
      else
        var rest := OpenAll(p, keys, o.after, segments[1..], decrypt);
        if rest.result.Err? then rest else Outcome(rest.after, Ok(o.result.value + rest.result.value))
  }

  function Plaintext(list: seq<Sending>): Octets {
    if list == [] then [] else list[0].plain + Plaintext(list[1..])
  }

  predicate AllOpenable(list: seq<Sending>, encrypted: bool) {
    forall s | s in list :: Openable(s) && s.Encrypted? == encrypted
  }

  lemma {:induction false} OpenAllUndoesSendAll(p: Suite, keys: Keys, ch: Channel, list: seq<Sending>, encrypted: bool)
    requires Lawful(p) && AllOpenable(list, encrypted)
    ensures SendAll(p, keys, ch, list).result.Ok?
    ensures |SendAll(p, keys, ch, list).result.value| == |list|
    ensures OpenAll(p, keys, ch, SendAll(p, keys, ch, list).result.value, encrypted)
         == Outcome(SendAll(p, keys, ch, list).after, Ok(Plaintext(list)))
    decreases |list|
  {
    hide Open, Send;
    if list != [] {
      var o := Send(p, keys, ch, list[0]);
      assert list[0] in list;
      OpenUndoesSend(p, keys, ch, list[0], []);
      assert o.result.value + [] == o.result.value;
      OpenAllUndoesSendAll(p, keys, o.after, list[1..], encrypted);
      var rest := SendAll(p, keys, o.after, list[1..]).result.value;
      assert ([o.result.value] + rest)[1..] == rest;
    }
  }

  /** What is left to send, after what has been sent; and the same for opening. */
  function SentBefore(done: seq<Octets>, s: SentAll): SentAll {
    if s.result.Err? then s else SentAll(s.after, Ok(done + s.result.value))
  }

  function OpenedBefore(done: Octets, o: Outcome<Octets>): Outcome<Octets> {
    if o.result.Err? then o else Outcome(o.after, Ok(done + o.result.value))
  }

  lemma SendAllStep(p: Suite, keys: Keys, ch: Channel, list: seq<Sending>, done: seq<Octets>)
    requires list != [] && Send(p, keys, ch, list[0]).result.Ok?
    ensures SentBefore(done, SendAll(p, keys, ch, list))
         == SentBefore(done + [Send(p, keys, ch, list[0]).result.value],
                       SendAll(p, keys, Send(p, keys, ch, list[0]).after, list[1..]))
  {
    hide Send;
    var o := Send(p, keys, ch, list[0]);
    var rest := SendAll(p, keys, o.after, list[1..]).result;
    if rest.Ok? {
      assert done + ([o.result.value] + rest.value) == done + [o.result.value] + rest.value;
    }
  }

  lemma OpenAllStep(p: Suite, keys: Keys, ch: Channel, segments: seq<Octets>, decrypt: bool, done: Octets)
    requires segments != [] && Open(p, keys, ch, segments[0], decrypt).result.Ok?
    ensures OpenedBefore(done, OpenAll(p, keys, ch, segments, decrypt))
         == OpenedBefore(done + Open(p, keys, ch, segments[0], decrypt).result.value,
                         OpenAll(p, keys, Open(p, keys, ch, segments[0], decrypt).after, segments[1..], decrypt))
  {
    hide Open;
    var o := Open(p, keys, ch, segments[0], decrypt);
    var rest := OpenAll(p, keys, o.after, segments[1..], decrypt).result;
    if rest.Ok? {
      assert done + (o.result.value + rest.value) == done + o.result.value + rest.value;
    }
  }

  // ----- initial chaining vectors along a run

  function Advanced(n: Counter, steps: nat): Counter { (n + steps) % 0x1_0000_0000 }

  lemma AdvancedNext(n: Counter, steps: nat)
    ensures Advanced(n, 0) == n && Advanced(Next(n), steps) == Advanced(n, steps + 1)
  {
  }

  lemma {:induction false} BlockAfter(p: Suite, keys: Keys, ch: Channel, list: seq<Sending>)
    requires forall s | s in list :: |s.plain| <= MAX_PAYLOAD
    ensures SendAll(p, keys, ch, list).after.block == Advanced(ch.block, |list|)
    decreases |list|
  {
    hide Next, Advanced;
    AdvancedNext(ch.block, if list == [] then 0 else |list| - 1);
    if list != [] {
      var o := Send(p, keys, ch, list[0]);
      BlockAfter(p, keys, o.after, list[1..]);
    }
  }

  lemma AdvancedRepeats(n: Counter, i: nat, j: nat)
    ensures Advanced(n, i) == Advanced(n, j) <==> (j - i) % 0x1_0000_0000 == 0
  {
  }

  /** The chaining vector in use when i segments of the list have been sent. */
  function IcvBefore(p: Suite, keys: Keys, ch: Channel, list: seq<Sending>, i: nat): Block
    requires i <= |list|
  {
    Icv(p, keys.enc, SendAll(p, keys, ch, list[..i]).after.block)
  }

  /** Along a run, two chaining vectors are the same exactly when the number of segments between them is a multiple of
      2^32. */
  lemma IcvsRepeat(p: Suite, keys: Keys, ch: Channel, list: seq<Sending>, i: nat, j: nat)
    requires Lawful(p) && i < j <= |list| && forall s | s in list :: |s.plain| <= MAX_PAYLOAD
    ensures IcvBefore(p, keys, ch, list, i) == IcvBefore(p, keys, ch, list, j) <==> (j - i) % 0x1_0000_0000 == 0
  {
    hide Icv, SendAll, Advanced;
    BlockAfter(p, keys, ch, list[..i]);
    BlockAfter(p, keys, ch, list[..j]);
    AdvancedRepeats(ch.block, i, j);
    if IcvBefore(p, keys, ch, list, i) == IcvBefore(p, keys, ch, list, j) {
      IcvInjective(p, keys.enc, Advanced(ch.block, i), Advanced(ch.block, j));
    }
  }

  // ----- splitting

  function Make(tag: Octet, plain: Octets, encrypt: bool): Sending {
    if encrypt then Encrypted(tag, plain) else Clear(tag, plain)
  }

  /** Data cut into pieces of 1010 octets and what is left. */
  function Split(tag: Octet, data: Octets, encrypt: bool): seq<Sending>
    decreases |data|
  {
    if data == [] then []
    else
      var n := if |data| < MAX_PAYLOAD then |data| else MAX_PAYLOAD;
      [Make(tag, data[..n], encrypt)] + Split(tag, data[n..], encrypt)
  }

  /** As few pieces as the limit allows, all of them openable, and together the data. */
  lemma {:induction false} SplitIsWhole(tag: Octet, data: Octets, encrypt: bool)
    ensures Plaintext(Split(tag, data, encrypt)) == data
    ensures AllOpenable(Split(tag, data, encrypt), encrypt)
    ensures forall s | s in Split(tag, data, encrypt) :: s.tag == tag && s.plain != []
    ensures |Split(tag, data, encrypt)| == (|data| + 1009) / 1010
    ensures forall i | 0 <= i < |Split(tag, data, encrypt)| - 1 :: |Split(tag, data, encrypt)[i].plain| == 1010
    decreases |data|
  {
    if data != [] {
      var n := if |data| < MAX_PAYLOAD then |data| else MAX_PAYLOAD;
      SplitIsWhole(tag, data[n..], encrypt);
      assert data[..n] + data[n..] == data;
      CeilStep(|data|);
      var head, tail := Make(tag, data[..n], encrypt), Split(tag, data[n..], encrypt);
      assert Split(tag, data, encrypt) == [head] + tail;
      assert ([head] + tail)[1..] == tail;
    }
  }

  function Tail(data: Octets, offset: nat): Octets { if offset > |data| then [] else data[offset..] }

  lemma SplitStep(tag: Octet, data: Octets, offset: nat, size: nat, encrypt: bool)
    requires offset < |data| && size == if MAX_PAYLOAD < |data| - offset then MAX_PAYLOAD else |data| - offset
    ensures Split(tag, Tail(data, offset), encrypt)
         == [Make(tag, data[offset..offset + size], encrypt)] + Split(tag, Tail(data, offset + MAX_PAYLOAD), encrypt)
  {
    var rest := data[offset..];
    assert rest[..size] == data[offset..offset + size];
    assert rest[size..] == Tail(data, offset + MAX_PAYLOAD);
  }

  lemma CeilStep(n: nat)
    requires n > 0
    ensures n > MAX_PAYLOAD ==>
              (n + MAX_PAYLOAD - 1) / MAX_PAYLOAD == 1 + (n - MAX_PAYLOAD + MAX_PAYLOAD - 1) / MAX_PAYLOAD
    ensures n <= MAX_PAYLOAD ==> (n + MAX_PAYLOAD - 1) / MAX_PAYLOAD == 1
  {
  }

  lemma PaddedSize(data: Octets)
    ensures |Padded(data)| == |data| / 16 * 16 + 16
  {
    hide Padded;
    PaddingRoundTrip(data);
    NextMultiple(|data|, |Padded(data)|);
  }

  lemma NextMultiple(n: nat, m: nat)
    requires m % 16 == 0 && n < m <= n + 16
    ensures m == n / 16 * 16 + 16
  {
  }

  /** The size on the wire. The 10 octets taken off for tag, length and MAC do not cover a length field of three octets
      nor the padding, so a segment can be longer than the 1020 octets meant as its limit: exactly above 1007 octets of
      plaintext when encrypted and above 1008 in clear, and then 1036 or up to 1022. */
  lemma SegmentSize(p: Suite, keys: Keys, ch: Channel, s: Sending)
    requires |s.plain| <= MAX_PAYLOAD
    ensures Send(p, keys, ch, s).result.Ok?
    ensures |Send(p, keys, ch, s).result.value| <= MAX_SEGMENT_SIZE
            <==> |s.plain| <= if s.Encrypted? then 1007 else 1008
    ensures |Send(p, keys, ch, s).result.value| <= if s.Encrypted? then 1036 else 1022
  {
    hide Padded, Payload;
    PaddedSize(s.plain);
    var payload := Payload(p, keys, ch.block, s);
    LengthSize(|payload| + MAC_LENGTH);
  }
}
