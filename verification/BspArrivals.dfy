/** What a BSP receiver delivers from a line on which anything may arrive, in any order (GSMA SGP.22, section 2.6.4):
    the start of what was sent, and nothing else, unless CMAC has failed in a way that can be pointed at. */
module BspArrivals {
  import opened BspPrimitives
  import opened BspChannel
  import opened BspRuns

  // ----- the sender's run

  predicate InLimits(list: seq<Sending>) { forall s | s in list :: |s.plain| <= MAX_PAYLOAD }

  /** The sender's state after k segments. */
  function StateAfter(p: Suite, keys: Keys, ch: Channel, list: seq<Sending>, k: nat): Channel
    requires k <= |list|
  {
    SendAll(p, keys, ch, list[..k]).after
  }

  /** What the sender computes a MAC over, in a state. */
  function SentInput(p: Suite, keys: Keys, ch: Channel, s: Sending): Octets
    requires |s.plain| <= MAX_PAYLOAD
  {
    PaddingRoundTrip(s.plain);
    MacInput(ch.chain, s.tag, Payload(p, keys, ch.block, s))
  }

  /** All that it computes a MAC over in the run. */
  function Inputs(p: Suite, keys: Keys, ch: Channel, list: seq<Sending>): (r: seq<Octets>)
    requires InLimits(list)
    ensures |r| == |list|
  {
    seq(|list|, i requires 0 <= i < |list| => SentInput(p, keys, StateAfter(p, keys, ch, list, i), list[i]))
  }

  lemma {:induction false} SendAllSnoc(p: Suite, keys: Keys, ch: Channel, list: seq<Sending>, s: Sending)
    requires InLimits(list) && |s.plain| <= MAX_PAYLOAD
    ensures SendAll(p, keys, ch, list).result.Ok?
    ensures SendAll(p, keys, ch, list + [s]).after == Send(p, keys, SendAll(p, keys, ch, list).after, s).after
    decreases |list|
  {
    if list == [] {
      assert [] + [s] == [s] && [s][1..] == [];
    } else {
      assert list[0] in list;
      assert (list + [s])[1..] == list[1..] + [s];
      SendAllSnoc(p, keys, Send(p, keys, ch, list[0]).after, list[1..], s);
      SendAllOk(p, keys, Send(p, keys, ch, list[0]).after, list[1..] + [s]);
    }
  }

  lemma {:induction false} SendAllOk(p: Suite, keys: Keys, ch: Channel, list: seq<Sending>)
    requires InLimits(list)
    ensures SendAll(p, keys, ch, list).result.Ok?
    decreases |list|
  {
    if list != [] {
      assert list[0] in list;
      SendAllOk(p, keys, Send(p, keys, ch, list[0]).after, list[1..]);
    }
  }

  lemma NextState(p: Suite, keys: Keys, ch: Channel, list: seq<Sending>, k: nat)
    requires InLimits(list) && k < |list|
    ensures StateAfter(p, keys, ch, list, k + 1) == Send(p, keys, StateAfter(p, keys, ch, list, k), list[k]).after
    ensures StateAfter(p, keys, ch, list, k + 1).chain == p.cmac(keys.mac, Inputs(p, keys, ch, list)[k])
  {
    assert list[..k + 1] == list[..k] + [list[k]];
    SendAllSnoc(p, keys, ch, list[..k], list[k]);
    hide SendAll, MacInput, Payload;
    PaddingRoundTrip(list[k].plain);
  }

  // ----- how CMAC can fail

  /** A segment is accepted whose MAC is over something that the sender never computed a MAC over. */
  predicate Forged(p: Suite, keys: Keys, ch: Channel, used: seq<Octets>, line: seq<Arrival>)
    decreases |line|
  {
    line != []
    && (ForgedOne(p, keys, ch, used, line[0].segment)
        || Forged(p, keys, Open(p, keys, ch, line[0].segment, line[0].decrypt).after, used, line[1..]))
  }

  predicate ForgedOne(p: Suite, keys: Keys, ch: Channel, used: seq<Octets>, segment: Octets) {
    Accepts(p, keys, ch, segment)
    && MacInput(ch.chain, Parsed(segment).value.tag, Parsed(segment).value.payload) !in used
  }

  /** Two different inputs of the sender have the same full MAC, or one has the initial chaining value as its MAC. */
  predicate Collided(p: Suite, keys: Keys, ch: Channel, used: seq<Octets>) {
    || (exists x, y | x in used && y in used :: x != y && p.cmac(keys.mac, x) == p.cmac(keys.mac, y))
    || (exists x | x in used :: p.cmac(keys.mac, x) == ch.chain)
  }

  /** Short of such a collision, the chain never takes a value twice. */
  lemma {:induction false} ChainsDiffer(p: Suite, keys: Keys, ch: Channel, list: seq<Sending>, i: nat, j: nat)
    requires InLimits(list) && i < j <= |list| && !Collided(p, keys, ch, Inputs(p, keys, ch, list))
    ensures StateAfter(p, keys, ch, list, i).chain != StateAfter(p, keys, ch, list, j).chain
    decreases i
  {
    hide Inputs, StateAfter, Payload;
    var used := Inputs(p, keys, ch, list);
    NextState(p, keys, ch, list, j - 1);
    assert used[j - 1] in used;
    if i == 0 {
      StartState(p, keys, ch, list);
    } else {
      NextState(p, keys, ch, list, i - 1);
      assert used[i - 1] in used;
      ChainsDiffer(p, keys, ch, list, i - 1, j - 1);
      InputHasChain(p, keys, ch, list, i - 1);
      InputHasChain(p, keys, ch, list, j - 1);
    }
  }

  lemma StartState(p: Suite, keys: Keys, ch: Channel, list: seq<Sending>)
    ensures StateAfter(p, keys, ch, list, 0) == ch
  {
    assert list[..0] == [];
  }

  /** The input starts with the chain, and determines tag and payload. */
  lemma InputHasChain(p: Suite, keys: Keys, ch: Channel, list: seq<Sending>, k: nat)
    requires InLimits(list) && k < |list|
    ensures
      var x := Inputs(p, keys, ch, list)[k];
      |x| >= 16 && x[..16] == StateAfter(p, keys, ch, list, k).chain
  {
    hide StateAfter, Payload;
    PaddingRoundTrip(list[k].plain);
    MacInputStart(StateAfter(p, keys, ch, list, k).chain, list[k].tag,
                  Payload(p, keys, StateAfter(p, keys, ch, list, k).block, list[k]));
  }

  lemma MacInputStart(chain: Block, tag: Octet, payload: Octets)
    requires |payload| + MAC_LENGTH < 0x1_0000
    ensures |MacInput(chain, tag, payload)| >= 16 && MacInput(chain, tag, payload)[..16] == chain
  {
    hide EncodeLength;
    LengthSize(|payload| + MAC_LENGTH);
  }

  // ----- what the receiver makes of the line

  /** What it returns without an error, in order. */
  function Opened(p: Suite, keys: Keys, ch: Channel, line: seq<Arrival>): seq<Octets>
    decreases |line|
  {
    if line == [] then []
    else
      var o := Open(p, keys, ch, line[0].segment, line[0].decrypt);
      (if o.result.Ok? then [o.result.value] else []) + Opened(p, keys, o.after, line[1..])
  }

  function Plains(list: seq<Sending>): (r: seq<Octets>)
    ensures |r| == |list|
  {
    seq(|list|, i requires 0 <= i < |list| => list[i].plain)
  }

  /** Both ends go by the tag in whether a segment is encrypted. */
  predicate ByTag(kind: Octet -> bool, list: seq<Sending>, line: seq<Arrival>) {
    && (forall s | s in list :: s.Encrypted? == kind(s.tag))
    && (forall a | a in line :: a.segment != [] ==> a.decrypt == kind(a.segment[0]))
  }

  /** An accepted segment that is not forged is the next one of the run. */
  lemma AcceptedIsNext(p: Suite, keys: Keys, ch: Channel, list: seq<Sending>, k: nat, segment: Octets)
    requires InLimits(list) && k <= |list| && !Collided(p, keys, ch, Inputs(p, keys, ch, list))
    requires Accepts(p, keys, StateAfter(p, keys, ch, list, k), segment)
    requires !ForgedOne(p, keys, StateAfter(p, keys, ch, list, k), Inputs(p, keys, ch, list), segment)
    ensures k < |list|
    ensures
      var f := Parsed(segment).value;
      f.tag == list[k].tag && f.payload == Payload(p, keys, StateAfter(p, keys, ch, list, k).block, list[k])
  {
    hide StateAfter, Payload, Parsed, MacInput;
    var st, f, used := StateAfter(p, keys, ch, list, k), Parsed(segment).value, Inputs(p, keys, ch, list);
    var x := MacInput(st.chain, f.tag, f.payload);
    var j :| 0 <= j < |used| && used[j] == x;
    MacInputStart(st.chain, f.tag, f.payload);
    InputHasChain(p, keys, ch, list, j);
    if j < k {
      ChainsDiffer(p, keys, ch, list, j, k);
    } else if k < j {
      ChainsDiffer(p, keys, ch, list, k, j);
    }
    assert j == k;
    PaddingRoundTrip(list[k].plain);
    MacInputInjective(st.chain, f.tag, f.payload, st.chain, list[k].tag, Payload(p, keys, st.block, list[k]));
  }

  /** And it is opened as such. */
  lemma NextIsOpened(p: Suite, keys: Keys, ch: Channel, s: Sending, segment: Octets)
    requires Lawful(p) && |s.plain| <= MAX_PAYLOAD && Accepts(p, keys, ch, segment)
    requires Parsed(segment).value.tag == s.tag && Parsed(segment).value.payload == Payload(p, keys, ch.block, s)
    ensures Open(p, keys, ch, segment, s.Encrypted?) == Outcome(Send(p, keys, ch, s).after, Ok(s.plain))
  {
    hide Payload, Parsed, Plain, FullMac;
    PaddingRoundTrip(s.plain);
    PayloadRoundTrip(p, keys, ch.block, s);
  }

  /** From the state after k segments: the plaintexts that come out are those of the next segments, in order and
      without a gap, and the receiver is in the sender's state after them. */
  lemma {:induction false} DeliveredFrom(p: Suite, keys: Keys, ch: Channel, list: seq<Sending>, k: nat,
                                         line: seq<Arrival>, kind: Octet -> bool)
    returns (n: nat)
    requires Lawful(p) && InLimits(list) && k <= |list| && ByTag(kind, list, line)
    requires !Collided(p, keys, ch, Inputs(p, keys, ch, list))
    requires !Forged(p, keys, StateAfter(p, keys, ch, list, k), Inputs(p, keys, ch, list), line)
    ensures k <= n <= |list|
    ensures Receive(p, keys, StateAfter(p, keys, ch, list, k), line).after == StateAfter(p, keys, ch, list, n)
    ensures Opened(p, keys, StateAfter(p, keys, ch, list, k), line) == Plains(list[k..n])
    decreases |line|
  {
    hide StateAfter, Inputs, Payload, Open, Accepts, ForgedOne, Collided, Parsed;
    var st := StateAfter(p, keys, ch, list, k);
    if line == [] {
      n := k;
    } else {
      var segment, decrypt := line[0].segment, line[0].decrypt;
      assert line[0] in line;
      if Accepts(p, keys, st, segment) {
        AcceptedIsNext(p, keys, ch, list, k, segment);
        AcceptedParses(p, keys, st, segment);
        TagIsFirst(segment);
        assert list[k] in list && decrypt == list[k].Encrypted?;
        NextIsOpened(p, keys, st, list[k], segment);
        NextState(p, keys, ch, list, k);
        n := DeliveredFrom(p, keys, ch, list, k + 1, line[1..], kind);
        assert Plains(list[k..n]) == [list[k].plain] + Plains(list[k + 1..n]);
      } else {
        RefusedLeavesState(p, keys, st, segment, decrypt);
        n := DeliveredFrom(p, keys, ch, list, k, line[1..], kind);
        assert [] + Plains(list[k..n]) == Plains(list[k..n]);
      }
    }
  }

  lemma AcceptedParses(p: Suite, keys: Keys, ch: Channel, segment: Octets)
    requires Accepts(p, keys, ch, segment)
    ensures Parsed(segment).Ok?
  {
  }

  /** Whatever arrives, what is delivered is the start of what was sent, and the receiver is where the sender was then;
      or else some accepted segment carries a MAC over something the sender never authenticated, or CMAC has collided
      on what the sender did. */
  lemma OnlyTheSentIsDelivered(p: Suite, keys: Keys, ch: Channel, list: seq<Sending>, line: seq<Arrival>,
                               kind: Octet -> bool)
    requires Lawful(p) && InLimits(list) && ByTag(kind, list, line)
    ensures
      || Forged(p, keys, ch, Inputs(p, keys, ch, list), line)
      || Collided(p, keys, ch, Inputs(p, keys, ch, list))
      || (exists n | 0 <= n <= |list| ::
            Opened(p, keys, ch, line) == Plains(list[..n])
            && Receive(p, keys, ch, line).after == StateAfter(p, keys, ch, list, n))
  {
    hide Forged, Collided, Inputs, StateAfter, Opened, Receive;
    StartState(p, keys, ch, list);
    if !Forged(p, keys, ch, Inputs(p, keys, ch, list), line) && !Collided(p, keys, ch, Inputs(p, keys, ch, list)) {
      var n := DeliveredFrom(p, keys, ch, list, 0, line, kind);
      assert list[0..n] == list[..n];
    }
  }
}
