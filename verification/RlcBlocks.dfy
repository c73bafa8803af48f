/** Uplink RLC data blocks, encoded and decoded (3GPP TS 44.060, sections 10.2.2, 10.3a.2 and 10.3a.4). */
module RlcBlocks {
  import opened Options
  import opened RlcBits
  import opened RlcUplink

  datatype LlcBlock = LlcBlock(hdr: Option<Li>, payload: Octets)

  type Tlli = s: Octets | |s| == 4 witness [0, 0, 0, 0]

  datatype CodingScheme =
    | CS_1 | CS_2 | CS_3 | CS_4
    | MCS_0 | MCS_1 | MCS_2 | MCS_3 | MCS_4 | MCS_5 | MCS_6 | MCS_7 | MCS_8 | MCS_9

  /** Incomplete for the generated decoder's error, OverRead for octets copied from beyond the end of the input. */
  datatype Decoded<+T> = Decoded(value: T) | Incomplete | OverRead

  // ----- what follows the headers: length indicators, TLLI, PFI, payloads

  datatype Content = Content(tlli: Option<Tlli>, pfi: Option<bv8>, blocks: seq<LlcBlock>)

  function LiOctets(egprs: bool, blocks: seq<LlcBlock>): Octets {
    if blocks == [] then []
    else (if blocks[0].hdr.Some? then [LiOctet(egprs, blocks[0].hdr.value)] else []) + LiOctets(egprs, blocks[1..])
  }

  function Payloads(blocks: seq<LlcBlock>): Octets {
    if blocks == [] then [] else blocks[0].payload + Payloads(blocks[1..])
  }

  function Optional(o: Option<bv8>): Octets { if o.Some? then [o.value] else [] }

  function OptionalTlli(o: Option<Tlli>): Octets { if o.Some? then o.value else [] }

  /** The E bit that the encoder sets: there are no length indicators only for a single block without a header. */
  predicate Unmarked(blocks: Option<seq<LlcBlock>>) {
    blocks.Some? && |blocks.value| == 1 && blocks.value[0].hdr.None?
  }

  function Marks(egprs: bool, blocks: Option<seq<LlcBlock>>): Octets {
    if Unmarked(blocks) then [] else if blocks.None? then [0x01] else LiOctets(egprs, blocks.value)
  }

  function Body(egprs: bool, tlli: Octets, pfi: Option<bv8>, blocks: Option<seq<LlcBlock>>): Octets {
    Marks(egprs, blocks) + tlli + Optional(pfi) + if blocks.Some? then Payloads(blocks.value) else []
  }

  datatype Lis = Lis(list: seq<Li>, rest: Octets) | Short

  function ReadLis(egprs: bool, data: Octets): Lis
    decreases |data|
  {
    if data == [] then Short
    else
      var li := LiOf(egprs, data[0]);
      if li.e then Lis([li], data[1..]) else LisBefore([li], ReadLis(egprs, data[1..]))
  }

  function LisBefore(first: seq<Li>, l: Lis): Lis { if l.Short? then Short else Lis(first + l.list, l.rest) }

  function Least(a: nat, b: nat): nat { if a > b then b else a }

  /** To each length indicator its payload, as far as there is any left. */
  function Cut(lis: seq<Li>, data: Octets): seq<LlcBlock> {
    if lis == [] then []
    else
      var n := Least(lis[0].length, |data|);
      [LlcBlock(Some(lis[0]), data[..n])] + Cut(lis[1..], data[n..])
  }

  /** TLLI, PFI and payloads, behind the length indicators. */
  function ReadRest(list: seq<Li>, e: bool, ti: bool, pi: bool, rest: Octets): Decoded<Content> {
    if ti && |rest| < 4 then OverRead
    else
      var tlli: Option<Tlli> := if ti then Some(rest[..4]) else None;
      var after := if ti then rest[4..] else rest;
      if pi && after == [] then Incomplete
      else
        var pfi := if pi then Some(after[0]) else None;
        var left := if pi then after[1..] else after;
        Decoded(Content(tlli, pfi, if e then [LlcBlock(None, left)] else Cut(list, left)))
  }

  function ReadBody(egprs: bool, e: bool, ti: bool, pi: bool, data: Octets): Decoded<Content> {
    var lis := if e then Lis([], data) else ReadLis(egprs, data);
    if lis.Short? then Incomplete else ReadRest(lis.list, e, ti, pi, lis.rest)
  }

  // ----- the body is read back

  /** Every block with a length indicator, and E in the last one only. */
  predicate Linked(egprs: bool, blocks: seq<LlcBlock>) {
    && blocks != []
    && forall i | 0 <= i < |blocks| ::
         && blocks[i].hdr.Some? && LiFits(egprs, blocks[i].hdr.value)
         && (blocks[i].hdr.value.e <==> i == |blocks| - 1)
  }

  /** And every length indicator gives the length of its payload. */
  predicate Chain(egprs: bool, blocks: seq<LlcBlock>) {
    && Linked(egprs, blocks)
    && forall b | b in blocks :: b.hdr.value.length == |b.payload|
  }

  function Headers(blocks: seq<LlcBlock>): (r: seq<Li>)
    requires forall b | b in blocks :: b.hdr.Some?
    ensures |r| == |blocks|
  {
    if blocks == [] then [] else [blocks[0].hdr.value] + Headers(blocks[1..])
  }

  lemma LinkedTail(egprs: bool, blocks: seq<LlcBlock>)
    requires Linked(egprs, blocks)
    ensures forall b | b in blocks :: b.hdr.Some?
    ensures blocks[0].hdr.value.e <==> |blocks| == 1
    ensures |blocks| > 1 ==> Linked(egprs, blocks[1..])
  {
    hide LiFits;
    if |blocks| > 1 {
      forall i | 0 <= i < |blocks| - 1
        ensures blocks[1..][i] == blocks[i + 1]
      {
      }
    }
  }

  lemma {:induction false} LisRoundTrip(egprs: bool, blocks: seq<LlcBlock>, rest: Octets)
    requires Linked(egprs, blocks)
    ensures forall b | b in blocks :: b.hdr.Some?
    ensures ReadLis(egprs, LiOctets(egprs, blocks) + rest) == Lis(Headers(blocks), rest)
    decreases |blocks|
  {
    hide LiOf, LiOctet;
    LinkedTail(egprs, blocks);
    var li := blocks[0].hdr.value;
    LiRoundTrip(egprs, li);
    var tail := LiOctets(egprs, blocks[1..]);
    assert LiOctets(egprs, blocks) + rest == [LiOctet(egprs, li)] + (tail + rest);
    assert ([LiOctet(egprs, li)] + (tail + rest))[1..] == tail + rest;
    if |blocks| == 1 {
      assert tail + rest == rest;
      assert Headers(blocks) == [li];
    } else {
      hide Linked;
      LisRoundTrip(egprs, blocks[1..], rest);
    }
  }

  lemma {:induction false} CutRoundTrip(egprs: bool, blocks: seq<LlcBlock>, rest: Octets)
    requires forall b | b in blocks :: b.hdr.Some? && b.hdr.value.length == |b.payload|
    ensures Cut(Headers(blocks), Payloads(blocks) + rest) == blocks
    decreases |blocks|
  {
    if blocks != [] {
      CutRoundTrip(egprs, blocks[1..], rest);
      var p := blocks[0].payload;
      var tail := Payloads(blocks[1..]);
      assert blocks[0] in blocks;
      assert Payloads(blocks) + rest == p + (tail + rest);
      assert (p + (tail + rest))[..|p|] == p && (p + (tail + rest))[|p|..] == tail + rest;
      assert Headers(blocks)[1..] == Headers(blocks[1..]);
    }
  }

  /** The part behind the length indicators. */
  function Rest(tlli: Option<Tlli>, pfi: Option<bv8>, left: Octets): Octets {
    OptionalTlli(tlli) + Optional(pfi) + left
  }

  lemma RestRoundTrip(list: seq<Li>, e: bool, tlli: Option<Tlli>, pfi: Option<bv8>, left: Octets)
    ensures ReadRest(list, e, tlli.Some?, pfi.Some?, Rest(tlli, pfi, left))
         == Decoded(Content(tlli, pfi, if e then [LlcBlock(None, left)] else Cut(list, left)))
  {
    hide Cut;
    var all := Rest(tlli, pfi, left);
    var n := if tlli.Some? then 4 else 0;
    var after := Optional(pfi) + left;
    assert all[n..] == after && all[..n] == OptionalTlli(tlli);
    if pfi.Some? {
      assert after[0] == pfi.value && after[1..] == left;
    } else {
      assert after == left;
    }
  }

  lemma BodyRest(egprs: bool, tlli: Option<Tlli>, pfi: Option<bv8>, blocks: Option<seq<LlcBlock>>, rest: Octets)
    ensures Body(egprs, OptionalTlli(tlli), pfi, blocks) + rest
         == Marks(egprs, blocks) + Rest(tlli, pfi, (if blocks.Some? then Payloads(blocks.value) else []) + rest)
  {
    hide Marks, Payloads, OptionalTlli, Optional;
    var p := if blocks.Some? then Payloads(blocks.value) else [];
    var m, t, o := Marks(egprs, blocks), OptionalTlli(tlli), Optional(pfi);
    assert m + t + o + p + rest == m + (t + o + (p + rest));
  }

  /** With a header on every block, TLLI and PFI come back, and so do the headers, each with the payload that its
      length indicator cuts out of what follows. */
  lemma LinkedRoundTrip(egprs: bool, tlli: Option<Tlli>, pfi: Option<bv8>, blocks: seq<LlcBlock>, rest: Octets)
    requires Linked(egprs, blocks)
    ensures forall b | b in blocks :: b.hdr.Some?
    ensures ReadBody(egprs, false, tlli.Some?, pfi.Some?, Body(egprs, OptionalTlli(tlli), pfi, Some(blocks)) + rest)
         == Decoded(Content(tlli, pfi, Cut(Headers(blocks), Payloads(blocks) + rest)))
  {
    hide LiOctets, ReadLis, ReadRest, Rest, Body, Cut, Payloads, Headers, LiFits, OptionalTlli, Optional;
    var left := Payloads(blocks) + rest;
    BodyRest(egprs, tlli, pfi, Some(blocks), rest);
    LisRoundTrip(egprs, blocks, Rest(tlli, pfi, left));
    RestRoundTrip(Headers(blocks), false, tlli, pfi, left);
  }

  /** Blocks with headers, TLLI and PFI all come back, whatever padding follows. */
  lemma BodyRoundTrip(egprs: bool, tlli: Option<Tlli>, pfi: Option<bv8>, blocks: seq<LlcBlock>, rest: Octets)
    requires Chain(egprs, blocks)
    ensures ReadBody(egprs, false, tlli.Some?, pfi.Some?, Body(egprs, OptionalTlli(tlli), pfi, Some(blocks)) + rest)
         == Decoded(Content(tlli, pfi, blocks))
  {
    hide ReadBody, Body, Cut, Payloads, Headers, Linked;
    LinkedRoundTrip(egprs, tlli, pfi, blocks, rest);
    CutRoundTrip(egprs, blocks, rest);
  }

  /** A single block without a header comes back with everything that follows it. */
  lemma WholeRoundTrip(egprs: bool, tlli: Option<Tlli>, pfi: Option<bv8>, payload: Octets, rest: Octets)
    ensures
      var blocks := Some([LlcBlock(None, payload)]);
      ReadBody(egprs, true, tlli.Some?, pfi.Some?, Body(egprs, OptionalTlli(tlli), pfi, blocks) + rest)
      == Decoded(Content(tlli, pfi, [LlcBlock(None, payload + rest)]))
  {
    hide LiOctets, ReadLis, ReadRest, Rest, Body, Cut, Payloads, OptionalTlli, Optional;
    SinglePayload(LlcBlock(None, payload));
    BodyRest(egprs, tlli, pfi, Some([LlcBlock(None, payload)]), rest);
    var all := Rest(tlli, pfi, payload + rest);
    assert [] + all == all;
    RestRoundTrip([], true, tlli, pfi, payload + rest);
  }

  /** No blocks at all come back as one empty block. */
  lemma NoneRoundTrip(egprs: bool, tlli: Option<Tlli>, pfi: Option<bv8>, rest: Octets)
    ensures ReadBody(egprs, false, tlli.Some?, pfi.Some?, Body(egprs, OptionalTlli(tlli), pfi, None) + rest)
         == Decoded(Content(tlli, pfi, [LlcBlock(Some(Li(0, false, true)), [])]))
  {
    hide LiOf, ReadLis, ReadRest, Rest, Body, Cut, OptionalTlli, Optional;
    EmptyLi(egprs);
    BodyRest(egprs, tlli, pfi, None, rest);
    assert [] + rest == rest;
    var all := Rest(tlli, pfi, rest);
    OneLi(egprs, 0x01, all);
    RestRoundTrip([Li(0, false, true)], false, tlli, pfi, rest);
    EmptyCut(rest);
  }

  lemma OneLi(egprs: bool, o: bv8, rest: Octets)
    requires LiOf(egprs, o).e
    ensures ReadLis(egprs, [o] + rest) == Lis([LiOf(egprs, o)], rest)
  {
    hide LiOf;
    assert ([o] + rest)[1..] == rest;
  }

  lemma EmptyCut(data: Octets)
    ensures Cut([Li(0, false, true)], data) == [LlcBlock(Some(Li(0, false, true)), [])]
  {
    assert Cut([Li(0, false, true)][1..], data) == [];
  }

  // ----- any input

  lemma {:induction false} CutIsPrefix(lis: seq<Li>, data: Octets)
    ensures |Cut(lis, data)| == |lis| && Payloads(Cut(lis, data)) <= data
    ensures forall b | b in Cut(lis, data) :: b.hdr.Some? && |b.payload| <= b.hdr.value.length
    decreases |lis|
  {
    if lis != [] {
      var n := Least(lis[0].length, |data|);
      CutIsPrefix(lis[1..], data[n..]);
      var c, t := Cut(lis, data), Cut(lis[1..], data[n..]);
      assert c == [LlcBlock(Some(lis[0]), data[..n])] + t;
      assert c[1..] == t;
      assert data == data[..n] + data[n..];
    }
  }

  lemma {:induction false} LisAreOctets(egprs: bool, data: Octets)
    requires ReadLis(egprs, data).Lis?
    ensures
      var l := ReadLis(egprs, data);
      |l.list| <= |data| && l.rest == data[|l.list|..]
      && forall i | 0 <= i < |l.list| :: l.list[i] == LiOf(egprs, data[i]) && (l.list[i].e <==> i == |l.list| - 1)
    decreases |data|
  {
    hide LiOf;
    if !LiOf(egprs, data[0]).e {
      LisAreOctets(egprs, data[1..]);
      var t := ReadLis(egprs, data[1..]);
      assert data[1..][|t.list|..] == data[|t.list| + 1..];
    }
  }

  /** Where the payloads start. */
  function HeadersEnd(e: bool, ti: bool, pi: bool, blocks: nat): nat {
    (if e then 0 else blocks) + (if ti then 4 else 0) + if pi then 1 else 0
  }

  /** On any input that is decoded at all, the payloads strung together are the start of what follows the headers, and
      all of it when there are no length indicators; no payload is longer than its indicator says. */
  lemma PayloadsArePrefix(egprs: bool, e: bool, ti: bool, pi: bool, data: Octets)
    requires ReadBody(egprs, e, ti, pi, data).Decoded?
    ensures
      var blocks := ReadBody(egprs, e, ti, pi, data).value.blocks;
      var start := HeadersEnd(e, ti, pi, |blocks|);
      && blocks != [] && start <= |data| && Payloads(blocks) <= data[start..]
      && (e ==> Payloads(blocks) == data[start..])
      && (!e ==> forall b | b in blocks :: b.hdr.Some? && |b.payload| <= b.hdr.value.length)
  {
    hide LiOf, ReadLis, Cut, Payloads;
    if e {
      var left := ReadBody(egprs, e, ti, pi, data).value.blocks[0].payload;
      SinglePayload(LlcBlock(None, left));
    } else {
      var lis := ReadLis(egprs, data);
      LisAreOctets(egprs, data);
      LisNotEmpty(egprs, data);
      var n := (if ti then 4 else 0) + if pi then 1 else 0;
      var left := lis.rest[n..];
      CutIsPrefix(lis.list, left);
      assert left == data[|lis.list| + n..];
    }
  }

  lemma SinglePayload(b: LlcBlock)
    ensures Payloads([b]) == b.payload
  {
    assert Payloads([b][1..]) == [];
  }

  lemma LisNotEmpty(egprs: bool, data: Octets)
    requires ReadLis(egprs, data).Lis?
    ensures ReadLis(egprs, data).list != []
  {
    hide LiOf;
  }

  // ----- which block lists survive

  /** Every length indicator gives the length of its payload, or more when nothing at all comes behind it. */
  predicate Delimited(blocks: seq<LlcBlock>, spare: nat)
    requires forall b | b in blocks :: b.hdr.Some?
  {
    blocks == [] || (Exact(blocks[0], |Payloads(blocks[1..])| + spare) && Delimited(blocks[1..], spare))
  }

  predicate Exact(b: LlcBlock, behind: nat)
    requires b.hdr.Some?
  {
    b.hdr.value.length == |b.payload| || (b.hdr.value.length > |b.payload| && behind == 0)
  }

  /** The condition for a list with so many octets of padding behind it. */
  predicate Survives(egprs: bool, blocks: seq<LlcBlock>, spare: nat) {
    if Unmarked(Some(blocks)) then spare == 0
    else Linked(egprs, blocks) && AllMarked(blocks) && Delimited(blocks, spare)
  }

  predicate AllMarked(blocks: seq<LlcBlock>) { forall b | b in blocks :: b.hdr.Some? }

  lemma {:induction false} CutExactly(blocks: seq<LlcBlock>, rest: Octets)
    requires AllMarked(blocks)
    ensures Cut(Headers(blocks), Payloads(blocks) + rest) == blocks <==> Delimited(blocks, |rest|)
    decreases |blocks|
  {
    if blocks != [] {
      var p, tail := blocks[0].payload, Payloads(blocks[1..]) + rest;
      assert blocks[0] in blocks && AllMarked(blocks[1..]);
      assert Payloads(blocks) + rest == p + tail;
      assert Headers(blocks)[1..] == Headers(blocks[1..]);
      var data, n := p + tail, Least(blocks[0].hdr.value.length, |p + tail|);
      var cut := Cut(Headers(blocks), data);
      assert cut == [LlcBlock(blocks[0].hdr, data[..n])] + Cut(Headers(blocks[1..]), data[n..]);
      assert n == |p| <==> Exact(blocks[0], |tail|);
      if n == |p| {
        assert data[..n] == p && data[n..] == tail;
        CutExactly(blocks[1..], rest);
        SameTail(cut, blocks);
      } else {
        assert |cut[0].payload| == n;
      }
    }
  }

  lemma SameTail(a: seq<LlcBlock>, b: seq<LlcBlock>)
    requires a != [] && b != [] && a[0] == b[0]
    ensures a == b <==> a[1..] == b[1..]
  {
    if a[1..] == b[1..] {
      assert a == [a[0]] + a[1..] && b == [b[0]] + b[1..];
    }
  }

  lemma {:induction false} CutHeaders(lis: seq<Li>, data: Octets)
    ensures |Cut(lis, data)| == |lis|
    ensures forall i | 0 <= i < |lis| :: Cut(lis, data)[i].hdr == Some(lis[i])
    decreases |lis|
  {
    if lis != [] {
      CutHeaders(lis[1..], data[Least(lis[0].length, |data|)..]);
    }
  }

  /** Whatever is decoded behind a clear E bit is a linked list. */
  lemma DecodedIsLinked(egprs: bool, ti: bool, pi: bool, data: Octets)
    requires ReadBody(egprs, false, ti, pi, data).Decoded?
    ensures
      var blocks := ReadBody(egprs, false, ti, pi, data).value.blocks;
      blocks != [] && forall i | 0 <= i < |blocks| ::
                        blocks[i].hdr.Some? && (blocks[i].hdr.value.e <==> i == |blocks| - 1)
  {
    hide LiOf, ReadLis, Cut;
    var lis := ReadLis(egprs, data);
    LisAreOctets(egprs, data);
    LisNotEmpty(egprs, data);
    var n := (if ti then 4 else 0) + if pi then 1 else 0;
    CutHeaders(lis.list, lis.rest[n..]);
    BlocksOfRest(lis.list, ti, pi, lis.rest);
  }

  lemma BlocksOfRest(list: seq<Li>, ti: bool, pi: bool, rest: Octets)
    requires ReadRest(list, false, ti, pi, rest).Decoded?
    ensures
      var n := (if ti then 4 else 0) + if pi then 1 else 0;
      n <= |rest| && ReadRest(list, false, ti, pi, rest).value.blocks == Cut(list, rest[n..])
  {
    hide Cut;
    if ti && pi {
      assert rest[4..][1..] == rest[5..];
    } else if !ti && !pi {
      assert rest[0..] == rest;
    }
  }

  /** A list of LLC blocks, with TLLI and PFI, comes back from what is written for it exactly if it is a single block
      without a header and nothing follows, or if all blocks have headers, E is set in the last one only, and every
      length indicator gives its payload's length, or more where nothing follows. */
  lemma SurvivesExactly(egprs: bool, tlli: Option<Tlli>, pfi: Option<bv8>, blocks: seq<LlcBlock>, rest: Octets,
                        wanted: Option<Tlli>)
    requires forall b | b in blocks :: b.hdr.Some? ==> LiFits(egprs, b.hdr.value)
    ensures
      var data := Body(egprs, OptionalTlli(tlli), pfi, Some(blocks)) + rest;
      ReadBody(egprs, Unmarked(Some(blocks)), tlli.Some?, pfi.Some?, data) == Decoded(Content(wanted, pfi, blocks))
      <==> tlli == wanted && Survives(egprs, blocks, |rest|)
  {
    hide Body, ReadBody, Delimited, Cut, Payloads, Headers, LiFits, Linked;
    var data := Body(egprs, OptionalTlli(tlli), pfi, Some(blocks)) + rest;
    if Unmarked(Some(blocks)) {
      var p := blocks[0].payload;
      assert blocks == [LlcBlock(None, p)];
      WholeRoundTrip(egprs, tlli, pfi, p, rest);
      assert |p + rest| == |p| <==> |rest| == 0;
      assert |rest| == 0 ==> p + rest == p;
    } else if Linked(egprs, blocks) {
      LinkedRoundTrip(egprs, tlli, pfi, blocks, rest);
      CutExactly(blocks, rest);
    } else if ReadBody(egprs, false, tlli.Some?, pfi.Some?, data) == Decoded(Content(wanted, pfi, blocks)) {
      DecodedIsLinked(egprs, tlli.Some?, pfi.Some?, data);
      LinkedByParts(egprs, blocks);
      assert false;
    }
  }

  lemma LinkedByParts(egprs: bool, blocks: seq<LlcBlock>)
    requires forall b | b in blocks :: b.hdr.Some? ==> LiFits(egprs, b.hdr.value)
    requires blocks != [] && forall i | 0 <= i < |blocks| ::
               blocks[i].hdr.Some? && (blocks[i].hdr.value.e <==> i == |blocks| - 1)
    ensures Linked(egprs, blocks)
  {
    hide LiFits;
  }

  lemma {:induction false} OctetsOfMore(egprs: bool, blocks: seq<LlcBlock>, payload: Octets)
    ensures LiOctets(egprs, blocks + [LlcBlock(None, payload)]) == LiOctets(egprs, blocks)
    ensures Payloads(blocks + [LlcBlock(None, payload)]) == Payloads(blocks) + payload
    decreases |blocks|
  {
    hide LiOctet;
    var more := blocks + [LlcBlock(None, payload)];
    assert more[0] == if blocks == [] then LlcBlock(None, payload) else blocks[0];
    if blocks == [] {
      assert more[1..] == [];
    } else {
      assert more[1..] == blocks[1..] + [LlcBlock(None, payload)];
      OctetsOfMore(egprs, blocks[1..], payload);
    }
  }

  /** A block without a header behind others that have theirs is written but not read: the decoder takes the others
      alone. */
  lemma TrailingBlockLost(egprs: bool, tlli: Option<Tlli>, pfi: Option<bv8>, blocks: seq<LlcBlock>, payload: Octets,
                          rest: Octets)
    requires Chain(egprs, blocks)
    ensures
      var more := Some(blocks + [LlcBlock(None, payload)]);
      ReadBody(egprs, Unmarked(more), tlli.Some?, pfi.Some?, Body(egprs, OptionalTlli(tlli), pfi, more) + rest)
      == Decoded(Content(tlli, pfi, blocks))
  {
    hide ReadBody, LiOctets, Payloads, OptionalTlli, Optional, Chain;
    OctetsOfMore(egprs, blocks, payload);
    BodyRoundTrip(egprs, tlli, pfi, blocks, payload + rest);
    MarkedChain(egprs, blocks);
    var m, t, o, p := LiOctets(egprs, blocks), OptionalTlli(tlli), Optional(pfi), Payloads(blocks);
    assert m + t + o + (p + payload) + rest == m + t + o + p + (payload + rest);
  }

  lemma MarkedChain(egprs: bool, blocks: seq<LlcBlock>)
    requires Chain(egprs, blocks)
    ensures blocks != [] && !Unmarked(Some(blocks))
  {
  }

  // ----- coding schemes

  function SchemeOf(payload_len: nat): CodingScheme {
    if payload_len == 23 then CS_1
    else if payload_len == 34 then CS_2
    else if payload_len == 40 then CS_3
    else if payload_len == 54 then CS_4
    else if payload_len == 27 then MCS_1
    else if payload_len == 33 then MCS_2
    else if payload_len == 42 then MCS_3
    else if payload_len == 49 then MCS_4
    else if payload_len == 60 || payload_len == 61 then MCS_5
    else if payload_len == 78 || payload_len == 79 then MCS_6
    else if payload_len == 118 || payload_len == 119 then MCS_7
    else if payload_len == 142 || payload_len == 143 then MCS_8
    else if payload_len == 154 || payload_len == 155 then MCS_9
    else CS_1
  }

  function DataBlockLen(mcs: CodingScheme): nat {
    match mcs
    case MCS_0 => 0
    case MCS_1 => 22
    case MCS_2 => 28
    case MCS_3 => 37
    case MCS_4 => 44
    case MCS_5 => 56
    case MCS_6 => 74
    case MCS_7 => 56
    case MCS_8 => 68
    case MCS_9 => 74
    case _ => 22
  }

  function BlockLen(cs: CodingScheme): nat {
    match cs
    case CS_1 => 23
    case CS_2 => 34
    case CS_3 => 40
    case CS_4 => 54
    case MCS_0 => 0
    case MCS_1 => 27
    case MCS_2 => 33
    case MCS_3 => 42
    case MCS_4 => 49
    case MCS_5 => 61
    case MCS_6 => 79
    case MCS_7 => 119
    case MCS_8 => 143
    case MCS_9 => 155
  }

  function BlockLenNoSpare(cs: CodingScheme): nat {
    match cs
    case CS_2 => 33
    case CS_3 => 39
    case CS_4 => 53
    case _ => BlockLen(cs)
  }

  /** A block of a scheme's length is taken for that scheme; only MCS-0 has no length of its own. */
  lemma SchemeRoundTrip(cs: CodingScheme)
    ensures SchemeOf(BlockLen(cs)) == cs <==> cs != MCS_0
    ensures BlockLenNoSpare(cs) <= BlockLen(cs) < 256
  {
  }

  datatype HeaderType = Type_1 | Type_2 | Type_3

  /** setup_rlc_mac_priv, as called for uplink blocks: where the first data block starts, and its bits. */
  function FirstOffset(hdrtype: HeaderType): nat {
    match hdrtype
    case Type_1 => 5 * 8 + 6
    case Type_2 => 4 * 8 + 5
    case Type_3 => 3 * 8 + 7
  }

  function DataBlockBits(mcs: CodingScheme): nat { DataBlockLen(mcs) * 8 + 2 }

  /** The header types that the decoder of uplink blocks goes by. */
  function HeaderTypeOf(mcs: CodingScheme): HeaderType
    requires IsEgprs(mcs)
  {
    if mcs in {MCS_7, MCS_8, MCS_9} then Type_1 else if mcs in {MCS_5, MCS_6} then Type_2 else Type_3
  }

  predicate IsEgprs(mcs: CodingScheme) { mcs in {MCS_1, MCS_2, MCS_3, MCS_4, MCS_5, MCS_6, MCS_7, MCS_8, MCS_9} }

  function SecondOffset(mcs: CodingScheme): nat
    requires IsEgprs(mcs) && HeaderTypeOf(mcs) == Type_1
  {
    FirstOffset(Type_1) + DataBlockBits(mcs)
  }

  /** The tables of block lengths, data block lengths and header types agree: header and data blocks (two with type 1)
      reach exactly into the last octet of the block. */
  lemma DataBlocksFillBlock(mcs: CodingScheme)
    requires IsEgprs(mcs)
    ensures
      var last := if HeaderTypeOf(mcs) == Type_1 then SecondOffset(mcs) else FirstOffset(HeaderTypeOf(mcs));
      8 * (BlockLen(mcs) - 1) < last + DataBlockBits(mcs) <= 8 * BlockLen(mcs)
  {
  }

  /** Putting and getting uplink data blocks fit together for header type 3 alone. */
  lemma OnlyType3RoundTrips(hdrtype: HeaderType)
    ensures RoundTrips(FirstOffset(hdrtype)) <==> hdrtype == Type_3
  {
    hide RoundTrips;
    RoundTripsExactly(FirstOffset(hdrtype));
  }

  // ----- padding

  function Fill(n: nat, c: bv8): (r: Octets)
    ensures |r| == n
  {
    seq(n, _ => c)
  }

  function Trailer(cs: CodingScheme, n: nat): Octets {
    SchemeRoundTrip(cs);
    if n > BlockLenNoSpare(cs) then []
    else Fill(BlockLenNoSpare(cs) - n, 0x2b) + Fill(BlockLen(cs) - BlockLenNoSpare(cs), 0x00)
  }

  method encode_trailing_padding_spb(buffer: Octets, cs: CodingScheme) returns (r: Octets)
    ensures r == buffer + Trailer(cs, |buffer|)
  {
    hide BlockLen, BlockLenNoSpare;
    SchemeRoundTrip(cs);
    var buf := new bv8[256];
    var blk_len := BlockLen(cs);
    var blk_len_no_spb := BlockLenNoSpare(cs);
    var data_len := |buffer|;
    if data_len > blk_len_no_spb {
      return buffer + [];
    }
    var i := 0;
    while i < blk_len_no_spb - data_len
      invariant 0 <= i <= blk_len_no_spb - data_len
      invariant forall k | 0 <= k < i :: buf[k] == 0x2b
    {
      buf[i] := 0x2b;
      i := i + 1;
    }
    i := blk_len_no_spb - data_len;
    while i < blk_len - data_len
      invariant blk_len_no_spb - data_len <= i <= blk_len - data_len
      invariant forall k | 0 <= k < i :: buf[k] == if k < blk_len_no_spb - data_len then 0x2b else 0x00
    {
      buf[i] := 0x00;
      i := i + 1;
    }
    assert buf[..blk_len - data_len] == Trailer(cs, |buffer|);
    return buffer + buf[..blk_len - data_len];
  }

  // ----- the loops over blocks

  method put_li_octets(egprs: bool, blocks: seq<LlcBlock>) returns (buffer: Octets)
    ensures buffer == LiOctets(egprs, blocks)
  {
    hide LiOctet;
    buffer := [];
    var i := 0;
    assert blocks[0..] == blocks;
    while i < |blocks|
      invariant 0 <= i <= |blocks|
      invariant buffer + LiOctets(egprs, blocks[i..]) == LiOctets(egprs, blocks)
    {
      assert blocks[i..][0] == blocks[i] && blocks[i..][1..] == blocks[i + 1..];
      if blocks[i].hdr.Some? {
        var o := LiOctet(egprs, blocks[i].hdr.value);
        assert buffer + ([o] + LiOctets(egprs, blocks[i + 1..])) == buffer + [o] + LiOctets(egprs, blocks[i + 1..]);
        buffer := buffer + [o];
      } else {
        assert [] + LiOctets(egprs, blocks[i + 1..]) == LiOctets(egprs, blocks[i + 1..]);
      }
      i := i + 1;
    }
  }

  method put_payloads(blocks: seq<LlcBlock>) returns (buffer: Octets)
    ensures buffer == Payloads(blocks)
  {
    buffer := [];
    var i := 0;
    assert blocks[0..] == blocks;
    while i < |blocks|
      invariant 0 <= i <= |blocks|
      invariant buffer + Payloads(blocks[i..]) == Payloads(blocks)
    {
      assert blocks[i..][0] == blocks[i] && blocks[i..][1..] == blocks[i + 1..];
      var p := blocks[i].payload;
      assert buffer + (p + Payloads(blocks[i + 1..])) == buffer + p + Payloads(blocks[i + 1..]);
      buffer := buffer + p;
      i := i + 1;
    }
  }

  /** Extension octets up to the first that has E set, or the end of the input. */
  method get_li_octets(egprs: bool, data: Octets) returns (r: Lis)
    ensures r == ReadLis(egprs, data)
  {
    hide LiOf;
    var list: seq<Li> := [];
    var pos := 0;
    assert data[0..] == data;
    assert LisBefore([], ReadLis(egprs, data)) == ReadLis(egprs, data) by {
      var l := ReadLis(egprs, data);
      if l.Lis? {
        assert [] + l.list == l.list;
      }
    }
    while true
      invariant 0 <= pos <= |data|
      invariant LisBefore(list, ReadLis(egprs, data[pos..])) == ReadLis(egprs, data)
      decreases |data| - pos
    {
      if pos == |data| {
        return Short;
      }
      var li := LiOf(egprs, data[pos]);
      LisStep(egprs, data[pos..], list);
      assert data[pos..][1..] == data[pos + 1..];
      list := list + [li];
      pos := pos + 1;
      if li.e {
        return Lis(list, data[pos..]);
      }
    }
  }

  lemma LisStep(egprs: bool, data: Octets, done: seq<Li>)
    requires data != []
    ensures
      var li := LiOf(egprs, data[0]);
      LisBefore(done, ReadLis(egprs, data)) ==
      if li.e then Lis(done + [li], data[1..]) else LisBefore(done + [li], ReadLis(egprs, data[1..]))
  {
    hide LiOf;
    var li := LiOf(egprs, data[0]);
    var t := ReadLis(egprs, data[1..]);
    if t.Lis? {
      assert done + ([li] + t.list) == done + [li] + t.list;
    }
  }

  lemma CutStep(lis: seq<Li>, data: Octets, done: seq<LlcBlock>)
    ensures lis == [] ==> done + Cut(lis, data) == done
    ensures lis != [] ==>
              var n := Least(lis[0].length, |data|);
              done + Cut(lis, data) == done + [LlcBlock(Some(lis[0]), data[..n])] + Cut(lis[1..], data[n..])
  {
  }

  method get_payloads(lis: seq<Li>, data: Octets) returns (blocks: seq<LlcBlock>)
    ensures blocks == Cut(lis, data)
  {
    hide Cut;
    blocks := [];
    var i, pos := 0, 0;
    assert lis[0..] == lis && data[0..] == data;
    assert blocks + Cut(lis, data) == Cut(lis, data);
    while i < |lis|
      invariant 0 <= i <= |lis| && 0 <= pos <= |data|
      invariant blocks + Cut(lis[i..], data[pos..]) == Cut(lis, data)
    {
      var length := lis[i].length;
      if length > |data| - pos {
        length := |data| - pos;
      }
      assert lis[i..][0] == lis[i] && lis[i..][1..] == lis[i + 1..];
      assert data[pos..][..length] == data[pos..pos + length] && data[pos..][length..] == data[pos + length..];
      CutStep(lis[i..], data[pos..], blocks);
      var b := LlcBlock(Some(lis[i]), data[pos..pos + length]);
      blocks := blocks + [b];
      pos := pos + length;
      i := i + 1;
    }
    CutStep([], data[pos..], blocks);
    assert lis[i..] == [];
  }

  method put_body(egprs: bool, tlli: Octets, pfi: Option<bv8>, blocks: Option<seq<LlcBlock>>) returns (buffer: Octets)
    ensures buffer == Body(egprs, tlli, pfi, blocks)
  {
    buffer := [];
    if !Unmarked(blocks) {
      if blocks.None? {
        buffer := [0x01];
      } else {
        buffer := put_li_octets(egprs, blocks.value);
      }
    }
    buffer := buffer + tlli;
    if pfi.Some? {
      buffer := buffer + [pfi.value];
    }
    if blocks.Some? {
      var payloads := put_payloads(blocks.value);
      buffer := buffer + payloads;
    }
  }

  method get_body(egprs: bool, e: bool, ti: bool, pi: bool, data: Octets) returns (r: Decoded<Content>)
    ensures r == ReadBody(egprs, e, ti, pi, data)
  {
    hide ReadLis, Cut;
    var lis: Lis := Lis([], data);
    if !e {
      lis := get_li_octets(egprs, data);
    }
    if lis.Short? {
      return Incomplete;
    }
    var left := lis.rest;
    var tlli: Option<Tlli> := None;
    if ti {
      if |left| < 4 {
        return OverRead;
      }
      tlli := Some(left[..4]);
      left := left[4..];
    }
    var pfi: Option<bv8> := None;
    if pi {
      if left == [] {
        return Incomplete;
      }
      pfi := Some(left[0]);
      left := left[1..];
    }
    if e {
      return Decoded(Content(tlli, pfi, [LlcBlock(None, left)]));
    }
    var blocks := get_payloads(lis.list, left);
    return Decoded(Content(tlli, pfi, blocks));
  }

  // ----- the GPRS uplink data block

  /** The three octets of the MAC header, in which only PI, TI and E are looked at here. */
  type MacHeader = s: Octets | |s| == 3 witness [0, 0, 0]

  datatype UlDataBlock =
    UlDataBlock(cs: CodingScheme, mac: MacHeader, tlli: Option<Tlli>, pfi: Option<bv8>, blocks: Option<seq<LlcBlock>>)

  predicate PfiInd(m: MacHeader) { Bit(m[1], 6) }

  predicate TlliInd(m: MacHeader) { Bit(m[1], 0) }

  predicate EBit(m: MacHeader) { Bit(m[2], 0) }

  function WithBit(o: bv8, j: nat, b: bool): bv8
    requires j < 8
  {
    OctetOf(OctetBits(o)[j := b])
  }

  /** The header with its indicators set for what follows. */
  function Fixed(b: UlDataBlock): MacHeader {
    [b.mac[0], WithBit(WithBit(b.mac[1], 0, b.tlli.Some?), 6, b.pfi.Some?), WithBit(b.mac[2], 0, Unmarked(b.blocks))]
  }

  lemma WithBitBits(o: bv8, j: nat, b: bool, k: nat)
    requires j < 8 && k < 8
    ensures Bit(WithBit(o, j, b), k) == if k == j then b else Bit(o, k)
  {
    hide Bit, OctetOf;
    OctetBitsOf(OctetBits(o)[j := b]);
    assert OctetBits(WithBit(o, j, b))[k] == OctetBits(o)[j := b][k];
  }

  /** Only the three indicators change. */
  lemma FixedBits(b: UlDataBlock)
    ensures PfiInd(Fixed(b)) == b.pfi.Some? && TlliInd(Fixed(b)) == b.tlli.Some? && EBit(Fixed(b)) == Unmarked(b.blocks)
    ensures Fixed(b)[0] == b.mac[0]
    ensures forall k | 1 <= k < 8 :: Bit(Fixed(b)[2], k) == Bit(b.mac[2], k)
    ensures forall k | 1 <= k < 8 && k != 6 :: Bit(Fixed(b)[1], k) == Bit(b.mac[1], k)
  {
    hide Bit, WithBit;
    forall k: nat | k < 8
      ensures Bit(Fixed(b)[2], k) == if k == 0 then Unmarked(b.blocks) else Bit(b.mac[2], k)
      ensures Bit(Fixed(b)[1], k) == if k == 6 then b.pfi.Some? else if k == 0 then b.tlli.Some? else Bit(b.mac[1], k)
    {
      WithBitBits(b.mac[2], 0, Unmarked(b.blocks), k);
      WithBitBits(b.mac[1], 0, b.tlli.Some?, k);
      WithBitBits(WithBit(b.mac[1], 0, b.tlli.Some?), 6, b.pfi.Some?, k);
    }
  }

  function Unpadded(b: UlDataBlock): Octets { Fixed(b) + Body(false, OptionalTlli(b.tlli), b.pfi, b.blocks) }

  function Encoded(b: UlDataBlock): Octets { Unpadded(b) + Trailer(b.cs, |Unpadded(b)|) }

  function Read(stream: Octets): Decoded<UlDataBlock> {
    if |stream| < 3 then Incomplete
    else
      var mac: MacHeader := stream[..3];
      var c := ReadBody(false, EBit(mac), TlliInd(mac), PfiInd(mac), stream[3..]);
      if c.Decoded? then
        Decoded(UlDataBlock(SchemeOf(|stream|), mac, c.value.tlli, c.value.pfi, Some(c.value.blocks)))
      else if c.Incomplete? then Incomplete
      else OverRead
  }

  method enc__RlcmacUlDataBlock(b: UlDataBlock) returns (r: Octets)
    ensures r == Encoded(b)
  {
    hide Fixed, Body, Trailer;
    var buffer: Octets := Fixed(b);
    var body := put_body(false, OptionalTlli(b.tlli), b.pfi, b.blocks);
    buffer := buffer + body;
    r := encode_trailing_padding_spb(buffer, b.cs);
  }

  method dec__RlcmacUlDataBlock(stream: Octets) returns (r: Decoded<UlDataBlock>)
    ensures r == Read(stream)
  {
    hide ReadBody;
    if |stream| < 3 {
      return Incomplete;
    }
    var mac: MacHeader := stream[..3];
    var c := get_body(false, EBit(mac), TlliInd(mac), PfiInd(mac), stream[3..]);
    match c
    case Incomplete => return Incomplete;
    case OverRead => return OverRead;
    case Decoded(v) =>
      return Decoded(UlDataBlock(SchemeOf(|stream|), mac, v.tlli, v.pfi, Some(v.blocks)));
  }

  /** What decoding makes of an encoded block: the same when every LLC block has its length indicator; a single block
      without one has the padding at its end; and no blocks have become an empty one. The coding scheme is kept when the
      block fits into it. */
  function AsRead(b: UlDataBlock): UlDataBlock {
    var blocks :=
      if b.blocks.None? then [LlcBlock(Some(Li(0, false, true)), [])]
      else if Unmarked(b.blocks) then [LlcBlock(None, b.blocks.value[0].payload + Trailer(b.cs, |Unpadded(b)|))]
      else b.blocks.value;
    UlDataBlock(SchemeOf(|Encoded(b)|), Fixed(b), b.tlli, b.pfi, Some(blocks))
  }

  lemma UlDataBlockRoundTrip(b: UlDataBlock)
    requires b.blocks.None? || Unmarked(b.blocks) || Chain(false, b.blocks.value)
    ensures Read(Encoded(b)) == Decoded(AsRead(b))
    ensures |Unpadded(b)| <= BlockLenNoSpare(b.cs) ==> |Encoded(b)| == BlockLen(b.cs)
    ensures |Unpadded(b)| <= BlockLenNoSpare(b.cs) && b.cs != MCS_0 ==> AsRead(b).cs == b.cs
  {
    hide Fixed, Body, ReadBody, Trailer, Chain, PfiInd, TlliInd, EBit, SchemeOf, BlockLen, BlockLenNoSpare;
    FixedBits(b);
    SchemeRoundTrip(b.cs);
    TrailerSize(b.cs, |Unpadded(b)|);
    var rest := Trailer(b.cs, |Unpadded(b)|);
    var body := Body(false, OptionalTlli(b.tlli), b.pfi, b.blocks);
    assert Encoded(b)[..3] == Fixed(b);
    assert Encoded(b)[3..] == body + rest;
    if b.blocks.None? {
      NoneRoundTrip(false, b.tlli, b.pfi, rest);
    } else if Unmarked(b.blocks) {
      assert b.blocks.value == [LlcBlock(None, b.blocks.value[0].payload)];
      WholeRoundTrip(false, b.tlli, b.pfi, b.blocks.value[0].payload, rest);
    } else {
      BodyRoundTrip(false, b.tlli, b.pfi, b.blocks.value, rest);
    }
  }

  /** The exact condition for whole blocks: apart from the indicators set in its header and the scheme that its length
      stands for, a block comes back exactly if its list survives the padding that it gets. */
  lemma UlDataBlockSurvivesExactly(b: UlDataBlock)
    requires b.blocks.Some? && forall x | x in b.blocks.value :: x.hdr.Some? ==> LiFits(false, x.hdr.value)
    ensures Read(Encoded(b)) == Decoded(b.(mac := Fixed(b), cs := SchemeOf(|Encoded(b)|)))
            <==> Survives(false, b.blocks.value, |Trailer(b.cs, |Unpadded(b)|)|)
  {
    hide Fixed, Body, ReadBody, Trailer, Survives, PfiInd, TlliInd, EBit, SchemeOf, LiFits;
    FixedBits(b);
    var rest := Trailer(b.cs, |Unpadded(b)|);
    var body := Body(false, OptionalTlli(b.tlli), b.pfi, b.blocks);
    assert Encoded(b)[..3] == Fixed(b);
    assert Encoded(b)[3..] == body + rest;
    SurvivesExactly(false, b.tlli, b.pfi, b.blocks.value, rest, b.tlli);
  }

  lemma TrailerSize(cs: CodingScheme, n: nat)
    ensures n <= BlockLenNoSpare(cs) ==> n + |Trailer(cs, n)| == BlockLen(cs)
  {
    SchemeRoundTrip(cs);
  }
}
