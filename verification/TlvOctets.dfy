/** The same messages octet by octet: elements with one length octet 0x80 + n or with two length octets, behind the
    eight octets of a BSSGP unitdata header or the one octet of another message. */
module TlvOctets {
  import opened TlvLength

  /** One length octet, with bit 0x80 set; two length octets, the higher one first. */
  predicate IsShort(o: Octets, t: Tlv) {
    && |t.value| <= 0x7f && |o| == 2 + |t.value|
    && o[0] == t.tag && o[1] == 0x80 + |t.value| && o[2..] == t.value
  }

  predicate IsLong(o: Octets, t: Tlv) {
    && |o| == 3 + |t.value|
    && o[0] == t.tag && 0x100 * (o[1] as int) + o[2] == |t.value| && o[3..] == t.value
  }

  function Concat(parts: seq<Octets>): Octets {
    if parts == [] then [] else parts[0] + Concat(parts[1..])
  }

  ghost predicate AreLong(parts: seq<Octets>, l: seq<Tlv>) {
    && |parts| == |l|
    && forall i :: 0 <= i < |l| ==> IsLong(parts[i], l[i])
  }

  /** Each in one of the two forms, the long one having bit 0x80 of its first length octet clear. */
  ghost predicate OnTheWire(parts: seq<Octets>, l: seq<Tlv>) {
    && |parts| == |l|
    && forall i :: 0 <= i < |l| ==> IsShort(parts[i], l[i]) || (IsLong(parts[i], l[i]) && parts[i][1] < 0x80)
  }

  /** Each as compacting leaves it, whose long lengths may take all 16 bits. */
  ghost predicate AreCompact(parts: seq<Octets>, l: seq<Tlv>) {
    && |parts| == |l|
    && forall i :: 0 <= i < |l| ==> if |l[i].value| <= 0x7f then IsShort(parts[i], l[i]) else IsLong(parts[i], l[i])
  }

  // ----- the element lists

  lemma ShortIs(o: Octets, t: Tlv)
    requires IsShort(o, t)
    ensures OneWire(t, true) == o && WrittenShortest(t.tag, t.value) == o
  {
    assert o == [t.tag, Short(|t.value|)] + o[2..];
  }

  lemma LongIs(o: Octets, t: Tlv)
    requires IsLong(o, t)
    ensures |t.value| < 0x1_0000 && One16(t) == o
    ensures o[1] < 0x80 ==> |t.value| < 0x8000
    ensures |t.value| > 0x7f ==> WrittenShortest(t.tag, t.value) == o
  {
    assert o == [t.tag, Hi(|t.value|), Lo(|t.value|)] + o[3..];
  }

  lemma {:induction false} LongForms(parts: seq<Octets>, l: seq<Tlv>)
    requires AreLong(parts, l)
    ensures Fits(l, 0x1_0000) && Form16(l) == Concat(parts)
    decreases |l|
  {
    hide IsLong, One16;
    if l != [] {
      LongIs(parts[0], l[0]);
      LongForms(parts[1..], l[1..]);
      assert forall i :: 0 < i < |l| ==> l[i] == l[1..][i - 1];
    }
  }

  lemma {:induction false} WireForms(parts: seq<Octets>, l: seq<Tlv>) returns (short: seq<bool>)
    requires OnTheWire(parts, l)
    ensures Choice(l, short) && Wire(l, short) == Concat(parts)
    decreases |l|
  {
    hide IsLong, IsShort, One16, OneWire;
    if l == [] {
      short := [];
    } else {
      var later := WireForms(parts[1..], l[1..]);
      short := [IsShort(parts[0], l[0])] + later;
      if short[0] {
        ShortIs(parts[0], l[0]);
        SmallEnough(parts[0], l[0]);
      } else {
        LongIs(parts[0], l[0]);
        LongWire(l[0]);
      }
      assert short[1..] == later;
      assert forall i :: 0 < i < |l| ==> l[i] == l[1..][i - 1] && short[i] == later[i - 1];
    }
  }

  lemma SmallEnough(o: Octets, t: Tlv)
    requires IsShort(o, t)
    ensures |t.value| <= 0x7f
  {
  }

  lemma LongWire(t: Tlv)
    requires |t.value| < 0x8000
    ensures OneWire(t, false) == One16(t)
  {
  }

  lemma {:induction false} CompactForms(parts: seq<Octets>, l: seq<Tlv>)
    requires AreCompact(parts, l) && Fits(l, 0x1_0000)
    ensures Compacted(l) == Concat(parts)
    decreases |l|
  {
    hide IsLong, IsShort, WrittenShortest;
    if l != [] {
      if |l[0].value| <= 0x7f {
        ShortIs(parts[0], l[0]);
      } else {
        LongIs(parts[0], l[0]);
      }
      CompactForms(parts[1..], l[1..]);
    }
  }

  // ----- whole messages

  /** Eight octets for the types 0x00 and 0x01, one for any other. */
  predicate IsBssgpHeader(h: Octets) {
    h != [] && if h[0] == 0x00 || h[0] == 0x01 then |h| == 8 else |h| == 1
  }

  /** The header stays, and behind it every element gets 16 bits of length; unitdata of less than eight octets is
      refused. */
  lemma BssgpExpanded(h: Octets, l: seq<Tlv>, wire: seq<Octets>, long: seq<Octets>)
    requires IsBssgpHeader(h) && OnTheWire(wire, l) && AreLong(long, l)
    ensures BssgpExpand(h + Concat(wire)) == Done(h + Concat(long))
    ensures forall m: Octets :: 1 <= |m| < 8 && m[0] <= 0x01 ==> BssgpExpand(m) == Rejected
  {
    hide Expand, Form16, Wire, Concat, OnTheWire, AreLong;
    var short := WireForms(wire, l);
    LongForms(long, l);
    ExpandWhole(l, short);
    HeaderKept(h, Concat(wire));
  }

  lemma BssgpCompacted(h: Octets, l: seq<Tlv>, long: seq<Octets>, compact: seq<Octets>)
    requires IsBssgpHeader(h) && AreLong(long, l) && AreCompact(compact, l)
    ensures BssgpCompact(h + Concat(long)) == Done(h + Concat(compact))
    ensures forall m: Octets :: 1 <= |m| < 8 && m[0] <= 0x01 ==> BssgpCompact(m) == Rejected
  {
    hide Compact, Form16, Compacted, Concat, AreCompact, AreLong;
    LongForms(long, l);
    CompactForms(compact, l);
    CompactWhole(l);
    HeaderKept(h, Concat(long));
  }

  /** An NS message of type 0x00 stays as it is; in another one the elements follow the type octet. */
  lemma NsExpanded(o: Octet, rest: Octets, l: seq<Tlv>, wire: seq<Octets>, long: seq<Octets>)
    requires o != 0x00 && OnTheWire(wire, l) && AreLong(long, l)
    ensures NsExpand([o] + Concat(wire)) == Done([o] + Concat(long))
    ensures NsExpand([0x00] + rest) == Done([0x00] + rest)
  {
    hide Expand, Form16, Wire, Concat, OnTheWire, AreLong;
    var short := WireForms(wire, l);
    LongForms(long, l);
    ExpandWhole(l, short);
    HeaderKept([o], Concat(wire));
  }

  lemma NsCompacted(o: Octet, rest: Octets, l: seq<Tlv>, long: seq<Octets>, compact: seq<Octets>)
    requires o != 0x00 && AreLong(long, l) && AreCompact(compact, l)
    ensures NsCompact([o] + Concat(long)) == Done([o] + Concat(compact))
    ensures NsCompact([0x00] + rest) == Done([0x00] + rest)
  {
    hide Compact, Form16, Compacted, Concat, AreCompact, AreLong;
    LongForms(long, l);
    CompactForms(compact, l);
    CompactWhole(l);
    HeaderKept([o], Concat(long));
  }
}
