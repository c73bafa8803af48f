/** Length fields of BSSGP and NS information elements (3GPP TS 48.016, section 10.1.2): the form on the wire, in which
    a length takes 7 or 15 bits, and the form with 16 bits that the test suite's decoders can read. */
module TlvLength {

  type Octet = x: int | 0 <= x < 256

  type Octets = seq<Octet>

  /** Rejected stands for the source's error, OverRead for a value copied from beyond the end of the input. */
  datatype Outcome = Done(out: Octets) | Rejected | OverRead {
    function After(prefix: Octets): Outcome {
      if Done? then Done(prefix + out) else this
    }
  }

  // ----- octets and lengths

  function Len16(hi: Octet, lo: Octet): nat { hi * 256 + lo }

  /** Whether bit 0x80 is set; the other seven bits; and seven bits under a set bit 0x80. */
  predicate Ebit(o: Octet) { o >= 0x80 }

  function Len7(o: Octet): nat { o % 0x80 }

  function Short(n: nat): Octet
    requires n <= 0x7f
  {
    0x80 + n
  }

  function Hi(n: nat): Octet
    requires n < 0x1_0000
  {
    n / 256
  }

  function Lo(n: nat): Octet { n % 256 }

  lemma LenFacts(n: nat)
    requires n < 0x1_0000
    ensures Len16(Hi(n), Lo(n)) == n
    ensures Ebit(Hi(n)) <==> n >= 0x8000
  {
  }

  lemma HeadFacts(a: Octet, b: Octet)
    ensures Hi(Len16(a, b)) == a && Lo(Len16(a, b)) == b
    ensures !Ebit(a) ==> Len16(a, b) < 0x8000
    ensures Len16(a, b) < 0x1_0000
  {
  }

  lemma AfterAppend(o: Outcome, a: Octets, b: Octets)
    ensures o.After(b).After(a) == o.After(a + b)
  {
    if o.Done? {
      assert a + (b + o.out) == a + b + o.out;
    }
  }

  // ----- the grammars

  datatype Tlv = Tlv(tag: Octet, value: Octets)

  ghost predicate Fits(l: seq<Tlv>, bound: nat) {
    forall i :: 0 <= i < |l| ==> |l[i].value| < bound
  }

  function One16(t: Tlv): Octets
    requires |t.value| < 0x1_0000
  {
    [t.tag, Hi(|t.value|), Lo(|t.value|)] + t.value
  }

  /** The form with 16-bit lengths. */
  function Form16(l: seq<Tlv>): Octets
    requires Fits(l, 0x1_0000)
  {
    if l == [] then [] else One16(l[0]) + Form16(l[1..])
  }

  /** One element on the wire, in the short or in the long form. */
  function OneWire(t: Tlv, short: bool): Octets
    requires |t.value| < 0x8000
    requires short ==> |t.value| <= 0x7f
  {
    if short then [t.tag, Short(|t.value|)] + t.value else One16(t)
  }

  ghost predicate Choice(l: seq<Tlv>, short: seq<bool>) {
    && Fits(l, 0x8000)
    && |short| == |l|
    && forall i :: 0 <= i < |l| && short[i] ==> |l[i].value| <= 0x7f
  }

  /** Elements on the wire, each in a form of its own. */
  function Wire(l: seq<Tlv>, short: seq<bool>): Octets
    requires Choice(l, short)
  {
    if l == [] then [] else OneWire(l[0], short[0]) + Wire(l[1..], short[1..])
  }

  /** The choice that takes the short form wherever it exists. */
  function Shortest(l: seq<Tlv>): (short: seq<bool>)
    ensures |short| == |l|
  {
    seq(|l|, i requires 0 <= i < |l| => |l[i].value| <= 0x7f)
  }

  // ----- the scanners as functions of what is left of the input

  /** How many octets tag and length take, and the length; or a head that is cut off. */
  datatype Head = Cut | Head(tl: nat, len: nat)

  function WireHead(rest: Octets): (h: Head)
    ensures h.Head? ==> h.tl >= 2 && h.len < 0x8000
  {
    if |rest| < 2 then Cut
    else if Ebit(rest[1]) then Head(2, Len7(rest[1]))
    else if |rest| < 3 then Cut
    else Head(3, Len16(rest[1], rest[2]))
  }

  function Head16(rest: Octets): (h: Head)
    ensures h.Head? ==> h.tl == 3 && h.len < 0x1_0000
  {
    if |rest| < 3 then Cut else Head(3, Len16(rest[1], rest[2]))
  }

  /** What the compacting scanner writes for an element with this tag and value. */
  function WrittenShortest(tag: Octet, value: Octets): Octets
    requires |value| < 0x1_0000
  {
    if |value| <= 0x7f then [tag, Short(|value|)] + value else One16(Tlv(tag, value))
  }

  function Value(rest: Octets, h: Head): (v: Octets)
    requires h.Head? && h.tl + h.len <= |rest|
    ensures |v| == h.len
  {
    rest[h.tl..h.tl + h.len]
  }

  function Expand(in_len: nat, rest: Octets): Outcome
    decreases |rest|
  {
    if rest == [] then Done([])
    else
      var h := WireHead(rest);
      if h.Cut? || in_len < h.tl + h.len then Rejected
      else if |rest| < h.tl + h.len then OverRead
      else Expand(in_len, rest[h.tl + h.len..]).After(One16(Tlv(rest[0], Value(rest, h))))
  }

  function Compact(in_len: nat, rest: Octets): Outcome
    decreases |rest|
  {
    if rest == [] then Done([])
    else
      var h := Head16(rest);
      if h.Cut? || in_len < h.tl + h.len then Rejected
      else if |rest| < h.tl + h.len then OverRead
      else Compact(in_len, rest[h.tl + h.len..]).After(WrittenShortest(rest[0], Value(rest, h)))
  }

  // ----- the source's loops

  lemma AfterEmpty(o: Outcome)
    ensures o.After([]) == o
  {
  }

  method expand_tlv_part(input: Octets) returns (r: Outcome)
    ensures r == Expand(|input|, input)
  {
    hide Len7, Len16, Hi, Lo, Outcome.After, One16, WireHead;
    var in_len := |input|;
    var ofs := 0;
    var out: Octets := [];
    AfterEmpty(Expand(in_len, input));
    assert input[0..] == input;
    while ofs < in_len
      invariant 0 <= ofs <= in_len
      invariant Expand(in_len, input) == Expand(in_len, input[ofs..]).After(out)
    {
      var remain_len := in_len - ofs;
      ghost var rest := input[ofs..];
      WireHeadForm(rest);
      RefusedAfter(out);
      var tl_length, data_len;
      if remain_len < 2 {
        return Rejected;
      }
      if Ebit(input[ofs + 1]) {
        data_len := Len7(input[ofs + 1]);
        tl_length := 2;
      } else {
        if remain_len < 3 {
          return Rejected;
        }
        data_len := Len16(input[ofs + 1], input[ofs + 2]);
        tl_length := 3;
      }
      assert WireHead(rest) == Head(tl_length, data_len);
      if in_len < tl_length + data_len {
        return Rejected;
      }
      if remain_len < tl_length + data_len {
        return OverRead;
      }
      WriteElement16(input, ofs, tl_length, data_len, out);
      AfterAppend(Expand(in_len, rest[tl_length + data_len..]), out, One16(Tlv(rest[0], Value(rest, WireHead(rest)))));
      out := out + [input[ofs], Hi(data_len), Lo(data_len)];
      if data_len > 0 {
        out := out + input[ofs + tl_length..ofs + tl_length + data_len];
      }
      ofs := ofs + data_len + tl_length;
    }
    assert input[ofs..] == [];
    DoneAfter(out);
    r := Done(out);
  }

  method compact_tlv_part(input: Octets) returns (r: Outcome)
    ensures r == Compact(|input|, input)
  {
    hide Short, Len16, Hi, Lo, Outcome.After, WrittenShortest, Head16;
    var in_len := |input|;
    var ofs := 0;
    var out: Octets := [];
    AfterEmpty(Compact(in_len, input));
    assert input[0..] == input;
    while ofs < in_len
      invariant 0 <= ofs <= in_len
      invariant Compact(in_len, input) == Compact(in_len, input[ofs..]).After(out)
    {
      var remain_len := in_len - ofs;
      ghost var rest := input[ofs..];
      Head16Form(rest);
      RefusedAfter(out);
      if remain_len < 3 {
        return Rejected;
      }
      var data_len := Len16(input[ofs + 1], input[ofs + 2]);
      var hdr_buf;
      if data_len <= 0x7f {
        hdr_buf := [input[ofs], Short(data_len)];
      } else {
        hdr_buf := [input[ofs], Hi(data_len), Lo(data_len)];
      }
      if in_len < 3 + data_len {
        return Rejected;
      }
      if remain_len < 3 + data_len {
        return OverRead;
      }
      WriteElementShortest(input, ofs, data_len, out);
      AfterAppend(Compact(in_len, rest[3 + data_len..]), out, WrittenShortest(rest[0], Value(rest, Head16(rest))));
      out := out + hdr_buf;
      if data_len > 0 {
        out := out + input[ofs + 3..ofs + 3 + data_len];
      }
      ofs := ofs + data_len + 3;
    }
    assert input[ofs..] == [];
    DoneAfter(out);
    r := Done(out);
  }

  lemma RefusedAfter(out: Octets)
    ensures Rejected.After(out) == Rejected && OverRead.After(out) == OverRead
  {
  }

  lemma DoneAfter(out: Octets)
    ensures Done([]).After(out) == Done(out)
  {
  }

  lemma WireHeadForm(rest: Octets)
    ensures |rest| < 2 ==> WireHead(rest) == Cut
    ensures |rest| >= 2 && Ebit(rest[1]) ==> WireHead(rest) == Head(2, Len7(rest[1]))
    ensures |rest| == 2 && !Ebit(rest[1]) ==> WireHead(rest) == Cut
    ensures |rest| >= 3 && !Ebit(rest[1]) ==> WireHead(rest) == Head(3, Len16(rest[1], rest[2]))
  {
  }

  lemma Head16Form(rest: Octets)
    ensures |rest| < 3 ==> Head16(rest) == Cut
    ensures |rest| >= 3 ==> Head16(rest) == Head(3, Len16(rest[1], rest[2]))
    ensures |rest| >= 3 ==> Len16(rest[1], rest[2]) < 0x1_0000
  {
  }

  lemma WriteElement16(input: Octets, ofs: nat, tl: nat, len: nat, out: Octets)
    requires len < 0x1_0000 && tl >= 2 && ofs + tl + len <= |input|
    ensures out + One16(Tlv(input[ofs..][0], Value(input[ofs..], Head(tl, len))))
         == if len > 0 then out + [input[ofs], Hi(len), Lo(len)] + input[ofs + tl..ofs + tl + len]
            else out + [input[ofs], Hi(len), Lo(len)]
    ensures input[ofs..][tl + len..] == input[ofs + len + tl..]
  {
    hide Hi, Lo;
    assert input[ofs..][tl..tl + len] == input[ofs + tl..ofs + tl + len];
  }

  lemma WriteElementShortest(input: Octets, ofs: nat, len: nat, out: Octets)
    requires len < 0x1_0000 && ofs + 3 + len <= |input|
    ensures out + WrittenShortest(input[ofs..][0], Value(input[ofs..], Head(3, len)))
         == var out' := out + if len <= 0x7f then [input[ofs], Short(len)] else [input[ofs], Hi(len), Lo(len)];
            if len > 0 then out' + input[ofs + 3..ofs + 3 + len] else out'
    ensures input[ofs..][3 + len..] == input[ofs + len + 3..]
  {
    hide Hi, Lo, Short;
    assert input[ofs..][3..3 + len] == input[ofs + 3..ofs + 3 + len];
  }

  // ----- expanding is reading the wire grammar

  lemma WireElementRead(t: Tlv, short: bool, tail: Octets)
    requires |t.value| < 0x8000 && (short ==> |t.value| <= 0x7f)
    ensures var rest := OneWire(t, short) + tail; var h := WireHead(rest);
            && h == Head(if short then 2 else 3, |t.value|)
            && h.tl + h.len <= |rest| && rest[0] == t.tag
            && Value(rest, h) == t.value && rest[h.tl + h.len..] == tail
  {
    hide Hi, Lo, Short, Ebit, Len7, Len16;
    LenFacts(|t.value|);
    if short {
      ShortFacts(|t.value|);
    }
  }

  lemma ShortFacts(n: nat)
    requires n <= 0x7f
    ensures Ebit(Short(n)) && Len7(Short(n)) == n
  {
  }

  lemma {:induction false} ExpandWire(in_len: nat, l: seq<Tlv>, short: seq<bool>, tail: Octets)
    requires Choice(l, short)
    requires |Wire(l, short) + tail| <= in_len
    ensures Expand(in_len, Wire(l, short) + tail) == Expand(in_len, tail).After(Form16(l))
    decreases |l|
  {
    hide WireHead, Value, OneWire, One16, Outcome.After, Hi, Lo, Short;
    if l == [] {
      assert Wire(l, short) + tail == tail;
      AfterEmpty(Expand(in_len, tail));
    } else {
      var rest := Wire(l[1..], short[1..]) + tail;
      WireElementRead(l[0], short[0], rest);
      assert Wire(l, short) + tail == OneWire(l[0], short[0]) + rest;
      OneWireSize(l[0], short[0]);
      ExpandWire(in_len, l[1..], short[1..], tail);
      AfterAppend(Expand(in_len, tail), One16(l[0]), Form16(l[1..]));
      One16Size(l[0]);
    }
  }

  lemma OneWireSize(t: Tlv, short: bool)
    requires |t.value| < 0x8000 && (short ==> |t.value| <= 0x7f)
    ensures |OneWire(t, short)| == |t.value| + if short then 2 else 3
  {
  }

  lemma One16Size(t: Tlv)
    requires |t.value| < 0x1_0000
    ensures |One16(t)| == 3 + |t.value|
  {
  }

  /** What is left of the input, if its head is complete, is an element in wire form and a tail. */
  lemma ReadIsWireElement(rest: Octets)
    requires rest != [] && WireHead(rest).Head? && WireHead(rest).tl + WireHead(rest).len <= |rest|
    ensures var h := WireHead(rest); var t := Tlv(rest[0], Value(rest, h));
            && |t.value| < 0x8000 && (h.tl == 2 ==> |t.value| <= 0x7f)
            && rest == OneWire(t, h.tl == 2) + rest[h.tl + h.len..]
  {
    var h := WireHead(rest);
    if h.tl == 3 {
      HeadFacts(rest[1], rest[2]);
    }
  }

  lemma {:induction false} ExpandDone(in_len: nat, rest: Octets) returns (l: seq<Tlv>, short: seq<bool>)
    requires Expand(in_len, rest).Done?
    ensures Choice(l, short) && rest == Wire(l, short)
    decreases |rest|
  {
    hide WireHead, OneWire;
    if rest == [] {
      l, short := [], [];
    } else {
      var h := WireHead(rest);
      ReadIsWireElement(rest);
      var t := Tlv(rest[0], Value(rest, h));
      var l', short' := ExpandDone(in_len, rest[h.tl + h.len..]);
      l, short := [t] + l', [h.tl == 2] + short';
      assert l[1..] == l' && short[1..] == short';
    }
  }

  /** Expanding succeeds with z exactly if the input is a list of elements in wire form, each in the form of its
      choice, and z is the same list with 16-bit lengths. */
  lemma ExpandReadsWire(x: Octets, z: Octets)
    ensures Expand(|x|, x) == Done(z)
       <==> exists l, short :: Choice(l, short) && x == Wire(l, short) && z == Form16(l)
  {
    hide Wire, Form16, Expand;
    if Expand(|x|, x) == Done(z) {
      var l, short := ExpandDone(|x|, x);
      ExpandWhole(l, short);
    }
    forall l, short | Choice(l, short) && x == Wire(l, short) && z == Form16(l)
      ensures Expand(|x|, x) == Done(z)
    {
      ExpandWhole(l, short);
    }
  }

  lemma ExpandWhole(l: seq<Tlv>, short: seq<bool>)
    requires Choice(l, short)
    ensures Expand(|Wire(l, short)|, Wire(l, short)) == Done(Form16(l))
  {
    hide Wire, Form16;
    assert Wire(l, short) + [] == Wire(l, short);
    ExpandWire(|Wire(l, short)|, l, short, []);
    DoneAfter(Form16(l));
  }

  // ----- compacting

  /** What compact_tlv_part writes for any list, including elements too long for the wire form. */
  function Compacted(l: seq<Tlv>): Octets
    requires Fits(l, 0x1_0000)
  {
    if l == [] then [] else WrittenShortest(l[0].tag, l[0].value) + Compacted(l[1..])
  }

  lemma Element16Read(t: Tlv, tail: Octets)
    requires |t.value| < 0x1_0000
    ensures var rest := One16(t) + tail; var h := Head16(rest);
            && h == Head(3, |t.value|) && 3 + h.len <= |rest| && rest[0] == t.tag
            && Value(rest, h) == t.value && rest[3 + h.len..] == tail
  {
    LenFacts(|t.value|);
  }

  lemma {:induction false} CompactForm16(in_len: nat, l: seq<Tlv>, tail: Octets)
    requires Fits(l, 0x1_0000) && |Form16(l) + tail| <= in_len
    ensures Compact(in_len, Form16(l) + tail) == Compact(in_len, tail).After(Compacted(l))
    decreases |l|
  {
    hide Head16, Value, One16, WrittenShortest, Outcome.After;
    if l == [] {
      assert Form16(l) + tail == tail;
      AfterEmpty(Compact(in_len, tail));
    } else {
      var rest := Form16(l[1..]) + tail;
      Element16Read(l[0], rest);
      assert Form16(l) + tail == One16(l[0]) + rest;
      One16Size(l[0]);
      CompactForm16(in_len, l[1..], tail);
      AfterAppend(Compact(in_len, tail), WrittenShortest(l[0].tag, l[0].value), Compacted(l[1..]));
    }
  }

  lemma CompactWhole(l: seq<Tlv>)
    requires Fits(l, 0x1_0000)
    ensures Compact(|Form16(l)|, Form16(l)) == Done(Compacted(l))
  {
    hide Form16, Compacted;
    assert Form16(l) + [] == Form16(l);
    CompactForm16(|Form16(l)|, l, []);
    DoneAfter(Compacted(l));
  }

  lemma {:induction false} CompactDone(in_len: nat, rest: Octets) returns (l: seq<Tlv>)
    requires Compact(in_len, rest).Done?
    ensures Fits(l, 0x1_0000) && rest == Form16(l)
    decreases |rest|
  {
    hide One16, Head16, WrittenShortest;
    if rest == [] {
      l := [];
    } else {
      var h := Head16(rest);
      ReadIsElement16(rest);
      var t := Tlv(rest[0], Value(rest, h));
      var l' := CompactDone(in_len, rest[h.tl + h.len..]);
      l := [t] + l';
      assert l[1..] == l';
    }
  }

  lemma ReadIsElement16(rest: Octets)
    requires Head16(rest).Head? && 3 + Head16(rest).len <= |rest|
    ensures var h := Head16(rest);
            rest == One16(Tlv(rest[0], Value(rest, h))) + rest[h.tl + h.len..]
  {
    hide Hi, Lo, Len16;
    HeadFacts(rest[1], rest[2]);
  }

  lemma {:induction false} CompactedIsShortest(l: seq<Tlv>)
    requires Fits(l, 0x8000)
    ensures Choice(l, Shortest(l)) && Compacted(l) == Wire(l, Shortest(l))
    decreases |l|
  {
    hide WrittenShortest, OneWire;
    if l != [] {
      CompactedIsShortest(l[1..]);
      WrittenIsOneWire(l[0]);
      assert Shortest(l)[1..] == Shortest(l[1..]);
      assert Shortest(l)[0] == (|l[0].value| <= 0x7f);
    }
  }

  lemma WrittenIsOneWire(t: Tlv)
    requires |t.value| < 0x8000
    ensures WrittenShortest(t.tag, t.value) == OneWire(t, |t.value| <= 0x7f)
  {
    hide Hi, Lo, Short;
  }

  // ----- the two undo each other exactly for lengths below 2^15

  lemma TooLongElement(in_len: nat, t: Tlv, tail: Octets, z: Octets)
    requires 0x8000 <= |t.value| < 0x1_0000
    ensures Expand(in_len, WrittenShortest(t.tag, t.value) + tail) != Done(One16(t) + z)
  {
    hide Value, Expand;
    var x := WrittenShortest(t.tag, t.value) + tail;
    LenFacts(|t.value|);
    assert x[1] == Hi(|t.value|) && Ebit(x[1]);
    if Expand(in_len, x).Done? {
      ExpandSecondOctet(in_len, x);
    }
    assert (One16(t) + z)[1] == Hi(|t.value|);
  }

  /** After a set E bit the expanded form has a length octet of 0. */
  lemma ExpandSecondOctet(in_len: nat, x: Octets)
    requires |x| >= 2 && Ebit(x[1]) && Expand(in_len, x).Done?
    ensures |Expand(in_len, x).out| >= 2 && Expand(in_len, x).out[1] == 0
  {
  }

  lemma {:induction false} NotUndone(in_len: nat, l: seq<Tlv>)
    requires Fits(l, 0x1_0000) && !Fits(l, 0x8000) && |Compacted(l)| <= in_len
    ensures Expand(in_len, Compacted(l)) != Done(Form16(l))
    decreases |l|
  {
    hide WrittenShortest, One16, Expand;
    var tail := Compacted(l[1..]);
    if |l[0].value| >= 0x8000 {
      TooLongElement(in_len, l[0], tail, Form16(l[1..]));
    } else {
      NotUndone(in_len, l[1..]);
      var one := [l[0]];
      CompactedIsShortest(one);
      OneCompacted(l[0]);
      ExpandWire(in_len, one, Shortest(one), tail);
      if Expand(in_len, Compacted(l)) == Done(Form16(l)) {
        AfterStrips(Expand(in_len, tail), One16(l[0]), Form16(l[1..]));
      }
    }
  }

  lemma OneCompacted(t: Tlv)
    requires |t.value| < 0x1_0000
    ensures Compacted([t]) == WrittenShortest(t.tag, t.value) && Form16([t]) == One16(t)
  {
    assert [t][1..] == [];
  }

  lemma AfterStrips(o: Outcome, a: Octets, b: Octets)
    requires o.After(a) == Done(a + b)
    ensures o == Done(b)
  {
    assert o.out == (a + o.out)[|a|..];
    assert b == (a + b)[|a|..];
  }

  /** A list with 16-bit lengths in which no element is longer than 0x7fff octets. */
  ghost predicate WireSized(y: Octets) {
    exists l :: Fits(l, 0x8000) && y == Form16(l)
  }

  /** Whatever compact accepts, expanding its result gives the input back exactly if no element is longer than 0x7fff
      octets. Longer ones set the E bit by accident. */
  lemma ExpandUndoesCompact(y: Octets)
    requires Compact(|y|, y).Done?
    ensures var c := Compact(|y|, y).out;
            Expand(|c|, c) == Done(y) <==> WireSized(y)
  {
    hide Compact, Expand, Form16, Compacted;
    var l := CompactDone(|y|, y);
    CompactWhole(l);
    if Fits(l, 0x8000) {
      CompactedIsShortest(l);
      ExpandWhole(l, Shortest(l));
    } else {
      NotUndone(|Compacted(l)|, l);
      forall l' | Fits(l', 0x8000)
        ensures y != Form16(l')
      {
        if y == Form16(l') {
          Form16Injective(l, l');
        }
      }
    }
  }

  lemma {:induction false} Form16Injective(l: seq<Tlv>, l': seq<Tlv>)
    requires Fits(l, 0x1_0000) && Fits(l', 0x1_0000) && Form16(l) == Form16(l')
    ensures l == l'
    decreases |l|
  {
    hide Head16, Value, One16;
    if l != [] {
      Element16Read(l[0], Form16(l[1..]));
      One16Size(l[0]);
    }
    if l' != [] {
      Element16Read(l'[0], Form16(l'[1..]));
      One16Size(l'[0]);
    }
    if l != [] && l' != [] {
      Form16Injective(l[1..], l'[1..]);
      assert l == [l[0]] + l[1..] && l' == [l'[0]] + l'[1..];
    }
  }

  // ----- compacting what was expanded gives the unique shortest form

  lemma {:induction false} ShortestIsShortest(l: seq<Tlv>, short: seq<bool>)
    requires Choice(l, short)
    ensures Choice(l, Shortest(l))
    ensures |Wire(l, Shortest(l))| <= |Wire(l, short)|
    ensures |Wire(l, Shortest(l))| == |Wire(l, short)| ==> short == Shortest(l)
    decreases |l|
  {
    hide OneWire;
    if l != [] {
      ShortestIsShortest(l[1..], short[1..]);
      assert Shortest(l)[1..] == Shortest(l[1..]);
      OneWireSize(l[0], short[0]);
      OneWireSize(l[0], Shortest(l)[0]);
      if |Wire(l, Shortest(l))| == |Wire(l, short)| {
        assert short == [short[0]] + short[1..] && Shortest(l) == [Shortest(l)[0]] + Shortest(l[1..]);
      }
    }
  }

  /** If x expands to z, compacting z gives a form c that expands to z too, is no longer than x, and as long only if it
      is x. Applied to x = c, compacting and expanding is idempotent. */
  lemma CompactIsUniqueShortest(x: Octets, z: Octets)
    requires Expand(|x|, x) == Done(z)
    ensures Compact(|z|, z).Done?
    ensures var c := Compact(|z|, z).out;
            && Expand(|c|, c) == Done(z)
            && |c| <= |x|
            && (|c| == |x| ==> c == x)
  {
    hide Compact, Expand, Form16, Compacted, Wire;
    var l, short := ExpandDone(|x|, x);
    ExpandWhole(l, short);
    CompactWhole(l);
    CompactedIsShortest(l);
    ExpandWhole(l, Shortest(l));
    ShortestIsShortest(l, short);
  }

  // ----- truncated input

  /** Whether an element ends before its head or its value is complete. */
  predicate Truncated(cut: Octets, h: Head) { cut != [] && (h.Head? ==> |cut| < h.tl + h.len) }

  /** A list of complete elements, then one that is cut short: the expanding scanner notices exactly if the head is
      incomplete or announces an element larger than the whole input, because the check leaves the offset out. */
  lemma TruncationDetected(l: seq<Tlv>, short: seq<bool>, cut: Octets)
    requires Choice(l, short) && Truncated(cut, WireHead(cut))
    ensures var x, h := Wire(l, short) + cut, WireHead(cut);
            Expand(|x|, x) == if h.Cut? || |x| < h.tl + h.len then Rejected else OverRead
  {
    hide Wire, Form16, WireHead, Outcome.After;
    var x := Wire(l, short) + cut;
    ExpandWire(|x|, l, short, cut);
    RefusedAfter(Form16(l));
  }

  /** The compacting scanner has the same check, and the same gap. */
  lemma CompactTruncationDetected(l: seq<Tlv>, cut: Octets)
    requires Fits(l, 0x1_0000) && Truncated(cut, Head16(cut))
    ensures var x, h := Form16(l) + cut, Head16(cut);
            Compact(|x|, x) == if h.Cut? || |x| < h.tl + h.len then Rejected else OverRead
  {
    hide Form16, Compacted, Head16, Outcome.After;
    var x := Form16(l) + cut;
    CompactForm16(|x|, l, cut);
    RefusedAfter(Compacted(l));
  }

  /** Two elements with 16-bit lengths, the second one short of three octets: not noticed. */
  lemma CompactTruncationMissed()
    ensures Compact(9, [0x01, 0x00, 0x02, 0x0a, 0x0b, 0x02, 0x00, 0x04, 0x0c]) == OverRead
  {
    hide Compact;
    var l := [Tlv(0x01, [0x0a, 0x0b])];
    var cut: Octets := [0x02, 0x00, 0x04, 0x0c];
    assert Head16(cut) == Head(3, 4);
    assert l[1..] == [];
    assert Form16(l) == [0x01, 0x00, 0x02, 0x0a, 0x0b];
    assert Form16(l) + cut == [0x01, 0x00, 0x02, 0x0a, 0x0b, 0x02, 0x00, 0x04, 0x0c];
    CompactTruncationDetected(l, cut);
  }

  /** Two elements, the second one short of three octets: not noticed. */
  lemma TruncationMissed()
    ensures Expand(7, [0x01, 0x82, 0x0a, 0x0b, 0x02, 0x84, 0x0c]) == OverRead
  {
    hide Expand;
    var l := [Tlv(0x01, [0x0a, 0x0b])];
    var cut: Octets := [0x02, 0x84, 0x0c];
    assert WireHead(cut) == Head(2, 4);
    assert l[1..] == [];
    assert Wire(l, [true]) == [0x01, 0x82, 0x0a, 0x0b];
    assert Wire(l, [true]) + cut == [0x01, 0x82, 0x0a, 0x0b, 0x02, 0x84, 0x0c];
    TruncationDetected(l, [true], cut);
  }

  // ----- whole messages: a fixed header, then the elements

  const BSSGP_PDUT_DL_UNITDATA: Octet := 0x00
  const BSSGP_PDUT_UL_UNITDATA: Octet := 0x01
  const NS_PDUT_NS_UNITDATA: Octet := 0x00

  function BssgpHeaderLen(pdu_type: Octet): nat {
    if pdu_type == BSSGP_PDUT_DL_UNITDATA || pdu_type == BSSGP_PDUT_UL_UNITDATA then 8 else 1
  }

  function BssgpExpand(m: Octets): Outcome {
    if m == [] then OverRead
    else
      var h := BssgpHeaderLen(m[0]);
      if |m| < h then Rejected else Expand(|m| - h, m[h..]).After(m[..h])
  }

  function BssgpCompact(m: Octets): Outcome {
    if m == [] then OverRead
    else
      var h := BssgpHeaderLen(m[0]);
      if |m| < h then Rejected else Compact(|m| - h, m[h..]).After(m[..h])
  }

  function NsExpand(m: Octets): Outcome {
    if m == [] then OverRead
    else if m[0] == NS_PDUT_NS_UNITDATA then Done(m)
    else Expand(|m| - 1, m[1..]).After(m[..1])
  }

  function NsCompact(m: Octets): Outcome {
    if m == [] then OverRead
    else if m[0] == NS_PDUT_NS_UNITDATA then Done(m)
    else Compact(|m| - 1, m[1..]).After(m[..1])
  }

  /** The type octet is read before the length is checked, so an empty message is read beyond its end. */
  method f__BSSGP__expand__len(m: Octets) returns (r: Outcome)
    ensures r == BssgpExpand(m)
  {
    hide Expand, Compact;
    if |m| == 0 {
      return OverRead;
    }
    var static_hdr_len := 1;
    if m[0] == BSSGP_PDUT_DL_UNITDATA || m[0] == BSSGP_PDUT_UL_UNITDATA {
      static_hdr_len := 8;
    }
    if |m| < static_hdr_len {
      return Rejected;
    }
    var tlv := expand_tlv_part(m[static_hdr_len..]);
    r := tlv.After(m[..static_hdr_len]);
  }

  method f__BSSGP__compact__len(m: Octets) returns (r: Outcome)
    ensures r == BssgpCompact(m)
  {
    hide Expand, Compact;
    if |m| == 0 {
      return OverRead;
    }
    var static_hdr_len := 1;
    if m[0] == BSSGP_PDUT_DL_UNITDATA || m[0] == BSSGP_PDUT_UL_UNITDATA {
      static_hdr_len := 8;
    }
    if |m| < static_hdr_len {
      return Rejected;
    }
    var tlv := compact_tlv_part(m[static_hdr_len..]);
    r := tlv.After(m[..static_hdr_len]);
  }

  method f__NS__expand__len(m: Octets) returns (r: Outcome)
    ensures r == NsExpand(m)
  {
    hide Expand, Compact;
    if |m| == 0 {
      return OverRead;
    }
    if m[0] == NS_PDUT_NS_UNITDATA {
      return Done(m);
    }
    var tlv := expand_tlv_part(m[1..]);
    r := tlv.After(m[..1]);
  }

  method f__NS__compact__len(m: Octets) returns (r: Outcome)
    ensures r == NsCompact(m)
  {
    hide Expand, Compact;
    if |m| == 0 {
      return OverRead;
    }
    if m[0] == NS_PDUT_NS_UNITDATA {
      return Done(m);
    }
    var tlv := compact_tlv_part(m[1..]);
    r := tlv.After(m[..1]);
  }

  /** The header survives both ways, so what holds of the elements holds of whole messages. */
  lemma HeaderKept(h: Octets, c: Octets)
    requires h != []
    ensures (h + c)[0] == h[0] && (h + c)[|h|..] == c && (h + c)[..|h|] == h
  {
  }

  lemma BssgpExpandUndoesCompact(y: Octets)
    requires BssgpCompact(y).Done?
    ensures BssgpExpand(BssgpCompact(y).out) == Done(y) <==> WireSized(y[BssgpHeaderLen(y[0])..])
  {
    hide Compact, Expand, Form16;
    var h := BssgpHeaderLen(y[0]);
    var c := Compact(|y| - h, y[h..]).out;
    HeaderKept(y[..h], c);
    ExpandUndoesCompact(y[h..]);
    assert y[..h] + y[h..] == y;
    if BssgpExpand(y[..h] + c) == Done(y) {
      AfterStrips(Expand(|c|, c), y[..h], y[h..]);
    }
  }

  lemma BssgpCompactIsUniqueShortest(x: Octets, z: Octets)
    requires BssgpExpand(x) == Done(z)
    ensures BssgpCompact(z).Done?
    ensures var c := BssgpCompact(z).out;
            BssgpExpand(c) == Done(z) && |c| <= |x| && (|c| == |x| ==> c == x)
  {
    hide Compact, Expand;
    var h := BssgpHeaderLen(x[0]);
    var e := Expand(|x| - h, x[h..]).out;
    HeaderKept(x[..h], e);
    CompactIsUniqueShortest(x[h..], e);
    HeaderKept(x[..h], Compact(|e|, e).out);
    assert x[..h] + x[h..] == x;
  }

  lemma NsExpandUndoesCompact(y: Octets)
    requires NsCompact(y).Done?
    ensures NsExpand(NsCompact(y).out) == Done(y) <==> y[0] == NS_PDUT_NS_UNITDATA || WireSized(y[1..])
  {
    hide Compact, Expand, Form16;
    if y[0] != NS_PDUT_NS_UNITDATA {
      var c := Compact(|y| - 1, y[1..]).out;
      HeaderKept(y[..1], c);
      ExpandUndoesCompact(y[1..]);
      assert y[..1] + y[1..] == y;
      if NsExpand(y[..1] + c) == Done(y) {
        AfterStrips(Expand(|c|, c), y[..1], y[1..]);
      }
    }
  }

  lemma NsCompactIsUniqueShortest(x: Octets, z: Octets)
    requires NsExpand(x) == Done(z)
    ensures NsCompact(z).Done?
    ensures var c := NsCompact(z).out;
            NsExpand(c) == Done(z) && |c| <= |x| && (|c| == |x| ==> c == x)
  {
    hide Compact, Expand;
    if x[0] != NS_PDUT_NS_UNITDATA {
      var e := Expand(|x| - 1, x[1..]).out;
      HeaderKept(x[..1], e);
      CompactIsUniqueShortest(x[1..], e);
      HeaderKept(x[..1], Compact(|e|, e).out);
      assert x[..1] + x[1..] == x;
    }
  }
}
