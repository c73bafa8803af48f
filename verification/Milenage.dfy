/** Authentication and key agreement with Milenage (3GPP TS 35.206, section 4.1; TS 33.102, sections 6.3.3 and 6.3.5):
    the network makes an authentication token, the USIM checks it, and if the sequence numbers are out of step the
    USIM's answer brings the network back in step. */
module Milenage {
  import opened Gf8
  import opened Options

  type Octets = seq<bv8>

  type Block = s: Octets | |s| == 16 witness seq(16, _ => 0)
  type Sqn = s: Octets | |s| == 6 witness seq(6, _ => 0)
  type Amf = s: Octets | |s| == 2 witness seq(2, _ => 0)

  /** AES-128 on one block, key first. Nothing but its type is known of it. */
  type Cipher = (Block, Block) -> Block

  // ----- octet strings

  function Xor(a: Octets, b: Octets): (r: Octets)
    requires |a| == |b|
    ensures |r| == |a|
  {
    seq(|a|, i requires 0 <= i < |a| => Xor8(a[i], b[i]))
  }

  lemma XorCancel(a: Octets, b: Octets)
    requires |a| == |b|
    ensures Xor(Xor(a, b), b) == a
  {
    hide Xor8;
    forall i | 0 <= i < |a|
      ensures Xor(Xor(a, b), b)[i] == a[i]
    {
      Cancel(a[i], b[i]);
    }
  }

  /** Rotation to the left by n octets. */
  function Rot(a: Block, n: nat): Block {
    seq(16, j requires 0 <= j < 16 => a[(j + n) % 16])
  }

  function Value(o: bv8): nat { o as nat }

  /** The big-endian number an octet string stands for. */
  function Number(s: Octets): nat {
    if s == [] then 0 else Value(s[0]) * Power256(|s| - 1) + Number(s[1..])
  }

  function Power256(n: nat): nat { if n == 0 then 1 else 256 * Power256(n - 1) }

  /** memcmp: the sign of the first difference. */
  function Memcmp(a: Octets, b: Octets): int
    requires |a| == |b|
  {
    if a == [] then 0
    else if a[0] < b[0] then -1
    else if a[0] > b[0] then 1
    else Memcmp(a[1..], b[1..])
  }

  lemma {:induction false} NumberBound(s: Octets)
    ensures Number(s) < Power256(|s|)
    decreases |s|
  {
    if s != [] {
      NumberBound(s[1..]);
      TopDigit(Value(s[0]), 256, Power256(|s| - 1), Number(s[1..]), 0);
    }
  }

  lemma TopDigit(a: nat, b: nat, p: nat, x: nat, y: nat)
    requires a < b && x < p
    ensures a * p + x < b * p + y
  {
    assert (a + 1) * p <= b * p;
  }

  lemma {:induction false} MemcmpIsNumeric(a: Octets, b: Octets)
    requires |a| == |b|
    ensures Memcmp(a, b) < 0 <==> Number(a) < Number(b)
    ensures Memcmp(a, b) > 0 <==> Number(a) > Number(b)
    ensures Memcmp(a, b) == 0 <==> a == b
    decreases |a|
  {
    hide Number, Power256, Value;
    if a != [] {
      NumberBound(a[1..]);
      NumberBound(b[1..]);
      NumberForm(a);
      NumberForm(b);
      MemcmpIsNumeric(a[1..], b[1..]);
      OctetOrder(a[0], b[0]);
      LeadDigit(Value(a[0]), Value(b[0]), Power256(|a| - 1), Number(a[1..]), Number(b[1..]));
      assert a == [a[0]] + a[1..] && b == [b[0]] + b[1..];
    } else {
      assert b == a;
    }
  }

  lemma NumberForm(s: Octets)
    requires s != []
    ensures Number(s) == Value(s[0]) * Power256(|s| - 1) + Number(s[1..])
  {
  }

  lemma LeadDigit(a: nat, b: nat, p: nat, x: nat, y: nat)
    requires x < p && y < p
    ensures a * p + x < b * p + y <==> a < b || (a == b && x < y)
    ensures a * p + x > b * p + y <==> a > b || (a == b && x > y)
  {
    if a < b {
      TopDigit(a, b, p, x, y);
    } else if b < a {
      TopDigit(b, a, p, y, x);
    }
  }

  lemma OctetOrder(a: bv8, b: bv8)
    ensures a < b <==> Value(a) < Value(b)
    ensures a == b <==> Value(a) == Value(b)
  {
  }

  // ----- the functions of the standard

  datatype Subscriber = Subscriber(aes: Cipher, opc: Block, k: Block) {

    function Temp(rnd: Block): Block { aes(k, Xor(rnd, opc)) }

    /** OUT1: MAC-A is its first half, MAC-S its second. */
    function Out1(rnd: Block, sqn: Sqn, amf: Amf): Block {
      var in1 := sqn + amf + sqn + amf;
      Xor(aes(k, Xor(Rot(Xor(in1, opc), 8), Temp(rnd))), opc)
    }

    /** OUT2 to OUT5: rotation by r octets, then the constant c in the last octet. */
    function Out(rnd: Block, r: nat, c: bv8): Block {
      var x := Rot(Xor(Temp(rnd), opc), r);
      Xor(aes(k, x[15 := Xor8(x[15], c)]), opc)
    }

    function MacA(rnd: Block, sqn: Sqn, amf: Amf): Octets { Out1(rnd, sqn, amf)[..8] }

    function MacS(rnd: Block, sqn: Sqn, amf: Amf): Octets { Out1(rnd, sqn, amf)[8..] }

    function Res(rnd: Block): Octets { Out(rnd, 0, 1)[8..] }

    function AK(rnd: Block): Sqn { Out(rnd, 0, 1)[..6] }

    function CK(rnd: Block): Block { Out(rnd, 4, 2) }

    function IK(rnd: Block): Block { Out(rnd, 8, 4) }

    function AKStar(rnd: Block): Sqn { Out(rnd, 12, 8)[..6] }

    /** AUTN = (SQN + AK) || AMF || MAC-A. */
    function Autn(rnd: Block, sqn: Sqn, amf: Amf): Block {
      Xor(sqn, AK(rnd)) + amf + MacA(rnd, sqn, amf)
    }

    /** AUTS = (SQN + AK*) || MAC-S, with an AMF of zeros. */
    function Auts(rnd: Block, sqn: Sqn): (r: Octets)
      ensures |r| == 14
    {
      Xor(sqn, AKStar(rnd)) + MacS(rnd, sqn, ZERO_AMF)
    }

    /** What a token claims as its sequence number. */
    function Claimed(rnd: Block, autn: Block): Sqn { Xor(autn[..6], AK(rnd)) }
  }

  const ZERO_AMF: Amf := [0, 0]

  // ----- the source's functions

  method milenage_f1(s: Subscriber, rnd: Block, sqn: Sqn, amf: Amf) returns (mac_a: Octets, mac_s: Octets)
    ensures mac_a == s.MacA(rnd, sqn, amf) && mac_s == s.MacS(rnd, sqn, amf)
  {
    hide Xor8;
    var tmp1 := new bv8[16];
    var tmp2 := new bv8[16];
    var tmp3 := new bv8[16];
    for i := 0 to 16
      invariant forall j :: 0 <= j < i ==> tmp1[j] == Xor8(rnd[j], s.opc[j])
    {
      tmp1[i] := Xor8(rnd[i], s.opc[i]);
    }
    assert tmp1[..] == Xor(rnd, s.opc);
    Store(tmp1, s.aes(s.k, tmp1[..]));
    Store(tmp2, sqn + amf + sqn + amf);
    RotateInto(tmp3, tmp2[..], s.opc, 8);
    XorInto(tmp3, tmp1[..]);
    Store(tmp1, s.aes(s.k, tmp3[..]));
    XorInto(tmp1, s.opc);
    mac_a := tmp1[..8];
    mac_s := tmp1[8..];
  }

  method Store(a: array<bv8>, b: Block)
    requires a.Length == 16
    modifies a
    ensures a[..] == b
  {
    for i := 0 to 16
      invariant forall j :: 0 <= j < i ==> a[j] == b[j]
    {
      a[i] := b[i];
    }
  }

  method XorInto(a: array<bv8>, b: Block)
    requires a.Length == 16
    modifies a
    ensures a[..] == Xor(old(a[..]), b)
  {
    hide Xor8;
    for i := 0 to 16
      invariant forall j :: 0 <= j < i ==> a[j] == Xor8(old(a[j]), b[j])
      invariant forall j :: i <= j < 16 ==> a[j] == old(a[j])
    {
      a[i] := Xor8(a[i], b[i]);
    }
  }

  /** The loop that adds OPc and rotates: octet i goes to place (i + 16 - r) mod 16. */
  method RotateInto(a: array<bv8>, b: Block, opc: Block, r: nat)
    requires a.Length == 16 && r <= 16
    modifies a
    ensures a[..] == Rot(Xor(b, opc), r)
  {
    hide Xor8;
    for i := 0 to 16
      invariant forall j :: 0 <= j < i ==> a[(j + 16 - r) % 16] == Xor8(b[j], opc[j])
    {
      a[(i + 16 - r) % 16] := Xor8(b[i], opc[i]);
    }
    Rotated(a[..], Xor(b, opc), r);
  }

  /** Writing octet j to place (j + 16 - n) mod 16 is a rotation to the left by n. */
  lemma Rotated(a: Block, b: Block, n: nat)
    requires n <= 16
    requires forall j :: 0 <= j < 16 ==> a[(j + 16 - n) % 16] == b[j]
    ensures a == Rot(b, n)
  {
    forall i | 0 <= i < 16
      ensures a[i] == Rot(b, n)[i]
    {
      var j := if i + n < 16 then i + n else i + n - 16;
      TurnBack(i, n, j);
      assert a[(j + 16 - n) % 16] == b[j];
    }
  }

  lemma TurnBack(i: nat, n: nat, j: nat)
    requires i < 16 && n <= 16
    requires j == if i + n < 16 then i + n else i + n - 16
    ensures (i + n) % 16 == j && (j + 16 - n) % 16 == i
  {
  }

  /** The step that f2/f5, f3, f4 and f5* share: rotate, add the constant, encrypt, add OPc. tmp2 holds TEMP. */
  method OutBlock(s: Subscriber, rnd: Block, tmp2: array<bv8>, r: nat, c: bv8) returns (out: Block)
    requires tmp2.Length == 16 && r <= 16 && tmp2[..] == s.Temp(rnd)
    ensures out == s.Out(rnd, r, c)
  {
    hide Xor8;
    var tmp1 := new bv8[16];
    RotateInto(tmp1, tmp2[..], s.opc, r);
    tmp1[15] := Xor8(tmp1[15], c);
    Store(tmp1, s.aes(s.k, tmp1[..]));
    XorInto(tmp1, s.opc);
    out := tmp1[..];
  }

  method milenage_f2345(s: Subscriber, rnd: Block)
    returns (res: Octets, ck: Block, ik: Block, ak: Sqn, akstar: Sqn)
    ensures res == s.Res(rnd) && ck == s.CK(rnd) && ik == s.IK(rnd)
    ensures ak == s.AK(rnd) && akstar == s.AKStar(rnd)
  {
    hide Subscriber.Out;
    var tmp2 := new bv8[16];
    Store(tmp2, rnd);
    XorInto(tmp2, s.opc);
    Store(tmp2, s.aes(s.k, tmp2[..]));
    var tmp3 := OutBlock(s, rnd, tmp2, 0, 1);
    res := tmp3[8..];
    ak := tmp3[..6];
    ck := OutBlock(s, rnd, tmp2, 4, 2);
    ik := OutBlock(s, rnd, tmp2, 8, 4);
    var tmp1 := OutBlock(s, rnd, tmp2, 12, 8);
    akstar := tmp1[..6];
  }

  datatype Vector = Vector(autn: Block, ik: Block, ck: Block, res: Octets)

  /** Nothing is made if there is no room for the 8 octets of RES. */
  method milenage_generate(s: Subscriber, amf: Amf, sqn: Sqn, rnd: Block, room: nat) returns (v: Option<Vector>)
    ensures v == if room < 8 then None
                 else Some(Vector(s.Autn(rnd, sqn, amf), s.IK(rnd), s.CK(rnd), s.Res(rnd)))
  {
    hide Subscriber.Out, Subscriber.Out1;
    if room < 8 {
      return None;
    }
    var mac_a, _ := milenage_f1(s, rnd, sqn, amf);
    var res, ck, ik, ak, _ := milenage_f2345(s, rnd);
    var concealed := XorSix(sqn, ak);
    v := Some(Vector(concealed + amf + mac_a, ik, ck, res));
  }

  method XorSix(a: Sqn, b: Sqn) returns (r: Sqn)
    ensures r == Xor(a, b)
  {
    hide Xor8;
    var t := new bv8[6];
    for i := 0 to 6
      invariant forall j :: 0 <= j < i ==> t[j] == Xor8(a[j], b[j])
    {
      t[i] := Xor8(a[i], b[i]);
    }
    r := t[..];
  }

  /** What the network makes of AUTS: the sequence number of the USIM, if MAC-S is right. */
  function Resync(s: Subscriber, rnd: Block, auts: Octets): Option<Sqn>
    requires |auts| == 14
  {
    var sqn := Xor(auts[..6], s.AKStar(rnd));
    if s.MacS(rnd, sqn, ZERO_AMF) == auts[6..] then Some(sqn) else None
  }

  method milenage_auts(s: Subscriber, rnd: Block, auts: Octets) returns (r: Option<Sqn>)
    requires |auts| == 14
    ensures r == Resync(s, rnd, auts)
  {
    hide Subscriber.Out, Subscriber.Out1;
    var _, _, _, _, ak := milenage_f2345(s, rnd);
    var sqn := XorSix(auts[..6], ak);
    var _, mac_s := milenage_f1(s, rnd, sqn, ZERO_AMF);
    MemcmpIsNumeric(mac_s, auts[6..]);
    if Memcmp(mac_s, auts[6..]) != 0 {
      return None;
    }
    r := Some(sqn);
  }

  /** The three ways out of milenage_check: 0, -2 with AUTS, -1. RES, CK and IK are filled in in any case. */
  datatype Verdict = Accepted | OutOfStep(auts: Octets) | Refused

  function Check(s: Subscriber, sqn: Sqn, rnd: Block, autn: Block): Verdict {
    var rx_sqn := s.Claimed(rnd, autn);
    if Memcmp(rx_sqn, sqn) <= 0 then OutOfStep(s.Auts(rnd, sqn))
    else if s.MacA(rnd, rx_sqn, autn[6..8]) != autn[8..] then Refused
    else Accepted
  }

  method milenage_check(s: Subscriber, sqn: Sqn, rnd: Block, autn: Block)
    returns (r: Verdict, ik: Block, ck: Block, res: Octets)
    ensures r == Check(s, sqn, rnd, autn)
    ensures ik == s.IK(rnd) && ck == s.CK(rnd) && res == s.Res(rnd)
  {
    hide Subscriber.Out, Subscriber.Out1, Memcmp;
    var ak, akstar, auts;
    res, ck, ik, ak, akstar := milenage_f2345(s, rnd);
    var rx_sqn := XorSix(autn[..6], ak);
    if Memcmp(rx_sqn, sqn) <= 0 {
      auts := XorSix(sqn, akstar);
      var _, mac_s := milenage_f1(s, rnd, sqn, ZERO_AMF);
      return OutOfStep(auts + mac_s), ik, ck, res;
    }
    var mac_a, _ := milenage_f1(s, rnd, rx_sqn, autn[6..8]);
    MemcmpIsNumeric(mac_a, autn[8..]);
    if Memcmp(mac_a, autn[8..]) != 0 {
      return Refused, ik, ck, res;
    }
    r := Accepted;
  }

  // ----- agreement of network and USIM

  lemma TokenParts(s: Subscriber, rnd: Block, sqn: Sqn, amf: Amf)
    ensures var autn := s.Autn(rnd, sqn, amf);
            && s.Claimed(rnd, autn) == sqn && autn[6..8] == amf && autn[8..] == s.MacA(rnd, sqn, amf)
  {
    hide Subscriber.Out, Subscriber.Out1, Xor;
    XorCancel(sqn, s.AK(rnd));
    var x := Xor(sqn, s.AK(rnd));
    assert s.Autn(rnd, sqn, amf)[..6] == x;
  }

  /** A genuine token is accepted exactly if its 48-bit sequence number exceeds that of the USIM. Otherwise the USIM
      answers with an AUTS from which the network recovers the sequence number of the USIM. */
  lemma Agreement(s: Subscriber, rnd: Block, sqn: Sqn, amf: Amf, usim: Sqn)
    ensures var r := Check(s, usim, rnd, s.Autn(rnd, sqn, amf));
            && (r == Accepted <==> Number(sqn) > Number(usim))
            && (r != Accepted ==> r == OutOfStep(s.Auts(rnd, usim)) && Resync(s, rnd, r.auts) == Some(usim))
  {
    hide Subscriber.Out, Subscriber.Out1, Xor, Memcmp, Number;
    TokenParts(s, rnd, sqn, amf);
    MemcmpIsNumeric(sqn, usim);
    AnswerParts(s, rnd, usim);
  }

  lemma AnswerParts(s: Subscriber, rnd: Block, sqn: Sqn)
    ensures Resync(s, rnd, s.Auts(rnd, sqn)) == Some(sqn)
  {
    hide Subscriber.Out, Subscriber.Out1, Xor;
    XorCancel(sqn, s.AKStar(rnd));
    var x := Xor(sqn, s.AKStar(rnd));
    assert s.Auts(rnd, sqn)[..6] == x && s.Auts(rnd, sqn)[6..] == s.MacS(rnd, sqn, ZERO_AMF);
  }

  /** One resynchronisation is enough: after a refusal for the sequence number, the network knows the number of the
      USIM, and any larger one is accepted, under whatever challenge and AMF. */
  lemma OneResyncIsEnough(s: Subscriber, rnd: Block, sqn: Sqn, amf: Amf, usim: Sqn, rnd': Block, sqn': Sqn, amf': Amf)
    requires Check(s, usim, rnd, s.Autn(rnd, sqn, amf)) != Accepted
    ensures var r := Check(s, usim, rnd, s.Autn(rnd, sqn, amf));
            && r.OutOfStep? && |r.auts| == 14
            && Resync(s, rnd, r.auts).Some?
            && (Number(sqn') > Number(Resync(s, rnd, r.auts).value)
                ==> Check(s, usim, rnd', s.Autn(rnd', sqn', amf')) == Accepted)
  {
    hide Check, Resync, Subscriber.Autn, Subscriber.Auts, Number;
    Agreement(s, rnd, sqn, amf, usim);
    Agreement(s, rnd', sqn', amf', usim);
  }

  // ----- what the two sides accept at all

  /** The USIM accepts exactly the tokens the network makes for a larger sequence number. */
  lemma AcceptedIsGenuine(s: Subscriber, rnd: Block, autn: Block, usim: Sqn)
    ensures Check(s, usim, rnd, autn) == Accepted
       <==> exists sqn: Sqn, amf: Amf :: autn == s.Autn(rnd, sqn, amf) && Number(sqn) > Number(usim)
  {
    hide Check, Subscriber.Autn, Number;
    var sqn, amf: Amf := s.Claimed(rnd, autn), autn[6..8];
    CheckForm(s, usim, rnd, autn);
    MemcmpIsNumeric(sqn, usim);
    if Check(s, usim, rnd, autn) == Accepted {
      TokenFromParts(s, rnd, autn);
    }
    forall sqn': Sqn, amf': Amf | autn == s.Autn(rnd, sqn', amf') && Number(sqn') > Number(usim)
      ensures Check(s, usim, rnd, autn) == Accepted
    {
      Agreement(s, rnd, sqn', amf', usim);
    }
  }

  lemma CheckForm(s: Subscriber, sqn: Sqn, rnd: Block, autn: Block)
    ensures Check(s, sqn, rnd, autn) == Accepted
       <==> Memcmp(s.Claimed(rnd, autn), sqn) > 0
            && s.MacA(rnd, s.Claimed(rnd, autn), autn[6..8]) == autn[8..]
    ensures Check(s, sqn, rnd, autn).OutOfStep? <==> Memcmp(s.Claimed(rnd, autn), sqn) <= 0
  {
    hide Subscriber.MacA, Subscriber.Claimed, Subscriber.Auts, Memcmp;
  }

  lemma TokenFromParts(s: Subscriber, rnd: Block, autn: Block)
    requires s.MacA(rnd, s.Claimed(rnd, autn), autn[6..8]) == autn[8..]
    ensures autn == s.Autn(rnd, s.Claimed(rnd, autn), autn[6..8])
  {
    hide Subscriber.Out, Subscriber.Out1, Xor;
    XorCancel(autn[..6], s.AK(rnd));
    assert autn == autn[..6] + autn[6..8] + autn[8..];
  }

  /** The network recovers sqn from an answer exactly if that is the answer a USIM at sqn gives. */
  lemma RecoveredIsGenuine(s: Subscriber, rnd: Block, auts: Octets, sqn: Sqn)
    requires |auts| == 14
    ensures Resync(s, rnd, auts) == Some(sqn) <==> auts == s.Auts(rnd, sqn)
  {
    hide Subscriber.Out, Subscriber.Out1, Xor;
    AnswerParts(s, rnd, sqn);
    if Resync(s, rnd, auts) == Some(sqn) {
      XorCancel(auts[..6], s.AKStar(rnd));
      assert auts == auts[..6] + auts[6..];
    }
  }

  /** TS 33.102, section 6.3.3, has the USIM check the MAC before the sequence number. The source compares the sequence
      numbers first: a token whose MAC is wrong is refused exactly if it claims a larger sequence number; otherwise it
      is answered with AUTS like a genuine one. */
  lemma WrongMacRefused(s: Subscriber, rnd: Block, autn: Block, usim: Sqn)
    requires s.MacA(rnd, s.Claimed(rnd, autn), autn[6..8]) != autn[8..]
    ensures Check(s, usim, rnd, autn) == Refused <==> Number(s.Claimed(rnd, autn)) > Number(usim)
    ensures Check(s, usim, rnd, autn) != Refused ==> Check(s, usim, rnd, autn) == OutOfStep(s.Auts(rnd, usim))
  {
    hide Subscriber.Out, Subscriber.Out1, Xor, Memcmp, Number;
    MemcmpIsNumeric(s.Claimed(rnd, autn), usim);
  }

  /** Such tokens exist for every challenge: claim the number of the USIM and spoil the MAC. */
  lemma WrongMacAnswered(s: Subscriber, rnd: Block, amf: Amf, usim: Sqn) returns (autn: Block)
    ensures s.MacA(rnd, s.Claimed(rnd, autn), autn[6..8]) != autn[8..]
    ensures Check(s, usim, rnd, autn) == OutOfStep(s.Auts(rnd, usim))
  {
    hide Subscriber.Out, Subscriber.Out1, Xor, Memcmp, Number;
    var good := s.Autn(rnd, usim, amf);
    TokenParts(s, rnd, usim, amf);
    MemcmpIsNumeric(usim, usim);
    autn := good[15 := if good[15] == 0 then 1 else 0];
    assert autn[..6] == good[..6] && autn[6..8] == good[6..8];
    assert autn[8..][7] != good[8..][7];
  }
}
