/** Milenage as 3GPP TS 35.206, section 4.1, writes it, octet by octet: what each of its six functions has the block
    cipher encrypt, and which octets of the result it takes; and the two tokens of TS 33.102, section 6.3. */
module MilenageStandard {
  import opened Gf8
  import opened Milenage

  predicate IsPlus(a: Block, b: Block, x: Block) { forall j | 0 <= j < 16 :: x[j] == a[j] ^ b[j] }

  /** TEMP: the cipher of RAND plus OPc. */
  ghost predicate IsTemp(s: Subscriber, rnd: Block, temp: Block) {
    exists x: Block :: IsPlus(rnd, s.opc, x) && temp == s.aes(s.k, x)
  }

  predicate IsTurned(s: Subscriber, temp: Block, turn: nat, c: bv8, x: Block) {
    forall j | 0 <= j < 16 ::
      x[j] == (temp[(j + turn) % 16] ^ s.opc[(j + turn) % 16]) ^ if j == 15 then c else 0
  }

  /** One of the blocks OUT2 to OUT5: TEMP plus OPc, turned to the left by so many octets, plus a constant in the last
      octet, enciphered, plus OPc. */
  ghost predicate IsOut(s: Subscriber, temp: Block, turn: nat, c: bv8, out: Block) {
    exists x: Block :: IsTurned(s, temp, turn, c, x) && IsPlus(s.aes(s.k, x), s.opc, out)
  }

  predicate IsMixed(s: Subscriber, temp: Block, sqn: Sqn, amf: Amf, x: Block) {
    forall j | 0 <= j < 16 ::
      x[j] == ((if j % 8 < 6 then sqn[j % 8] else amf[j % 8 - 6]) ^ s.opc[(j + 8) % 16]) ^ temp[j]
  }

  /** OUT1: SQN, AMF, SQN, AMF plus OPc, turned by eight octets, plus TEMP, enciphered, plus OPc. */
  ghost predicate IsOut1(s: Subscriber, temp: Block, sqn: Sqn, amf: Amf, out: Block) {
    exists x: Block :: IsMixed(s, temp, sqn, amf, x) && IsPlus(s.aes(s.k, x), s.opc, out)
  }

  lemma XorIs(a: bv8, b: bv8)
    ensures Xor8(a, b) == a ^ b
  {
  }

  lemma NoConstant(a: bv8)
    ensures a ^ 0 == a
  {
  }

  lemma XorIsPlus(a: Block, b: Block)
    ensures IsPlus(a, b, Xor(a, b))
  {
    hide Xor8;
    forall j | 0 <= j < 16
      ensures Xor(a, b)[j] == a[j] ^ b[j]
    {
      XorIs(a[j], b[j]);
    }
  }

  lemma TempIsTemp(s: Subscriber, rnd: Block)
    ensures IsTemp(s, rnd, s.Temp(rnd))
  {
    hide Xor, IsPlus;
    XorIsPlus(rnd, s.opc);
  }

  lemma OutIsOut(s: Subscriber, rnd: Block, turn: nat, c: bv8)
    ensures IsOut(s, s.Temp(rnd), turn, c, s.Out(rnd, turn, c))
  {
    hide Xor8, Subscriber.Temp, IsPlus;
    var temp := s.Temp(rnd);
    var y := Rot(Xor(temp, s.opc), turn);
    var x: Block := y[15 := Xor8(y[15], c)];
    forall j | 0 <= j < 16
      ensures x[j] == (temp[(j + turn) % 16] ^ s.opc[(j + turn) % 16]) ^ if j == 15 then c else 0
    {
      XorIs(temp[(j + turn) % 16], s.opc[(j + turn) % 16]);
      XorIs(y[15], c);
      NoConstant(y[j]);
    }
    assert IsTurned(s, temp, turn, c, x);
    XorIsPlus(s.aes(s.k, x), s.opc);
  }

  lemma Out1IsOut1(s: Subscriber, rnd: Block, sqn: Sqn, amf: Amf)
    ensures IsOut1(s, s.Temp(rnd), sqn, amf, s.Out1(rnd, sqn, amf))
  {
    hide Xor8, Subscriber.Temp, IsPlus;
    var temp := s.Temp(rnd);
    var in1: Block := sqn + amf + sqn + amf;
    var y: Block := Rot(Xor(in1, s.opc), 8);
    var x: Block := Xor(y, temp);
    forall j | 0 <= j < 16
      ensures x[j] == ((if j % 8 < 6 then sqn[j % 8] else amf[j % 8 - 6]) ^ s.opc[(j + 8) % 16]) ^ temp[j]
    {
      In1At(sqn, amf, j);
      XorIs(in1[(j + 8) % 16], s.opc[(j + 8) % 16]);
      XorIs(y[j], temp[j]);
    }
    assert IsMixed(s, temp, sqn, amf, x);
    XorIsPlus(s.aes(s.k, x), s.opc);
  }

  lemma In1At(sqn: Sqn, amf: Amf, j: nat)
    requires j < 16
    ensures (sqn + amf + sqn + amf)[(j + 8) % 16] == if j % 8 < 6 then sqn[j % 8] else amf[j % 8 - 6]
  {
  }

  /** f1 and f1*: MAC-A is the first half of OUT1, MAC-S the second. */
  lemma MacsAreStandard(s: Subscriber, rnd: Block, sqn: Sqn, amf: Amf) returns (temp: Block, out1: Block)
    ensures IsTemp(s, rnd, temp) && IsOut1(s, temp, sqn, amf, out1)
    ensures s.MacA(rnd, sqn, amf) == out1[..8] && s.MacS(rnd, sqn, amf) == out1[8..]
  {
    hide Subscriber.Temp, Subscriber.Out1, IsTemp, IsOut1;
    temp, out1 := s.Temp(rnd), s.Out1(rnd, sqn, amf);
    TempIsTemp(s, rnd);
    Out1IsOut1(s, rnd, sqn, amf);
  }

  /** f2 to f5*: the turns are 0, 4, 8 and 12 octets, the constants 1, 2, 4 and 8; AK and RES share the first block. */
  lemma KeysAreStandard(s: Subscriber, rnd: Block)
    returns (temp: Block, out2: Block, out3: Block, out4: Block, out5: Block)
    ensures IsTemp(s, rnd, temp)
    ensures IsOut(s, temp, 0, 1, out2) && s.Res(rnd) == out2[8..] && s.AK(rnd) == out2[..6]
    ensures IsOut(s, temp, 4, 2, out3) && s.CK(rnd) == out3
    ensures IsOut(s, temp, 8, 4, out4) && s.IK(rnd) == out4
    ensures IsOut(s, temp, 12, 8, out5) && s.AKStar(rnd) == out5[..6]
  {
    hide Subscriber.Temp, Subscriber.Out, IsTemp, IsOut;
    temp, out2, out3 := s.Temp(rnd), s.Out(rnd, 0, 1), s.Out(rnd, 4, 2);
    out4, out5 := s.Out(rnd, 8, 4), s.Out(rnd, 12, 8);
    TempIsTemp(s, rnd);
    OutIsOut(s, rnd, 0, 1);
    OutIsOut(s, rnd, 4, 2);
    OutIsOut(s, rnd, 8, 4);
    OutIsOut(s, rnd, 12, 8);
  }

  /** AUTN: the number concealed with AK, AMF, MAC-A. AUTS: the number concealed with AK*, MAC-S for an AMF of zeros. */
  lemma TokensAreStandard(s: Subscriber, rnd: Block, sqn: Sqn, amf: Amf)
    ensures
      var autn := s.Autn(rnd, sqn, amf);
      && (forall j | 0 <= j < 6 :: autn[j] == sqn[j] ^ s.AK(rnd)[j])
      && autn[6..8] == amf && autn[8..] == s.MacA(rnd, sqn, amf)
    ensures
      var auts := s.Auts(rnd, sqn);
      && (forall j | 0 <= j < 6 :: auts[j] == sqn[j] ^ s.AKStar(rnd)[j])
      && auts[6..] == s.MacS(rnd, sqn, [0, 0])
  {
    hide Xor8, Subscriber.Out, Subscriber.Out1;
    forall j | 0 <= j < 6
      ensures Xor(sqn, s.AK(rnd))[j] == sqn[j] ^ s.AK(rnd)[j]
      ensures Xor(sqn, s.AKStar(rnd))[j] == sqn[j] ^ s.AKStar(rnd)[j]
    {
      XorIs(sqn[j], s.AK(rnd)[j]);
      XorIs(sqn[j], s.AKStar(rnd)[j]);
    }
  }
}
