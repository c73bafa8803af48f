/** A run of the generator in numbers: test set 1 of 3GPP TS 35.217, from key and variable to the first two
    keystream words. */
module Snow3gRun {
  import opened Gf8
  import opened Alpha
  import opened SBox
  import opened Snow3g

  const KEY: Quad := [0x2bd6459f, 0x82c5b300, 0x952c4910, 0x4881ff48]

  const VARIABLE: Quad := [0xea024714, 0xad5c4d84, 0xdf1f9b25, 0x1c0bf45f]

  function Row(i: int, a: bv32, b: bv32, c: bv32, d: bv32, e: bv32, f: bv32, g: bv32, h: bv32): bv32 {
    if i == 0 then a else if i == 1 then b else if i == 2 then c else if i == 3 then d else
    if i == 4 then e else if i == 5 then f else if i == 6 then g else h
  }

  /** The words that the feedback register holds, one after the other; sixteen of them at a time. */
  function W(i: nat): bv32 {
    if i < 8 then Row(i - 0, 0xd429ba60, 0x7d3a4cff, 0x6ad3b6ef, 0xb77e00b7,
                    0x2bd6459f, 0x82c5b300, 0x952c4910, 0x4881ff48)
    else if i < 16 then Row(i - 8, 0xd429ba60, 0x6131b8a0, 0xb5cc2dca, 0xb77e00b7,
                    0x868a081b, 0x82c5b300, 0x952c4910, 0xa283b85c)
    else if i < 24 then Row(i - 16, 0x97df2884, 0x311ba301, 0xa69fcbcb, 0xe76f0ada,
                    0xa52dcd12, 0x1a349a62, 0x2a2a44db, 0xf8927896)
    else if i < 32 then Row(i - 24, 0xcd328518, 0x73198320, 0xb26846ac, 0x2b05a333,
                    0x00c3324a, 0x810ae79f, 0xbbfc5d8e, 0xd1c68af2)
    else if i < 40 then Row(i - 32, 0x8f1215a6, 0xe003a052, 0x9241c929, 0x68d7bf8c,
                    0x16bf4c2a, 0x8def9d70, 0x32381704, 0x11dd346a)
    else if i < 48 then Row(i - 40, 0xe18b81ea, 0x77ebd4fe, 0x57ed9505, 0x0c33c0ef,
                    0x1a037b59, 0x97591e82, 0xa91ccb44, 0x7b48e04f)
    else Row(i - 48, 0x1646644c, 0x52e43190, 0xb737110e, 0x00000000,
                    0x00000000, 0x00000000, 0x00000000, 0x00000000)
  }

  /** FSM register R1 after i clocks, and then R2 and R3. */
  function A(i: nat): bv32 {
    if i < 8 then Row(i - 0, 0x00000000, 0x82c5b300, 0x136ccf98, 0x237ec89f,
                    0x8a3d73ae, 0xa8f78ce2, 0x6d9b0d47, 0xaed43261)
    else if i < 16 then Row(i - 8, 0x0347fa8c, 0x190b4113, 0x685905c9, 0x6539d443,
                    0x59bf03f6, 0x0beedf76, 0x1606ced1, 0xbb344d16)
    else if i < 24 then Row(i - 16, 0x8d039e64, 0x296ba987, 0xf57ed612, 0x3c23b353,
                    0x5dba168a, 0x5887f425, 0xa1a5e316, 0x718804f7)
    else if i < 32 then Row(i - 24, 0xa797569d, 0x5686d82a, 0x353c3173, 0x8a8a9418,
                    0x1c5cf3ae, 0x2fbdecc6, 0x551a4af2, 0xf81cd053)
    else Row(i - 32, 0x61da9249, 0xc4d71ffd, 0x8f49ea2b, 0x2d6739c7,
                    0x00000000, 0x00000000, 0x00000000, 0x00000000)
  }

  function B(i: nat): bv32 {
    if i < 8 then Row(i - 0, 0x00000000, 0x63636363, 0x486c5bc4, 0xeaebc424,
                    0x21a4385b, 0x63a7f600, 0x20712a2d, 0x401b1511)
    else if i < 16 then Row(i - 8, 0x926b950c, 0xd79fbe64, 0x9ccfc99b, 0x56f40892,
                    0xeea1f1b3, 0x386f67ca, 0xa88b4cca, 0x28a2c5d2)
    else if i < 24 then Row(i - 16, 0xfdb15842, 0x0f5985bd, 0xc4ce8e9a, 0x92f3d69d,
                    0xaaeab6bb, 0xa91ebb8d, 0x3d1009d9, 0xba0c5d89)
    else if i < 32 then Row(i - 24, 0xd3f763ba, 0x6300f8a0, 0x68c45a87, 0x9124aa2a,
                    0x4cf11527, 0x53c2bc12, 0x59b1a855, 0x171f3f36)
    else Row(i - 32, 0x427df38c, 0x90f0b31f, 0x0aacc1e1, 0x5295da23,
                    0x00000000, 0x00000000, 0x00000000, 0x00000000)
  }

  function C(i: nat): bv32 {
    if i < 8 then Row(i - 0, 0x00000000, 0x25252525, 0x93939393, 0x4b7815ea,
                    0xe662ec27, 0xbc3f3a8d, 0x391d0883, 0x45a6ed60)
    else if i < 16 then Row(i - 8, 0x045a1f07, 0x05950e75, 0x6ae9b2f4, 0x9515d3e0,
                    0x2c574ec2, 0x7b08accc, 0xf5c60a96, 0xc14d1580)
    else if i < 24 then Row(i - 16, 0x318ecb27, 0xcc0f148e, 0x8fc75c2f, 0x07f4baf5,
                    0xde84be4a, 0x4aef6125, 0x1f72582d, 0xed49cb5e)
    else if i < 32 then Row(i - 24, 0x038593ef, 0x69c7655d, 0xf000b363, 0x042a5c22,
                    0x02cf77cd, 0x931647c9, 0xf6bc9872, 0x5c041f39)
    else Row(i - 32, 0x0fb6b101, 0xcc612008, 0x3367438c, 0x5293e49e,
                    0x00000000, 0x00000000, 0x00000000, 0x00000000)
  }

  function At(t: nat): State {
    State(Lfsr(W(t), W(t + 1), W(t + 2), W(t + 3), W(t + 4), W(t + 5), W(t + 6), W(t + 7),
               W(t + 8), W(t + 9), W(t + 10), W(t + 11), W(t + 12), W(t + 13), W(t + 14), W(t + 15)),
          Fsm(A(t), B(t), C(t)))
  }

  /** The output of the FSM takes part in the feedback during the first 32 clocks. */
  function Back(t: nat): bv32 { if t < 32 then Xor(Plus(W(t + 15), A(t)), B(t)) else 0 }

  predicate Fits(t: nat) {
    && W(t + 16) == Xor(Xor(Xor(TimesAlpha(W(t)), W(t + 2)), OverAlpha(W(t + 11))), Back(t))
    && A(t + 1) == Plus(B(t), Xor(C(t), W(t + 5))) && B(t + 1) == S1(A(t)) && C(t + 1) == S2(B(t))
  }

  /** The powers of x in MULalpha and DIValpha as products of x^1, x^2, x^4, ... */
  function Mul(c: bv8): bv32 {
    Word(X1(X2(X4(X16(c)))), X1(X4(X16(X32(X64(X128(c)))))), X16(X32(c)), X1(X2(X4(X8(X32(X64(X128(c))))))))
  }

  function Div(c: bv8): bv32 { Word(X16(c), X1(X2(X4(X32(c)))), X2(X4(c)), X64(c)) }

  lemma Then1(c: bv8, n: nat, x: bv8)
    requires MULxPOW(c, n, 0xa9) == x
    ensures MULxPOW(c, n + 1, 0xa9) == X1(x)
  {
    hide *;
    PowAdd(c, n, 1, 0xa9);
    Closed1(x);
  }

  lemma Then2(c: bv8, n: nat, x: bv8)
    requires MULxPOW(c, n, 0xa9) == x
    ensures MULxPOW(c, n + 2, 0xa9) == X2(x)
  {
    hide *;
    PowAdd(c, n, 2, 0xa9);
    Closed2(x);
  }

  lemma Then4(c: bv8, n: nat, x: bv8)
    requires MULxPOW(c, n, 0xa9) == x
    ensures MULxPOW(c, n + 4, 0xa9) == X4(x)
  {
    hide *;
    PowAdd(c, n, 4, 0xa9);
    Closed4(x);
  }

  lemma Then8(c: bv8, n: nat, x: bv8)
    requires MULxPOW(c, n, 0xa9) == x
    ensures MULxPOW(c, n + 8, 0xa9) == X8(x)
  {
    hide *;
    PowAdd(c, n, 8, 0xa9);
    Closed8(x);
  }

  lemma Then16(c: bv8, n: nat, x: bv8)
    requires MULxPOW(c, n, 0xa9) == x
    ensures MULxPOW(c, n + 16, 0xa9) == X16(x)
  {
    hide *;
    PowAdd(c, n, 16, 0xa9);
    Closed16(x);
  }

  lemma Then32(c: bv8, n: nat, x: bv8)
    requires MULxPOW(c, n, 0xa9) == x
    ensures MULxPOW(c, n + 32, 0xa9) == X32(x)
  {
    hide *;
    PowAdd(c, n, 32, 0xa9);
    Closed32(x);
  }

  lemma Then64(c: bv8, n: nat, x: bv8)
    requires MULxPOW(c, n, 0xa9) == x
    ensures MULxPOW(c, n + 64, 0xa9) == X64(x)
  {
    hide *;
    PowAdd(c, n, 64, 0xa9);
    Closed64(x);
  }

  lemma PowerForms(c: bv8)
    ensures MULxPOW(c, 23, 0xa9) == X1(X2(X4(X16(c)))) && MULxPOW(c, 48, 0xa9) == X16(X32(c))
    ensures MULxPOW(c, 245, 0xa9) == X1(X4(X16(X32(X64(X128(c))))))
    ensures MULxPOW(c, 239, 0xa9) == X1(X2(X4(X8(X32(X64(X128(c)))))))
    ensures MULxPOW(c, 16, 0xa9) == X16(c) && MULxPOW(c, 39, 0xa9) == X1(X2(X4(X32(c))))
    ensures MULxPOW(c, 6, 0xa9) == X2(X4(c)) && MULxPOW(c, 64, 0xa9) == X64(c)
  {
    hide *;
    Closed16(c);
    Closed32(c);
    Closed64(c);
    Closed128(c);
    Closed4(c);
    Then2(c, 4, X4(c));
    Then4(c, 16, X16(c));
    Then2(c, 20, X4(X16(c)));
    Then1(c, 22, X2(X4(X16(c))));
    Then16(c, 32, X32(c));
    Then4(c, 32, X32(c));
    Then2(c, 36, X4(X32(c)));
    Then1(c, 38, X2(X4(X32(c))));
    Then64(c, 128, X128(c));
    Then32(c, 192, X64(X128(c)));
    Then16(c, 224, X32(X64(X128(c))));
    Then4(c, 240, X16(X32(X64(X128(c)))));
    Then1(c, 244, X4(X16(X32(X64(X128(c))))));
    Then8(c, 224, X32(X64(X128(c))));
    Then4(c, 232, X8(X32(X64(X128(c)))));
    Then2(c, 236, X4(X8(X32(X64(X128(c))))));
    Then1(c, 238, X2(X4(X8(X32(X64(X128(c)))))));
  }

  lemma AlphaForm(w: bv32)
    ensures MULalpha(Octet0(w)) == Mul(Octet0(w)) && DIValpha(Octet3(w)) == Div(Octet3(w))
  {
    hide X1, X2, X4, X8, X16, X32, X64, X128, MULxPOW, Octet0, Octet3, Word;
    PowerForms(Octet0(w));
    PowerForms(Octet3(w));
  }

  /** S1 of a and S2 of b, from the look-ups in the tables. */
  lemma Boxes(a: bv32, a0: bv8, a1: bv8, a2: bv8, a3: bv8, b: bv32, b0: bv8, b1: bv8, b2: bv8, b3: bv8)
    requires SR(Octet0(a)) == a0 && SR(Octet1(a)) == a1 && SR(Octet2(a)) == a2 && SR(Octet3(a)) == a3
    requires SQ(Octet0(b)) == b0 && SQ(Octet1(b)) == b1 && SQ(Octet2(b)) == b2 && SQ(Octet3(b)) == b3
    ensures S1(a) == Pack(Mix(Column(a0, a1, a2, a3), 0x1b)) && S2(b) == Pack(Mix(Column(b0, b1, b2, b3), 0x69))
  {
    hide SR, SQ;
  }

  lemma Fits0()
    ensures Fits(0)
  {
    Boxes(0x00000000, 0x63, 0x63, 0x63, 0x63, 0x00000000, 0x25, 0x25, 0x25, 0x25);
    AlphaForm(0xd429ba60);
    AlphaForm(0xb77e00b7);
    hide SR, SQ, S1, S2, MULalpha, DIValpha;
  }

  lemma Fits1()
    ensures Fits(1)
  {
    Boxes(0x82c5b300, 0x13, 0xa6, 0x6d, 0x63, 0x63636363, 0x93, 0x93, 0x93, 0x93);
    AlphaForm(0x7d3a4cff);
    AlphaForm(0x868a081b);
    hide SR, SQ, S1, S2, MULalpha, DIValpha;
  }

  lemma Fits2()
    ensures Fits(2)
  {
    Boxes(0x136ccf98, 0x7d, 0x50, 0x8a, 0x46, 0x486c5bc4, 0xc2, 0x37, 0x6d, 0x54);
    AlphaForm(0x6ad3b6ef);
    AlphaForm(0x82c5b300);
    hide SR, SQ, S1, S2, MULalpha, DIValpha;
  }

  lemma Fits3()
    ensures Fits(3)
  {
    Boxes(0x237ec89f, 0x26, 0xf3, 0xe8, 0xdb, 0xeaebc424, 0xc0, 0x9b, 0x54, 0x40);
    AlphaForm(0xb77e00b7);
    AlphaForm(0x952c4910);
    hide SR, SQ, S1, S2, MULalpha, DIValpha;
  }

  lemma Fits4()
    ensures Fits(4)
  {
    Boxes(0x8a3d73ae, 0x7e, 0x27, 0x8f, 0xe4, 0x21a4385b, 0xe9, 0xb7, 0x07, 0x6d);
    AlphaForm(0x2bd6459f);
    AlphaForm(0xa283b85c);
    hide SR, SQ, S1, S2, MULalpha, DIValpha;
  }

  lemma Fits5()
    ensures Fits(5)
  {
    Boxes(0xa8f78ce2, 0xc2, 0x68, 0x64, 0x98, 0x63a7f600, 0x93, 0x8c, 0x95, 0x25);
    AlphaForm(0x82c5b300);
    AlphaForm(0x97df2884);
    hide SR, SQ, S1, S2, MULalpha, DIValpha;
  }

  lemma Fits6()
    ensures Fits(6)
  {
    Boxes(0x6d9b0d47, 0x3c, 0x14, 0xd7, 0xa0, 0x20712a2d, 0xd8, 0x0f, 0xac, 0x15);
    AlphaForm(0x952c4910);
    AlphaForm(0x311ba301);
    hide SR, SQ, S1, S2, MULalpha, DIValpha;
  }

  lemma Fits7()
    ensures Fits(7)
  {
    Boxes(0xaed43261, 0xe4, 0x48, 0x23, 0xef, 0x401b1511, 0xca, 0x5f, 0x5d, 0x8e);
    AlphaForm(0x4881ff48);
    AlphaForm(0xa69fcbcb);
    hide SR, SQ, S1, S2, MULalpha, DIValpha;
  }

  lemma Fits8()
    ensures Fits(8)
  {
    Boxes(0x0347fa8c, 0x7b, 0xa0, 0x2d, 0x64, 0x926b950c, 0x0c, 0x22, 0xb8, 0x7d);
    AlphaForm(0xd429ba60);
    AlphaForm(0xe76f0ada);
    hide SR, SQ, S1, S2, MULalpha, DIValpha;
  }

  lemma Fits9()
    ensures Fits(9)
  {
    Boxes(0x190b4113, 0xd4, 0x2b, 0x83, 0x7d, 0xd79fbe64, 0x16, 0x00, 0x2d, 0xfe);
    AlphaForm(0x6131b8a0);
    AlphaForm(0xa52dcd12);
    hide SR, SQ, S1, S2, MULalpha, DIValpha;
  }

  lemma Fits10()
    ensures Fits(10)
  {
    Boxes(0x685905c9, 0x45, 0xcb, 0x6b, 0xdd, 0x9ccfc99b, 0x81, 0x9c, 0xc8, 0x66);
    AlphaForm(0xb5cc2dca);
    AlphaForm(0x1a349a62);
    hide SR, SQ, S1, S2, MULalpha, DIValpha;
  }

  lemma Fits11()
    ensures Fits(11)
  {
    Boxes(0x6539d443, 0x4d, 0x12, 0x48, 0x1a, 0x56f40892, 0x41, 0x1e, 0xa4, 0x0c);
    AlphaForm(0xb77e00b7);
    AlphaForm(0x2a2a44db);
    hide SR, SQ, S1, S2, MULalpha, DIValpha;
  }

  lemma Fits12()
    ensures Fits(12)
  {
    Boxes(0x59bf03f6, 0xcb, 0x08, 0x7b, 0x42, 0xeea1f1b3, 0x10, 0xce, 0xe1, 0x2c);
    AlphaForm(0x868a081b);
    AlphaForm(0xf8927896);
    hide SR, SQ, S1, S2, MULalpha, DIValpha;
  }

  lemma Fits13()
    ensures Fits(13)
  {
    Boxes(0x0beedf76, 0x2b, 0x28, 0x9e, 0x38, 0x386f67ca, 0x07, 0xfa, 0xcf, 0x9d);
    AlphaForm(0x82c5b300);
    AlphaForm(0xcd328518);
    hide SR, SQ, S1, S2, MULalpha, DIValpha;
  }

  lemma Fits14()
    ensures Fits(14)
  {
    Boxes(0x1606ced1, 0x47, 0x6f, 0x8b, 0x3e, 0xa88b4cca, 0x79, 0x62, 0x9f, 0x9d);
    AlphaForm(0x952c4910);
    AlphaForm(0x73198320);
    hide SR, SQ, S1, S2, MULalpha, DIValpha;
  }

  lemma Fits15()
    ensures Fits(15)
  {
    Boxes(0xbb344d16, 0xea, 0x18, 0xe3, 0x47, 0x28a2c5d2, 0x57, 0xf6, 0x0b, 0xf9);
    AlphaForm(0xa283b85c);
    AlphaForm(0xb26846ac);
    hide SR, SQ, S1, S2, MULalpha, DIValpha;
  }

  lemma Fits16()
    ensures Fits(16)
  {
    Boxes(0x8d039e64, 0x5d, 0x7b, 0x0b, 0x43, 0xfdb15842, 0xd0, 0x75, 0xba, 0x46);
    AlphaForm(0x97df2884);
    AlphaForm(0x2b05a333);
    hide SR, SQ, S1, S2, MULalpha, DIValpha;
  }

  lemma Fits17()
    ensures Fits(17)
  {
    Boxes(0x296ba987, 0xa5, 0x7f, 0xd3, 0x17, 0x0f5985bd, 0xdb, 0xc6, 0x7e, 0x58);
    AlphaForm(0x311ba301);
    AlphaForm(0x00c3324a);
    hide SR, SQ, S1, S2, MULalpha, DIValpha;
  }

  lemma Fits18()
    ensures Fits(18)
  {
    Boxes(0xf57ed612, 0xe6, 0xf3, 0xf6, 0xc9, 0xc4ce8e9a, 0x54, 0x87, 0xf8, 0x97);
    AlphaForm(0xa69fcbcb);
    AlphaForm(0x810ae79f);
    hide SR, SQ, S1, S2, MULalpha, DIValpha;
  }

  lemma Fits19()
    ensures Fits(19)
  {
    Boxes(0x3c23b353, 0xeb, 0x26, 0x6d, 0xed, 0x92f3d69d, 0x0c, 0xc9, 0x59, 0x32);
    AlphaForm(0xe76f0ada);
    AlphaForm(0xbbfc5d8e);
    hide SR, SQ, S1, S2, MULalpha, DIValpha;
  }

  lemma Fits20()
    ensures Fits(20)
  {
    Boxes(0x5dba168a, 0x4c, 0xf4, 0x47, 0x7e, 0xaaeab6bb, 0xa7, 0xc0, 0x27, 0xa1);
    AlphaForm(0xa52dcd12);
    AlphaForm(0xd1c68af2);
    hide SR, SQ, S1, S2, MULalpha, DIValpha;
  }

  lemma Fits21()
    ensures Fits(21)
  {
    Boxes(0x5887f425, 0x6a, 0x17, 0xbf, 0x3f, 0xa91ebb8d, 0xd6, 0x65, 0xa1, 0x0a);
    AlphaForm(0x1a349a62);
    AlphaForm(0x8f1215a6);
    hide SR, SQ, S1, S2, MULalpha, DIValpha;
  }

  lemma Fits22()
    ensures Fits(22)
  {
    Boxes(0xa1a5e316, 0x32, 0x06, 0x11, 0x47, 0x3d1009d9, 0xaa, 0xe4, 0xee, 0x91);
    AlphaForm(0x2a2a44db);
    AlphaForm(0xe003a052);
    hide SR, SQ, S1, S2, MULalpha, DIValpha;
  }

  lemma Fits23()
    ensures Fits(23)
  {
    Boxes(0x718804f7, 0xa3, 0xc4, 0xf2, 0x68, 0xba0c5d89, 0x7c, 0x7d, 0x71, 0x8a);
    AlphaForm(0xf8927896);
    AlphaForm(0x9241c929);
    hide SR, SQ, S1, S2, MULalpha, DIValpha;
  }

  lemma Fits24()
    ensures Fits(24)
  {
    Boxes(0xa797569d, 0x5c, 0x88, 0xb1, 0x5e, 0xd3f763ba, 0xda, 0xa3, 0x93, 0x7c);
    AlphaForm(0xcd328518);
    AlphaForm(0x68d7bf8c);
    hide SR, SQ, S1, S2, MULalpha, DIValpha;
  }

  lemma Fits25()
    ensures Fits(25)
  {
    Boxes(0x5686d82a, 0xb1, 0x44, 0x61, 0xe5, 0x6300f8a0, 0x93, 0x25, 0x90, 0x06);
    AlphaForm(0x73198320);
    AlphaForm(0x16bf4c2a);
    hide SR, SQ, S1, S2, MULalpha, DIValpha;
  }

  lemma Fits26()
    ensures Fits(26)
  {
    Boxes(0x353c3173, 0x96, 0xeb, 0xc7, 0x8f, 0x68c45a87, 0x43, 0x54, 0xbb, 0xfc);
    AlphaForm(0xb26846ac);
    AlphaForm(0x8def9d70);
    hide SR, SQ, S1, S2, MULalpha, DIValpha;
  }

  lemma Fits27()
    ensures Fits(27)
  {
    Boxes(0x8a8a9418, 0x7e, 0x7e, 0x22, 0xad, 0x9124aa2a, 0x3c, 0x40, 0xa7, 0xac);
    AlphaForm(0x2b05a333);
    AlphaForm(0x32381704);
    hide SR, SQ, S1, S2, MULalpha, DIValpha;
  }

  lemma Fits28()
    ensures Fits(28)
  {
    Boxes(0x1c5cf3ae, 0x9c, 0x4a, 0x0d, 0xe4, 0x4cf11527, 0x9f, 0xe1, 0x5d, 0x28);
    AlphaForm(0x00c3324a);
    AlphaForm(0x11dd346a);
    hide SR, SQ, S1, S2, MULalpha, DIValpha;
  }

  lemma Fits29()
    ensures Fits(29)
  {
    Boxes(0x2fbdecc6, 0x15, 0x7a, 0xce, 0xb4, 0x53c2bc12, 0x42, 0xaf, 0x05, 0x48);
    AlphaForm(0x810ae79f);
    AlphaForm(0xe18b81ea);
    hide SR, SQ, S1, S2, MULalpha, DIValpha;
  }

  lemma Fits30()
    ensures Fits(30)
  {
    Boxes(0x551a4af2, 0xfc, 0xa2, 0xd6, 0x89, 0x59b1a855, 0xc6, 0x75, 0x79, 0xb4);
    AlphaForm(0xbbfc5d8e);
    AlphaForm(0x77ebd4fe);
    hide SR, SQ, S1, S2, MULalpha, DIValpha;
  }

  lemma Fits31()
    ensures Fits(31)
  {
    Boxes(0xf81cd053, 0x41, 0x9c, 0x70, 0xed, 0x171f3f36, 0x78, 0xe2, 0xd4, 0x47);
    AlphaForm(0xd1c68af2);
    AlphaForm(0x57ed9505);
    hide SR, SQ, S1, S2, MULalpha, DIValpha;
  }

  lemma Fits32()
    ensures Fits(32)
  {
    Boxes(0x61da9249, 0xef, 0x57, 0x4f, 0x3b, 0x427df38c, 0x46, 0xff, 0xc9, 0xf5);
    AlphaForm(0x8f1215a6);
    AlphaForm(0x0c33c0ef);
    hide SR, SQ, S1, S2, MULalpha, DIValpha;
  }

  lemma Fits33()
    ensures Fits(33)
  {
    Boxes(0xc4d71ffd, 0x1c, 0x0e, 0xc0, 0x54, 0x90f0b31f, 0x03, 0x56, 0x2c, 0xe2);
    AlphaForm(0xe003a052);
    AlphaForm(0x1a037b59);
    hide SR, SQ, S1, S2, MULalpha, DIValpha;
  }

  lemma Fits34()
    ensures Fits(34)
  {
    Boxes(0x8f49ea2b, 0x73, 0x3b, 0x87, 0xf1, 0x0aacc1e1, 0x6e, 0x8b, 0xc7, 0x99);
    AlphaForm(0x9241c929);
    AlphaForm(0x97591e82);
    hide SR, SQ, S1, S2, MULalpha, DIValpha;
  }

  lemma AllFit(t: nat)
    requires t < 35
    ensures Fits(t)
  {
    hide *;
    match t
    case 0 => Fits0();
    case 1 => Fits1();
    case 2 => Fits2();
    case 3 => Fits3();
    case 4 => Fits4();
    case 5 => Fits5();
    case 6 => Fits6();
    case 7 => Fits7();
    case 8 => Fits8();
    case 9 => Fits9();
    case 10 => Fits10();
    case 11 => Fits11();
    case 12 => Fits12();
    case 13 => Fits13();
    case 14 => Fits14();
    case 15 => Fits15();
    case 16 => Fits16();
    case 17 => Fits17();
    case 18 => Fits18();
    case 19 => Fits19();
    case 20 => Fits20();
    case 21 => Fits21();
    case 22 => Fits22();
    case 23 => Fits23();
    case 24 => Fits24();
    case 25 => Fits25();
    case 26 => Fits26();
    case 27 => Fits27();
    case 28 => Fits28();
    case 29 => Fits29();
    case 30 => Fits30();
    case 31 => Fits31();
    case 32 => Fits32();
    case 33 => Fits33();
    case 34 => Fits34();
  }

  lemma OneClock(t: nat)
    requires Fits(t)
    ensures t < 32 ==> InitStep(At(t)) == At(t + 1)
    ensures t >= 32 ==> Step(At(t)) == At(t + 1)
  {
    hide W, A, B, C, TimesAlpha, OverAlpha, S1, S2, Plus, Xor;
    XorLaws(Xor(Xor(TimesAlpha(W(t)), W(t + 2)), OverAlpha(W(t + 11))), 0);
  }

  lemma Loaded()
    ensures Load(KEY, VARIABLE) == At(0)
  {
  }

  lemma {:induction false} InitRun(t: nat)
    requires t <= 32
    ensures InitSteps(At(0), t) == At(t)
    decreases t
  {
    hide At, InitStep, Fits;
    if t > 0 {
      InitRun(t - 1);
      AllFit(t - 1);
      OneClock(t - 1);
    }
  }

  /** From the key and the variable of the test set, the generator makes the two words of the test set. */
  lemma TestSet1()
    ensures KeyStream(KEY, VARIABLE, 2) == [0xabee9704, 0x7ac31373]
  {
    Outputs();
    hide At, InitStep, Step, Fits, Load, KEY, VARIABLE, OutputWord;
    Loaded();
    InitRun(32);
    AllFit(32);
    OneClock(32);
    AllFit(33);
    OneClock(33);
    assert KeyStreamFrom(At(34), 1) == [OutputWord(At(34))] + KeyStreamFrom(Step(At(34)), 0);
  }

  lemma Outputs()
    ensures OutputWord(At(33)) == 0xabee9704 && OutputWord(At(34)) == 0x7ac31373
  {
  }
}
