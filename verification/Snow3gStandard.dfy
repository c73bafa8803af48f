/** The generator as 3GPP TS 35.216, sections 3.4 and 4, writes it: 19 words, what one clock does to each of them, and
    how many clocks there are. */
module Snow3gStandard {
  import opened Gf8
  import opened Alpha
  import opened SBox
  import opened Snow3g

  /** The two operations on words, addition modulo 2^32 and without carry. */
  lemma WordOperations(a: bv32, b: bv32)
    ensures Plus(a, b) == a + b && Xor(a, b) == a ^ b
  {
  }

  /** Where key words and variable words go, and where the complement of a key word. */
  predicate IsLoaded(k: Quad, IV: Quad, st: State) {
    var l := st.lfsr;
    && l.s15 == Xor(k[3], IV[0]) && l.s14 == k[2] && l.s13 == k[1] && l.s12 == Xor(k[0], IV[1])
    && l.s11 == Xor(k[3], 0xffff_ffff) && l.s10 == Xor(Xor(k[2], 0xffff_ffff), IV[2])
    && l.s9 == Xor(Xor(k[1], 0xffff_ffff), IV[3]) && l.s8 == Xor(k[0], 0xffff_ffff)
    && l.s7 == k[3] && l.s6 == k[2] && l.s5 == k[1] && l.s4 == k[0]
    && l.s3 == Xor(k[3], 0xffff_ffff) && l.s2 == Xor(k[2], 0xffff_ffff)
    && l.s1 == Xor(k[1], 0xffff_ffff) && l.s0 == Xor(k[0], 0xffff_ffff)
    && st.fsm.r1 == 0 && st.fsm.r2 == 0 && st.fsm.r3 == 0
  }

  /** The word F that the FSM puts out. */
  function Output(st: State): bv32 { Xor(Plus(st.lfsr.s15, st.fsm.r1), st.fsm.r2) }

  /** The feedback without F. */
  function NextWord(st: State): bv32 {
    Xor(Xor(TimesAlpha(st.lfsr.s0), st.lfsr.s2), OverAlpha(st.lfsr.s11))
  }

  /** All words move down, v enters at the top, and the FSM moves on. */
  predicate IsClocked(st: State, v: bv32, next: State) {
    var l, m, f, g := st.lfsr, next.lfsr, st.fsm, next.fsm;
    && m.s0 == l.s1 && m.s1 == l.s2 && m.s2 == l.s3 && m.s3 == l.s4 && m.s4 == l.s5 && m.s5 == l.s6
    && m.s6 == l.s7 && m.s7 == l.s8 && m.s8 == l.s9 && m.s9 == l.s10 && m.s10 == l.s11 && m.s11 == l.s12
    && m.s12 == l.s13 && m.s13 == l.s14 && m.s14 == l.s15 && m.s15 == v
    && g.r1 == Plus(f.r2, Xor(f.r3, l.s5)) && g.r2 == S1(f.r1) && g.r3 == S2(f.r2)
  }

  predicate IsInitClock(st: State, next: State) { IsClocked(st, Xor(NextWord(st), Output(st)), next) }

  predicate IsKeyStreamClock(st: State, next: State) { IsClocked(st, NextWord(st), next) }

  lemma ClockedOnce(st: State, v: bv32, next: State, next': State)
    requires IsClocked(st, v, next) && IsClocked(st, v, next')
    ensures next == next'
  {
  }

  lemma InitStepIs(st: State)
    ensures IsInitClock(st, InitStep(st))
  {
    hide Xor, Plus, TimesAlpha, OverAlpha, S1, S2;
  }

  lemma StepIs(st: State)
    ensures IsKeyStreamClock(st, Step(st)) && OutputWord(st) == Xor(Output(st), st.lfsr.s0)
  {
    hide Xor, Plus, TimesAlpha, OverAlpha, S1, S2;
  }

  lemma LoadIs(k: Quad, IV: Quad)
    ensures IsLoaded(k, IV, Load(k, IV))
  {
    hide Xor;
  }

  lemma LoadedOnce(k: Quad, IV: Quad, st: State, st': State)
    requires IsLoaded(k, IV, st) && IsLoaded(k, IV, st')
    ensures st == st'
  {
    hide Xor;
  }

  /** For every sequence of 33 states that begins with the loaded one and in which each comes from the one before by an
      initialisation clock, the last one is what snow_3g_initialize leaves. */
  lemma InitializedIn32(k: Quad, IV: Quad, run: seq<State>)
    requires |run| == 33 && IsLoaded(k, IV, run[0])
    requires forall i | 0 <= i < 32 :: IsInitClock(run[i], run[i + 1])
    ensures Initialize(k, IV) == run[32]
  {
    hide IsLoaded, IsInitClock, Load, InitStep, Xor;
    LoadIs(k, IV);
    LoadedOnce(k, IV, run[0], Load(k, IV));
    InitRun(k, IV, run, 32);
  }

  lemma {:induction false} InitRun(k: Quad, IV: Quad, run: seq<State>, n: nat)
    requires n < |run| && run[0] == Load(k, IV)
    requires forall i | 0 <= i < |run| - 1 :: IsInitClock(run[i], run[i + 1])
    ensures InitSteps(Load(k, IV), n) == run[n]
    decreases n
  {
    hide IsClocked, Load, InitStep, NextWord, Output, Xor;
    if n > 0 {
      InitRun(k, IV, run, n - 1);
      var st := run[n - 1];
      assert IsInitClock(st, run[n - 1 + 1]);
      InitStepIs(st);
      ClockedOnce(st, Xor(NextWord(st), Output(st)), run[n], InitStep(st));
    }
  }

  /** And for every sequence that goes on from there by keystream clocks, word t of the keystream is the output in state
      t + 1 plus its s0: the first output is not used. */
  lemma WordsOfRun(k: Quad, IV: Quad, n: nat, run: seq<State>, t: nat)
    requires |run| > n && run[0] == Initialize(k, IV) && t < n
    requires forall i | 0 <= i < |run| - 1 :: IsKeyStreamClock(run[i], run[i + 1])
    ensures KeyStream(k, IV, n)[t] == Xor(Output(run[t + 1]), run[t + 1].lfsr.s0)
  {
    hide IsKeyStreamClock, Initialize, Step, Output, OutputWord, Xor;
    KeyStreamRun(run, t + 1);
    WordAt(Step(run[0]), n, t);
    StepsShift(run[0], t);
    StepIs(run[t + 1]);
  }

  lemma {:induction false} KeyStreamRun(run: seq<State>, n: nat)
    requires n < |run| && forall i | 0 <= i < |run| - 1 :: IsKeyStreamClock(run[i], run[i + 1])
    ensures Steps(run[0], n) == run[n]
    decreases n
  {
    hide IsClocked, Step, NextWord;
    if n > 0 {
      KeyStreamRun(run, n - 1);
      var st := run[n - 1];
      assert IsKeyStreamClock(st, run[n - 1 + 1]);
      StepIs(st);
      ClockedOnce(st, NextWord(st), run[n], Step(st));
    }
  }

  lemma {:induction false} WordAt(st: State, n: nat, t: nat)
    requires t < n
    ensures KeyStreamFrom(st, n)[t] == OutputWord(Steps(st, t))
    decreases n
  {
    hide Step, OutputWord;
    if t == 0 {
      assert Steps(st, 0) == st;
    } else {
      WordAt(Step(st), n - 1, t - 1);
      StepsShift(st, t - 1);
    }
  }

  // ----- multiplication by alpha, and the substitutions

  /** Octet by octet, the exponents of the polynomial of which alpha is a root. */
  lemma AlphaOctets(b0: bv8, b1: bv8, b2: bv8, b3: bv8, w: bv32)
    requires w == (b0 as bv32 << 24) | (b1 as bv32 << 16) | (b2 as bv32 << 8) | (b3 as bv32)
    ensures TimesAlpha(w) == Word(Xor8(b1, MULxPOW(b0, 23, 0xa9)), Xor8(b2, MULxPOW(b0, 245, 0xa9)),
                                  Xor8(b3, MULxPOW(b0, 48, 0xa9)), MULxPOW(b0, 239, 0xa9))
    ensures OverAlpha(w) == Word(MULxPOW(b3, 16, 0xa9), Xor8(b0, MULxPOW(b3, 39, 0xa9)),
                                 Xor8(b1, MULxPOW(b3, 6, 0xa9)), Xor8(b2, MULxPOW(b3, 64, 0xa9)))
  {
    WordIs(b0, b1, b2, b3);
    hide *;
    TimesForm(b0, b1, b2, b3);
    OverForm(b0, b1, b2, b3);
  }

  lemma WordIs(b0: bv8, b1: bv8, b2: bv8, b3: bv8)
    ensures Word(b0, b1, b2, b3) == (b0 as bv32 << 24) | (b1 as bv32 << 16) | (b2 as bv32 << 8) | (b3 as bv32)
  {
  }

  /** The four output octets of a mixing step over GF(2^8), from the substituted input octets. */
  function Mixed(a: bv8, b: bv8, c: bv8, d: bv8, r: bv8): bv32 {
    Word(((MULx(a, r) ^ b) ^ c) ^ (MULx(d, r) ^ d), ((MULx(b, r) ^ c) ^ d) ^ (MULx(a, r) ^ a),
         ((MULx(c, r) ^ d) ^ a) ^ (MULx(b, r) ^ b), ((MULx(d, r) ^ a) ^ b) ^ (MULx(c, r) ^ c))
  }

  lemma BoxOctets(b0: bv8, b1: bv8, b2: bv8, b3: bv8, w: bv32)
    requires w == (b0 as bv32 << 24) | (b1 as bv32 << 16) | (b2 as bv32 << 8) | (b3 as bv32)
    ensures S1(w) == Mixed(SR(b0), SR(b1), SR(b2), SR(b3), 0x1b)
    ensures S2(w) == Mixed(SQ(b0), SQ(b1), SQ(b2), SQ(b3), 0x69)
  {
    WordIs(b0, b1, b2, b3);
    hide SR, SQ, Mix, Mixed, Pack, Word, Octet0, Octet1, Octet2, Octet3;
    OctetsOfWord(b0, b1, b2, b3);
    MixIs(SR(b0), SR(b1), SR(b2), SR(b3), 0x1b);
    MixIs(SQ(b0), SQ(b1), SQ(b2), SQ(b3), 0x69);
  }

  lemma MixIs(a: bv8, b: bv8, c: bv8, d: bv8, r: bv8)
    ensures Pack(Mix(Column(a, b, c, d), r)) == Mixed(a, b, c, d, r)
  {
    hide MULx, Word;
  }
}
