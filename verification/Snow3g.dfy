/** The SNOW 3G keystream generator (3GPP TS 35.216, sections 3.4 and 4): a 19-word machine in static registers.

    Every clock of the machine, in initialisation mode as in keystream mode, is a permutation of its states. Hence
    different keys or initialisation variables never lead to the same state, and a feedback register that is not zero
    never becomes zero while keystream is produced. */
module Snow3g {
  import opened Alpha
  import opened SBox

  datatype Lfsr = Lfsr(s0: bv32, s1: bv32, s2: bv32, s3: bv32, s4: bv32, s5: bv32, s6: bv32, s7: bv32,
                       s8: bv32, s9: bv32, s10: bv32, s11: bv32, s12: bv32, s13: bv32, s14: bv32, s15: bv32)

  const ZERO: Lfsr := Lfsr(0, 0, 0, 0, 0, 0, 0, 0, 0, 0, 0, 0, 0, 0, 0, 0)

  datatype Fsm = Fsm(r1: bv32, r2: bv32, r3: bv32)

  datatype State = State(lfsr: Lfsr, fsm: Fsm)

  // ----- the machine as functions

  function Plus(a: bv32, b: bv32): bv32 { a + b }

  function Minus(a: bv32, b: bv32): bv32 { a - b }

  function Feedback(l: Lfsr): bv32 {
    Xor(Xor(TimesAlpha(l.s0), l.s2), OverAlpha(l.s11))
  }

  /** Every word moves down by one place and v enters at the top. */
  function ShiftIn(l: Lfsr, v: bv32): Lfsr {
    Lfsr(l.s1, l.s2, l.s3, l.s4, l.s5, l.s6, l.s7, l.s8,
         l.s9, l.s10, l.s11, l.s12, l.s13, l.s14, l.s15, v)
  }

  function ClockKeyStream(l: Lfsr): Lfsr { ShiftIn(l, Feedback(l)) }

  function ClockInitialization(l: Lfsr, F: bv32): Lfsr { ShiftIn(l, Xor(Feedback(l), F)) }

  function FsmOutput(st: State): bv32 {
    Xor(Plus(st.lfsr.s15, st.fsm.r1), st.fsm.r2)
  }

  function ClockFsm(st: State): Fsm {
    Fsm(Plus(st.fsm.r2, Xor(st.fsm.r3, st.lfsr.s5)), S1(st.fsm.r1), S2(st.fsm.r2))
  }

  /** One of the 32 initialisation clocks: the output of the FSM is fed back into the register. */
  function InitStep(st: State): State {
    State(ClockInitialization(st.lfsr, FsmOutput(st)), ClockFsm(st))
  }

  /** One clock in keystream mode. */
  function Step(st: State): State {
    State(ClockKeyStream(st.lfsr), ClockFsm(st))
  }

  function InitSteps(st: State, n: nat): State {
    if n == 0 then st else InitStep(InitSteps(st, n - 1))
  }

  function Steps(st: State, n: nat): State {
    if n == 0 then st else Step(Steps(st, n - 1))
  }

  type Quad = s: seq<bv32> | |s| == 4 witness [0, 0, 0, 0]

  const ONES: bv32 := 0xffffffff

  function Load(k: Quad, IV: Quad): State {
    State(Lfsr(Xor(k[0], ONES), Xor(k[1], ONES), Xor(k[2], ONES), Xor(k[3], ONES),
           k[0], k[1], k[2], k[3],
           Xor(k[0], ONES), Xor(Xor(k[1], ONES), IV[3]), Xor(Xor(k[2], ONES), IV[2]), Xor(k[3], ONES),
           Xor(k[0], IV[1]), k[1], k[2], Xor(k[3], IV[0])),
          Fsm(0, 0, 0))
  }

  function Initialize(k: Quad, IV: Quad): State { InitSteps(Load(k, IV), 32) }

  function OutputWord(st: State): bv32 { Xor(FsmOutput(st), st.lfsr.s0) }

  /** The next n keystream words from state st. */
  function KeyStreamFrom(st: State, n: nat): (z: seq<bv32>)
    ensures |z| == n
    decreases n
  {
    if n == 0 then [] else [OutputWord(st)] + KeyStreamFrom(Step(st), n - 1)
  }

  /** The first n words after initialisation; the output of the very first clock is discarded. */
  function KeyStream(k: Quad, IV: Quad, n: nat): (z: seq<bv32>)
    ensures |z| == n
  {
    KeyStreamFrom(Step(Initialize(k, IV)), n)
  }

  lemma {:induction false} KeyStreamPrefix(st: State, m: nat, n: nat)
    requires m <= n
    ensures KeyStreamFrom(st, n)[..m] == KeyStreamFrom(st, m)
    decreases n
  {
    hide Step, OutputWord;
    if m > 0 {
      KeyStreamPrefix(Step(st), m - 1, n - 1);
    }
  }

  lemma {:induction false} KeyStreamNext(st: State, n: nat)
    ensures KeyStreamFrom(st, n + 1) == KeyStreamFrom(st, n) + [OutputWord(Steps(st, n))]
    decreases n
  {
    hide Step, OutputWord;
    if n > 0 {
      KeyStreamNext(Step(st), n - 1);
      StepsShift(st, n - 1);
    }
  }

  lemma {:induction false} StepsShift(st: State, n: nat)
    ensures Steps(Step(st), n) == Steps(st, n + 1)
  {
    hide Step;
    if n > 0 {
      StepsShift(st, n - 1);
    } else {
      assert Steps(st, 0) == st;
    }
  }

  // ----- word arithmetic

  lemma XorLaws(a: bv32, b: bv32)
    ensures Xor(Xor(a, b), b) == a
    ensures Xor(a, b) == Xor(b, a)
    ensures Xor(a, 0) == a
  {
  }

  lemma XorAssoc(a: bv32, b: bv32, d: bv32)
    ensures Xor(Xor(a, b), d) == Xor(a, Xor(b, d))
  {
    hide Xor;
    XorIs(a, b);
    XorIs(b, d);
    XorAssocRaw(a, b, d);
  }

  lemma XorIs(a: bv32, b: bv32)
    ensures Xor(a, b) == a ^ b
  {
  }

  lemma XorAssocRaw(a: bv32, b: bv32, d: bv32)
    ensures Xor(a ^ b, d) == Xor(a, b ^ d)
  {
  }

  lemma PlusMinus(a: bv32, b: bv32)
    ensures Minus(Plus(a, b), a) == b
  {
    hide Minus;
    MinusSum(a, b);
  }

  lemma MinusSum(a: bv32, b: bv32)
    ensures Minus(a + b, a) == b
  {
  }

  // ----- every clock can be undone

  function UnclockKeyStream(l: Lfsr): Lfsr {
    Lfsr(OverAlpha(Xor(Xor(l.s15, OverAlpha(l.s10)), l.s1)), l.s0, l.s1, l.s2, l.s3, l.s4, l.s5, l.s6,
         l.s7, l.s8, l.s9, l.s10, l.s11, l.s12, l.s13, l.s14)
  }

  lemma UnclockClock(l: Lfsr)
    ensures UnclockKeyStream(ClockKeyStream(l)) == l
  {
    hide Xor, TimesAlpha, OverAlpha;
    XorLaws(Xor(TimesAlpha(l.s0), l.s2), OverAlpha(l.s11));
    XorLaws(TimesAlpha(l.s0), l.s2);
    OverUndoesTimes(l.s0);
  }

  lemma ClockUnclock(l: Lfsr)
    ensures ClockKeyStream(UnclockKeyStream(l)) == l
  {
    hide Xor, TimesAlpha, OverAlpha;
    XorLaws(Xor(l.s15, OverAlpha(l.s10)), l.s1);
    XorLaws(l.s15, OverAlpha(l.s10));
    TimesUndoesOver(Xor(Xor(l.s15, OverAlpha(l.s10)), l.s1));
  }

  lemma ZeroIsFixed(l: Lfsr)
    requires l == ZERO
    ensures ClockKeyStream(l) == l
  {
    hide Feedback;
    FeedbackOfZero(l);
  }

  lemma FeedbackOfZero(l: Lfsr)
    requires l.s0 == l.s2 == l.s11 == 0
    ensures Feedback(l) == 0
  {
    hide TimesAlpha, OverAlpha, Xor;
    AlphaZero();
    XorLaws(0, 0);
  }

  lemma {:induction false} NeverZero(st: State, n: nat)
    requires st.lfsr != ZERO
    ensures Steps(st, n).lfsr != ZERO
  {
    hide ClockKeyStream, ClockFsm, UnclockKeyStream;
    if n > 0 {
      NeverZero(st, n - 1);
      UnclockClock(Steps(st, n - 1).lfsr);
      UnclockClock(ZERO);
      ZeroIsFixed(ZERO);
    }
  }

  /** The FSM registers before a clock, from those after it and the word l5 that took part. */
  function UnclockFsm(f: Fsm, l5: bv32): Fsm {
    Fsm(InvS1(f.r2), InvS2(f.r3), Xor(Minus(f.r1, InvS2(f.r3)), l5))
  }

  lemma UnclockClockFsm(st: State)
    ensures UnclockFsm(ClockFsm(st), st.lfsr.s5) == st.fsm
  {
    hide Xor, Plus, Minus, S1, S2, InvS1, InvS2;
    S1Permutation(st.fsm.r1);
    S2Permutation(st.fsm.r2);
    PlusMinus(st.fsm.r2, Xor(st.fsm.r3, st.lfsr.s5));
    XorLaws(st.fsm.r3, st.lfsr.s5);
  }

  function Unstep(st: State): State {
    State(UnclockKeyStream(st.lfsr), UnclockFsm(st.fsm, st.lfsr.s4))
  }

  lemma UnstepStep(st: State)
    ensures Unstep(Step(st)) == st
  {
    hide UnclockKeyStream, ClockFsm, UnclockFsm, Feedback;
    UnclockClock(st.lfsr);
    UnclockClockFsm(st);
  }

  function UninitStep(st: State): State {
    var f := UnclockFsm(st.fsm, st.lfsr.s4);
    var F := Xor(Plus(st.lfsr.s14, f.r1), f.r2);
    State(UnclockKeyStream(st.lfsr.(s15 := Xor(st.lfsr.s15, F))), f)
  }

  lemma UninitInitStep(st: State)
    ensures UninitStep(InitStep(st)) == st
  {
    hide UnclockKeyStream, ClockFsm, UnclockFsm, Feedback, Xor, Plus;
    UnclockClockFsm(st);
    XorLaws(Feedback(st.lfsr), FsmOutput(st));
    assert InitStep(st).lfsr.(s15 := Feedback(st.lfsr)) == ClockKeyStream(st.lfsr);
    UnclockClock(st.lfsr);
  }

  // ----- no two runs ever merge

  lemma {:induction false} InitStepsInjective(st: State, st': State, n: nat)
    requires InitSteps(st, n) == InitSteps(st', n)
    ensures st == st'
  {
    hide InitStep, UninitStep;
    if n > 0 {
      UninitInitStep(InitSteps(st, n - 1));
      UninitInitStep(InitSteps(st', n - 1));
      InitStepsInjective(st, st', n - 1);
    }
  }

  lemma {:induction false} StepsInjective(st: State, st': State, n: nat)
    requires Steps(st, n) == Steps(st', n)
    ensures st == st'
  {
    hide Step, Unstep;
    if n > 0 {
      UnstepStep(Steps(st, n - 1));
      UnstepStep(Steps(st', n - 1));
      StepsInjective(st, st', n - 1);
    }
  }

  lemma XorCancel(a: bv32, b: bv32, d: bv32)
    requires Xor(a, b) == Xor(a, d)
    ensures b == d
  {
    hide *;
    XorLaws(b, a);
    XorLaws(d, a);
    XorLaws(a, b);
    XorLaws(a, d);
  }

  lemma LoadInjective(k: Quad, IV: Quad, k': Quad, IV': Quad)
    requires Load(k, IV) == Load(k', IV')
    ensures k == k' && IV == IV'
  {
    hide Xor;
    var l, l' := Load(k, IV).lfsr, Load(k', IV').lfsr;
    assert k == [l.s4, l.s5, l.s6, l.s7];
    assert k' == [l'.s4, l'.s5, l'.s6, l'.s7];
    XorCancel(k[3], IV[0], IV'[0]);
    XorCancel(k[0], IV[1], IV'[1]);
    XorCancel(Xor(k[2], ONES), IV[2], IV'[2]);
    XorCancel(Xor(k[1], ONES), IV[3], IV'[3]);
    assert IV == [IV[0], IV[1], IV[2], IV[3]];
    assert IV' == [IV'[0], IV'[1], IV'[2], IV'[3]];
  }

  /** Two loads that differ lead to states that differ, after initialisation and after any number of keystream words. */
  lemma RunsNeverMerge(k: Quad, IV: Quad, k': Quad, IV': Quad, n: nat)
    requires k != k' || IV != IV'
    ensures Steps(Initialize(k, IV), n) != Steps(Initialize(k', IV'), n)
  {
    hide Load, Steps, InitSteps;
    if Steps(Initialize(k, IV), n) == Steps(Initialize(k', IV'), n) {
      StepsInjective(Initialize(k, IV), Initialize(k', IV'), n);
      InitStepsInjective(Load(k, IV), Load(k', IV'), 32);
      LoadInjective(k, IV, k', IV');
    }
  }

  // ----- the static registers

  class Snow {
    var LFSR: Lfsr
    var FSM_R1: bv32
    var FSM_R2: bv32
    var FSM_R3: bv32

    ghost function Now(): State
      reads this
    {
      State(LFSR, Fsm(FSM_R1, FSM_R2, FSM_R3))
    }

    method ClockLFSRInitializationMode(F: bv32)
      modifies this`LFSR
      ensures LFSR == ClockInitialization(old(LFSR), F)
    {
      hide Xor, TimesAlpha, OverAlpha;
      var v := Xor(Xor(Xor(TimesAlpha(LFSR.s0), LFSR.s2), OverAlpha(LFSR.s11)), F);
      LFSR := ShiftIn(LFSR, v);
    }

    method ClockLFSRKeyStreamMode()
      modifies this`LFSR
      ensures LFSR == ClockKeyStream(old(LFSR))
    {
      hide Xor, TimesAlpha, OverAlpha;
      var v := Xor(Xor(TimesAlpha(LFSR.s0), LFSR.s2), OverAlpha(LFSR.s11));
      LFSR := ShiftIn(LFSR, v);
    }

    method ClockFSM() returns (F: bv32)
      modifies this`FSM_R1, this`FSM_R2, this`FSM_R3
      ensures F == FsmOutput(old(Now()))
      ensures Now() == State(old(LFSR), ClockFsm(old(Now())))
    {
      hide Xor, Plus, S1, S2;
      F := Xor(Plus(LFSR.s15, FSM_R1), FSM_R2);
      var r := Plus(FSM_R2, Xor(FSM_R3, LFSR.s5));
      FSM_R3 := S2(FSM_R2);
      FSM_R2 := S1(FSM_R1);
      FSM_R1 := r;
    }

    /** Whatever the registers held before, they now hold the initialised state of key k and variable IV. */
    method snow_3g_initialize(k: Quad, IV: Quad)
      modifies this
      ensures Now() == Initialize(k, IV)
    {
      hide Xor, InitStep, ClockFsm, FsmOutput, ClockInitialization;
      LFSR := Lfsr(Xor(k[0], ONES), Xor(k[1], ONES), Xor(k[2], ONES), Xor(k[3], ONES),
                   k[0], k[1], k[2], k[3],
                   Xor(k[0], ONES), Xor(Xor(k[1], ONES), IV[3]), Xor(Xor(k[2], ONES), IV[2]), Xor(k[3], ONES),
                   Xor(k[0], IV[1]), k[1], k[2], Xor(k[3], IV[0]));
      FSM_R1, FSM_R2, FSM_R3 := 0, 0, 0;
      ghost var start := Load(k, IV);
      for i := 0 to 32
        invariant Now() == InitSteps(start, i)
      {
        ghost var before := Now();
        var F := ClockFSM();
        ClockLFSRInitializationMode(F);
        InitStepForm(before);
      }
    }

    method snow_3g_generate_key_stream(n: nat, ks: array<bv32>)
      requires n <= ks.Length
      modifies this, ks
      ensures ks[..n] == KeyStreamFrom(Step(old(Now())), n)
      ensures ks[n..] == old(ks[n..])
      ensures Now() == Steps(Step(old(Now())), n)
    {
      hide Xor, Step, Steps, KeyStreamFrom, OutputWord, FsmOutput, ClockFsm, ClockKeyStream;
      ghost var start := Step(Now());
      StepForm(Now());
      var F := ClockFSM();
      ClockLFSRKeyStreamMode();
      Start(start);
      for t := 0 to n
        invariant Now() == Steps(start, t)
        invariant ks[..t] == KeyStreamFrom(start, t)
        invariant ks[n..] == old(ks[n..])
      {
        ghost var done := ks[..t];
        StepForm(Now());
        KeyStreamNext(start, t);
        StepsNext(start, t);
        F := ClockFSM();
        ks[t] := Xor(F, LFSR.s0);
        ClockLFSRKeyStreamMode();
        assert ks[..t + 1] == done + [ks[t]];
      }
    }
  }

  lemma Start(st: State)
    ensures Steps(st, 0) == st && KeyStreamFrom(st, 0) == []
  {
  }

  lemma StepsNext(st: State, n: nat)
    ensures Steps(st, n + 1) == Step(Steps(st, n))
  {
  }

  lemma StepForm(st: State)
    ensures Step(st) == State(ClockKeyStream(st.lfsr), ClockFsm(st))
    ensures OutputWord(st) == Xor(FsmOutput(st), st.lfsr.s0)
  {
  }

  lemma InitStepForm(st: State)
    ensures InitStep(st) == State(ClockInitialization(st.lfsr, FsmOutput(st)), ClockFsm(st))
  {
  }
}
