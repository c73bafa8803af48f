/** Cyclic redundancy codes as division of polynomials over GF(2).

    A bit sequence stands for a polynomial, highest coefficient first. A generator of degree n is given by its n
    lower coefficients; its leading coefficient is 1. The division register of a CRC holds n bits. The three CRCs of
    this project (IuUP header, IuUP payload, LLC frame) are shown elsewhere to run this register. */
module CrcTheory {

  type Bits = seq<bool>

  function Zeros(n: nat): (r: Bits)
    ensures |r| == n
  {
    seq(n, _ => false)
  }

  function Xor(a: Bits, b: Bits): (r: Bits)
    requires |a| == |b|
    ensures |r| == |a|
    ensures forall i :: 0 <= i < |a| ==> r[i] == (a[i] != b[i])
  {
    seq(|a|, i requires 0 <= i < |a| => a[i] != b[i])
  }

  /** One clock of the register: bit b enters, the register moves up by one place, and if the bit that leaves differs
      from b the generator is subtracted. */
  function Step(g: Bits, reg: Bits, b: bool): (r: Bits)
    requires |reg| == |g| > 0
    ensures |r| == |g|
  {
    var up := reg[1..] + [false];
    if reg[0] != b then Xor(up, g) else up
  }

  function Feed(g: Bits, reg: Bits, m: Bits): (r: Bits)
    requires |reg| == |g| > 0
    ensures |r| == |g|
    decreases |m|
  {
    if m == [] then reg else Feed(g, Step(g, reg, m[0]), m[1..])
  }

  // ----- the reference: division with remainder

  /** The product q * G, as |q| + n coefficients. */
  function Multiple(g: Bits, q: Bits): (r: Bits)
    ensures |r| == |q| + |g|
    decreases |q|
  {
    if q == [] then Zeros(|g|)
    else Xor((if q[0] then [true] + g else Zeros(|g| + 1)) + Zeros(|q| - 1), [false] + Multiple(g, q[1..]))
  }

  /** m * x^n + reg * x^|m|: the message moved up by n places, plus the initial register on top. */
  function Dividend(reg: Bits, m: Bits): (r: Bits)
    ensures |r| == |m| + |reg|
  {
    Xor(m + Zeros(|reg|), reg + Zeros(|m|))
  }

  /** d = q * G + r with a quotient of |m| bits and a remainder of n bits. */
  ghost predicate Divides(g: Bits, d: Bits, q: Bits, r: Bits) {
    && |r| == |g|
    && |d| == |q| + |g|
    && d == Xor(Multiple(g, q), Zeros(|q|) + r)
  }

  /** The bits that leave the register are the quotient. */
  function Quotient(g: Bits, reg: Bits, m: Bits): (q: Bits)
    requires |reg| == |g| > 0
    ensures |q| == |m|
    decreases |m|
  {
    if m == [] then [] else [reg[0] != m[0]] + Quotient(g, Step(g, reg, m[0]), m[1..])
  }

  lemma {:induction false} RegisterDivides(g: Bits, reg: Bits, m: Bits)
    requires |reg| == |g| > 0
    ensures Divides(g, Dividend(reg, m), Quotient(g, reg, m), Feed(g, reg, m))
    decreases |m|
  {
    hide Step, Dividend;
    if m == [] {
      DividendOfEmpty(reg);
    } else {
      var next, t, q := Step(g, reg, m[0]), m[1..], Quotient(g, reg, m);
      RegisterDivides(g, next, t);
      assert q[1..] == Quotient(g, next, t);
      var top := (if q[0] then [true] + g else Zeros(|g| + 1)) + Zeros(|t|);
      DividendStep(g, reg, m, top);
      Regroup(top, Multiple(g, q[1..]), Zeros(|t|), Feed(g, next, t));
    }
  }

  lemma DividendOfEmpty(reg: Bits)
    ensures Dividend(reg, []) == reg && Xor(Zeros(|reg|), Zeros(0) + reg) == reg
  {
  }

  lemma Regroup(top: Bits, lower: Bits, z: Bits, r: Bits)
    requires z == Zeros(|z|) && |top| == |lower| + 1 && |lower| == |z| + |r|
    ensures Xor(top, [false] + Xor(lower, z + r)) == Xor(Xor(top, [false] + lower), Zeros(|z| + 1) + r)
  {
    assert Zeros(|z| + 1) + r == [false] + (z + r);
  }

  /** Subtracting the generator, if the top bit asks for it, clears the top bit and leaves the next dividend. */
  lemma DividendStep(g: Bits, reg: Bits, m: Bits, top: Bits)
    requires |reg| == |g| > 0 && m != []
    requires top == (if reg[0] != m[0] then [true] + g else Zeros(|g| + 1)) + Zeros(|m| - 1)
    ensures Dividend(reg, m) == Xor(top, [false] + Dividend(Step(g, reg, m[0]), m[1..]))
  {
    var next := Step(g, reg, m[0]);
    var right := Xor(top, [false] + Dividend(next, m[1..]));
    forall k | 0 <= k < |m| + |g|
      ensures Dividend(reg, m)[k] == right[k]
    {
      if k > 0 {
        assert Dividend(next, m[1..])[k - 1] == ((m[1..] + Zeros(|g|))[k - 1] != (next + Zeros(|m| - 1))[k - 1]);
        assert (m[1..] + Zeros(|g|))[k - 1] == (m + Zeros(|g|))[k];
      }
    }
  }

  lemma {:induction false} DivisionUnique(g: Bits, d: Bits, q: Bits, r: Bits, q': Bits, r': Bits)
    requires |q| == |q'|
    requires Divides(g, d, q, r) && Divides(g, d, q', r')
    ensures q == q' && r == r'
    decreases |q|
  {
    if q == [] {
      assert d == Xor(Zeros(|g|), r) && d == Xor(Zeros(|g|), r');
      assert forall i :: 0 <= i < |r| ==> d[i] == r[i] && d[i] == r'[i];
    } else {
      var d1 := Peel(g, d, q, r);
      var d2 := Peel(g, d, q', r');
      assert d1 == d2;
      DivisionUnique(g, d1, q[1..], r, q'[1..], r');
      assert q == [q[0]] + q[1..] && q' == [q'[0]] + q'[1..];
    }
  }

  /** The first quotient bit is the top bit of the dividend; taking it out leaves a division by one bit shorter. */
  lemma Peel(g: Bits, d: Bits, q: Bits, r: Bits) returns (d': Bits)
    requires q != [] && Divides(g, d, q, r)
    ensures q[0] == d[0]
    ensures d' == Xor(d, (if d[0] then [true] + g else Zeros(|g| + 1)) + Zeros(|q| - 1))[1..]
    ensures Divides(g, d', q[1..], r)
  {
    var top := (if q[0] then [true] + g else Zeros(|g| + 1)) + Zeros(|q| - 1);
    var lower := Multiple(g, q[1..]);
    assert Multiple(g, q) == Xor(top, [false] + lower);
    assert d[0] == (Multiple(g, q)[0] != (Zeros(|q|) + r)[0]);
    d' := Xor(d, top)[1..];
    var right := Xor(lower, Zeros(|q| - 1) + r);
    forall k | 0 <= k < |d'|
      ensures d'[k] == right[k]
    {
      assert d[k + 1] == (Multiple(g, q)[k + 1] != (Zeros(|q|) + r)[k + 1]);
    }
  }

  /** The register ends up with r exactly if r is the remainder of the dividend. */
  lemma RegisterIsRemainder(g: Bits, reg: Bits, m: Bits, r: Bits)
    requires |reg| == |g| > 0
    ensures Feed(g, reg, m) == r <==> exists q: Bits :: |q| == |m| && Divides(g, Dividend(reg, m), q, r)
  {
    RegisterDivides(g, reg, m);
    forall q: Bits | |q| == |m| && Divides(g, Dividend(reg, m), q, r)
      ensures Feed(g, reg, m) == r
    {
      DivisionUnique(g, Dividend(reg, m), q, r, Quotient(g, reg, m), Feed(g, reg, m));
    }
  }

  // ----- running the register over parts of a message

  lemma {:induction false} FeedAppend(g: Bits, reg: Bits, m: Bits, k: Bits)
    requires |reg| == |g| > 0
    ensures Feed(g, reg, m + k) == Feed(g, Feed(g, reg, m), k)
    decreases |m|
  {
    if m == [] {
      assert m + k == k;
    } else {
      assert (m + k)[1..] == m[1..] + k;
      FeedAppend(g, Step(g, reg, m[0]), m[1..], k);
    }
  }

  /** Up to n message bits act as if they had been added to the register beforehand. */
  lemma {:induction false} Absorb(g: Bits, reg: Bits, d: Bits)
    requires |d| <= |reg| == |g| && |g| > 0
    ensures Feed(g, reg, d) == Feed(g, Xor(reg, d + Zeros(|g| - |d|)), Zeros(|d|))
    decreases |d|
  {
    hide Step, Xor;
    if d == [] {
      AddZero(reg, Zeros(|g|));
      assert d + Zeros(|g| - |d|) == Zeros(|g|);
    } else {
      Absorb(g, Step(g, reg, d[0]), d[1..]);
      AbsorbStep(g, reg, d);
      assert Zeros(|d|)[1..] == Zeros(|d| - 1);
    }
  }

  lemma AddZero(a: Bits, z: Bits)
    requires z == Zeros(|a|)
    ensures Xor(a, z) == a
  {
  }

  lemma AbsorbStep(g: Bits, reg: Bits, d: Bits)
    requires 0 < |d| <= |reg| == |g|
    ensures Step(g, Xor(reg, d + Zeros(|g| - |d|)), false)
         == Xor(Step(g, reg, d[0]), d[1..] + Zeros(|g| - |d| + 1))
  {
    var padded := d + Zeros(|g| - |d|);
    assert padded[1..] + [false] == d[1..] + Zeros(|g| - |d| + 1);
  }

  lemma {:induction false} FeedZero(g: Bits, n: nat)
    requires |g| > 0
    ensures Feed(g, Zeros(|g|), Zeros(n)) == Zeros(|g|)
  {
    if n > 0 {
      FeedZero(g, n - 1);
      assert Zeros(n)[1..] == Zeros(n - 1);
      assert Step(g, Zeros(|g|), false) == Zeros(|g|);
    }
  }

  /** A message followed by its remainder, with k added to it, leaves a register that depends on k alone. */
  lemma Residue(g: Bits, reg: Bits, m: Bits, k: Bits)
    requires |reg| == |g| == |k| && |g| > 0
    ensures Feed(g, reg, m + Xor(Feed(g, reg, m), k)) == Feed(g, k, Zeros(|g|))
  {
    var r := Feed(g, reg, m);
    FeedAppend(g, reg, m, Xor(r, k));
    Absorb(g, r, Xor(r, k));
    assert Xor(r, Xor(r, k) + Zeros(0)) == k;
  }

  lemma CodewordHasZeroRemainder(g: Bits, reg: Bits, m: Bits)
    requires |reg| == |g| > 0
    ensures Feed(g, reg, m + Feed(g, reg, m)) == Zeros(|g|)
  {
    Residue(g, reg, m, Zeros(|g|));
    FeedZero(g, |g|);
    assert Xor(Feed(g, reg, m), Zeros(|g|)) == Feed(g, reg, m);
  }

  // ----- error detection

  lemma StepInjective(g: Bits, reg: Bits, reg': Bits, b: bool)
    requires |reg| == |reg'| == |g| > 0 && g[|g| - 1]
    requires Step(g, reg, b) == Step(g, reg', b)
    ensures reg == reg'
  {
    var n := |g|;
    assert Step(g, reg, b)[n - 1] == (reg[0] != b);
    assert Step(g, reg', b)[n - 1] == (reg'[0] != b);
    forall i | 1 <= i < n
      ensures reg[i] == reg'[i]
    {
      assert Step(g, reg, b)[i - 1] == (reg[i] != ((reg[0] != b) && g[i - 1]));
      assert Step(g, reg', b)[i - 1] == (reg'[i] != ((reg'[0] != b) && g[i - 1]));
    }
  }

  lemma {:induction false} FeedInjective(g: Bits, reg: Bits, reg': Bits, m: Bits)
    requires |reg| == |reg'| == |g| > 0 && g[|g| - 1]
    requires Feed(g, reg, m) == Feed(g, reg', m)
    ensures reg == reg'
    decreases |m|
  {
    if m != [] {
      FeedInjective(g, Step(g, reg, m[0]), Step(g, reg', m[0]), m[1..]);
      StepInjective(g, reg, reg', m[0]);
    }
  }

  /** Two messages that agree before and after a window of at most n bits have equal remainders exactly if they agree
      in the window as well: every burst error of at most n bits is detected, wherever it lies. */
  lemma BurstDetected(g: Bits, reg: Bits, before: Bits, d: Bits, d': Bits, after: Bits)
    requires |reg| == |g| > 0 && g[|g| - 1]
    requires |d| == |d'| <= |g|
    ensures Feed(g, reg, before + d + after) == Feed(g, reg, before + d' + after) <==> d == d'
  {
    hide *;
    var s := Feed(g, reg, before);
    FeedAppend(g, reg, before + d, after);
    FeedAppend(g, reg, before, d);
    FeedAppend(g, reg, before + d', after);
    FeedAppend(g, reg, before, d');
    if Feed(g, reg, before + d + after) == Feed(g, reg, before + d' + after) {
      FeedInjective(g, Feed(g, s, d), Feed(g, s, d'), after);
      WindowDetected(g, s, d, d');
    }
  }

  lemma WindowDetected(g: Bits, s: Bits, d: Bits, d': Bits)
    requires |s| == |g| > 0 && g[|g| - 1]
    requires |d| == |d'| <= |g|
    requires Feed(g, s, d) == Feed(g, s, d')
    ensures d == d'
  {
    hide *;
    var z := Zeros(|g| - |d|);
    Absorb(g, s, d);
    Absorb(g, s, d');
    FeedInjective(g, Xor(s, d + z), Xor(s, d' + z), Zeros(|d|));
    XorPrefix(s, d, d', z);
  }

  lemma XorPrefix(s: Bits, d: Bits, d': Bits, z: Bits)
    requires |d| == |d'| && |s| == |d| + |z|
    requires Xor(s, d + z) == Xor(s, d' + z)
    ensures d == d'
  {
    forall i | 0 <= i < |d|
      ensures d[i] == d'[i]
    {
      assert Xor(s, d + z)[i] == (s[i] != d[i]);
      assert Xor(s, d' + z)[i] == (s[i] != d'[i]);
    }
  }

  /** The parity of the number of ones. */
  function Parity(m: Bits): bool
    decreases |m|
  {
    if m == [] then false else m[0] != Parity(m[1..])
  }

  lemma {:induction false} ParityOfXor(a: Bits, b: Bits)
    requires |a| == |b|
    ensures Parity(Xor(a, b)) == (Parity(a) != Parity(b))
    decreases |a|
  {
    if a != [] {
      ParityOfXor(a[1..], b[1..]);
      assert Xor(a, b)[1..] == Xor(a[1..], b[1..]);
    }
  }

  lemma {:induction false} ParityOfAppend(a: Bits)
    ensures Parity(a + [false]) == Parity(a)
    decreases |a|
  {
    if a == [] {
      assert (a + [false])[1..] == [];
    } else {
      ParityOfAppend(a[1..]);
      assert (a + [false])[1..] == a[1..] + [false];
    }
  }

  /** If x + 1 divides the generator (its number of terms is even), the remainder has the parity of the message. */
  lemma {:induction false} ParityKept(g: Bits, reg: Bits, m: Bits)
    requires |reg| == |g| > 0 && Parity(g)
    ensures Parity(Feed(g, reg, m)) == (Parity(reg) != Parity(m))
    decreases |m|
  {
    if m != [] {
      var up := reg[1..] + [false];
      ParityKept(g, Step(g, reg, m[0]), m[1..]);
      ParityOfAppend(reg[1..]);
      ParityOfXor(up, g);
    }
  }

  /** Hence every error that flips an odd number of bits is detected. */
  lemma OddErrorDetected(g: Bits, reg: Bits, m: Bits, e: Bits)
    requires |reg| == |g| > 0 && Parity(g)
    requires |e| == |m| && Parity(e)
    ensures Feed(g, reg, Xor(m, e)) != Feed(g, reg, m)
  {
    ParityKept(g, reg, m);
    ParityKept(g, reg, Xor(m, e));
    ParityOfXor(m, e);
  }
}
