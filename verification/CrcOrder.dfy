/** Two flipped bits and cyclic redundancy codes: they go unnoticed exactly if the distance between them is a multiple
    of the order of x modulo the generator. */
module CrcOrder {
  import opened CrcTheory

  /** The register that holds the polynomial 1. */
  function One(g: Bits): (r: Bits)
    requires |g| > 0
    ensures |r| == |g|
  {
    Zeros(|g| - 1) + [true]
  }

  /** The register that holds x^(n - 1). */
  function Top(g: Bits): (r: Bits)
    requires |g| > 0
    ensures |r| == |g|
  {
    [true] + Zeros(|g| - 1)
  }

  /** k clocks without input multiply by x^k. */
  function Moved(g: Bits, reg: Bits, k: nat): (r: Bits)
    requires |reg| == |g| > 0
    ensures |r| == |g|
  {
    Feed(g, reg, Zeros(k))
  }

  /** x^k is 1 modulo the generator. */
  predicate Returns(g: Bits, k: nat)
    requires |g| > 0
  {
    Moved(g, One(g), k) == One(g)
  }

  ghost predicate IsOrder(g: Bits, n: nat)
    requires |g| > 0
  {
    n > 0 && Returns(g, n) && forall k | 0 < k < n :: !Returns(g, k)
  }

  // ----- powers of x

  lemma MovedNext(g: Bits, reg: Bits, k: nat)
    requires |reg| == |g| > 0
    ensures Moved(g, reg, k + 1) == Moved(g, Step(g, reg, false), k)
    ensures Moved(g, reg, 0) == reg
  {
    hide Step;
    assert Zeros(k + 1)[1..] == Zeros(k);
  }

  lemma MovedTwice(g: Bits, reg: Bits, j: nat, k: nat)
    requires |reg| == |g| > 0
    ensures Moved(g, reg, j + k) == Moved(g, Moved(g, reg, j), k)
  {
    hide Step;
    FeedAppend(g, reg, Zeros(j), Zeros(k));
    assert Zeros(j) + Zeros(k) == Zeros(j + k);
  }

  lemma {:induction false} ReturnsRepeats(g: Bits, n: nat, q: nat, r: nat)
    requires |g| > 0 && Returns(g, n)
    ensures Moved(g, One(g), n * q + r) == Moved(g, One(g), r)
    decreases q
  {
    hide Moved, One;
    if q > 0 {
      ReturnsRepeats(g, n, q - 1, r);
      MovedTwice(g, One(g), n, n * (q - 1) + r);
      assert n + (n * (q - 1) + r) == n * q + r;
    }
  }

  lemma OrderDivides(g: Bits, n: nat, k: nat)
    requires |g| > 0 && n > 0 && IsOrder(g, n)
    ensures Returns(g, k) <==> k % n == 0
  {
    hide Moved, One;
    ReturnsRepeats(g, n, k / n, k % n);
    assert n * (k / n) + k % n == k;
    assert Returns(g, k) <==> Returns(g, k % n);
    MovedNext(g, One(g), 0);
  }

  /** The polynomial 1 becomes x^(n - 1) in n - 1 clocks. */
  lemma {:induction false} OneClimbs(g: Bits, k: nat)
    requires k < |g|
    ensures Moved(g, One(g), k) == Zeros(|g| - 1 - k) + [true] + Zeros(k)
    decreases k
  {
    hide Moved;
    if k == 0 {
      MovedNext(g, One(g), 0);
      assert Zeros(|g| - 1) + [true] + Zeros(0) == One(g);
    } else {
      OneClimbs(g, k - 1);
      MovedTwice(g, One(g), k - 1, 1);
      ClimbOnce(g, k);
      var reg := Zeros(|g| - k) + [true] + Zeros(k - 1);
      MovedNext(g, reg, 0);
      MovedNext(g, Step(g, reg, false), 0);
    }
  }

  lemma ClimbOnce(g: Bits, k: nat)
    requires 0 < k < |g|
    ensures Step(g, Zeros(|g| - k) + [true] + Zeros(k - 1), false) == Zeros(|g| - 1 - k) + [true] + Zeros(k)
  {
  }

  lemma MovedInjective(g: Bits, reg: Bits, reg': Bits, k: nat)
    requires |reg| == |reg'| == |g| > 0 && g[|g| - 1]
    requires Moved(g, reg, k) == Moved(g, reg', k)
    ensures reg == reg'
  {
    hide Step;
    FeedInjective(g, reg, reg', Zeros(k));
  }

  /** So x^(n - 1) comes back exactly when 1 does. */
  lemma TopReturns(g: Bits, k: nat)
    requires |g| > 0 && g[|g| - 1]
    ensures Moved(g, Top(g), k) == Top(g) <==> Returns(g, k)
  {
    hide Moved;
    var n := |g|;
    OneClimbs(g, n - 1);
    assert Zeros(0) + [true] + Zeros(n - 1) == Top(g);
    MovedTwice(g, One(g), n - 1, k);
    MovedTwice(g, One(g), k, n - 1);
    if Moved(g, Top(g), k) == Top(g) {
      MovedInjective(g, Moved(g, One(g), k), One(g), n - 1);
    }
  }

  // ----- two flipped bits

  /** The error pattern. */
  function TwoFlips(n: nat, i: nat, j: nat): (r: Bits)
    ensures |r| == n
  {
    seq(n, k => k == i || k == j)
  }

  lemma {:induction false} FeedLinear(g: Bits, r: Bits, s: Bits, m: Bits, e: Bits)
    requires |r| == |s| == |g| > 0 && |m| == |e|
    ensures Feed(g, Xor(r, s), Xor(m, e)) == Xor(Feed(g, r, m), Feed(g, s, e))
    decreases |m|
  {
    hide Step, Xor;
    if m != [] {
      StepLinear(g, r, s, m[0], e[0]);
      XorTail(m, e);
      FeedLinear(g, Step(g, r, m[0]), Step(g, s, e[0]), m[1..], e[1..]);
    }
  }

  lemma XorTail(m: Bits, e: Bits)
    requires |m| == |e| > 0
    ensures Xor(m, e)[0] == (m[0] != e[0]) && Xor(m, e)[1..] == Xor(m[1..], e[1..])
  {
  }

  lemma StepLinear(g: Bits, r: Bits, s: Bits, b: bool, c: bool)
    requires |r| == |s| == |g| > 0
    ensures Step(g, Xor(r, s), b != c) == Xor(Step(g, r, b), Step(g, s, c))
  {
  }

  lemma XorSame(a: Bits, b: Bits)
    requires |a| == |b|
    ensures Xor(a, b) == a <==> b == Zeros(|b|)
  {
    if Xor(a, b) == a {
      forall i | 0 <= i < |b|
        ensures b[i] == Zeros(|b|)[i]
      {
        assert Xor(a, b)[i] == (a[i] != b[i]);
      }
    }
  }

  /** A set bit that enters an empty register acts like x^(n - 1) in it. */
  lemma BitIsTop(g: Bits)
    requires |g| > 0
    ensures Step(g, Zeros(|g|), true) == Step(g, Top(g), false)
  {
  }

  /** A set bit that enters as the register holds v leaves nothing exactly if v is x^(n - 1). */
  lemma Cancels(g: Bits, v: Bits)
    requires |v| == |g| > 0 && g[|g| - 1]
    ensures Step(g, v, true) == Zeros(|g|) <==> v == Top(g)
  {
    var z := Zeros(|g|);
    assert Step(g, Top(g), true) == z;
    if Step(g, v, true) == z {
      StepInjective(g, v, Top(g), true);
    }
  }

  lemma FlipsSplit(n: nat, i: nat, j: nat)
    requires i < j < n
    ensures TwoFlips(n, i, j) == Zeros(i) + ([true] + (Zeros(j - i - 1) + ([true] + Zeros(n - j - 1))))
  {
  }

  /** What two set bits leave in an empty register. */
  lemma FlipsLeave(g: Bits, n: nat, i: nat, j: nat)
    requires |g| > 0 && i < j < n
    ensures Feed(g, Zeros(|g|), TwoFlips(n, i, j))
         == Moved(g, Step(g, Moved(g, Top(g), j - i), true), n - j - 1)
  {
    hide Step, TwoFlips, Top;
    var z := Zeros(|g|);
    var last := [true] + Zeros(n - j - 1);
    var middle := Zeros(j - i - 1) + last;
    var v := Step(g, z, true);
    FlipsSplit(n, i, j);
    FeedAppend(g, z, Zeros(i), [true] + middle);
    FeedZero(g, i);
    assert ([true] + middle)[1..] == middle && last[1..] == Zeros(n - j - 1);
    FeedAppend(g, v, Zeros(j - i - 1), last);
    BitIsTop(g);
    MovedNext(g, Top(g), j - i - 1);
  }

  /** Two set bits leave nothing exactly if x to the distance between them is 1. */
  lemma FlipsCancel(g: Bits, n: nat, i: nat, j: nat)
    requires |g| > 0 && g[|g| - 1] && i < j < n
    ensures Feed(g, Zeros(|g|), TwoFlips(n, i, j)) == Zeros(|g|) <==> Returns(g, j - i)
  {
    hide *;
    var k, d := n - j - 1, j - i;
    FlipsLeave(g, n, i, j);
    var left := Step(g, Moved(g, Top(g), d), true);
    MovedZero(g, k);
    if Moved(g, left, k) == Zeros(|g|) {
      MovedInjective(g, left, Zeros(|g|), k);
    }
    Cancels(g, Moved(g, Top(g), d));
    TopReturns(g, d);
  }

  /** An error goes unnoticed exactly if it leaves nothing in an empty register. */
  lemma Unnoticed(g: Bits, reg: Bits, m: Bits, e: Bits)
    requires |reg| == |g| > 0 && |e| == |m|
    ensures Feed(g, reg, Xor(m, e)) == Feed(g, reg, m) <==> Feed(g, Zeros(|g|), e) == Zeros(|g|)
  {
    hide *;
    FeedLinear(g, reg, Zeros(|g|), m, e);
    AddZero(reg, Zeros(|g|));
    XorSame(Feed(g, reg, m), Feed(g, Zeros(|g|), e));
  }

  /** Flipping the bits i and j leaves the checksum as it is. */
  predicate Undetected(g: Bits, reg: Bits, m: Bits, i: nat, j: nat)
    requires |reg| == |g| > 0
  {
    Feed(g, reg, Xor(m, TwoFlips(|m|, i, j))) == Feed(g, reg, m)
  }

  lemma FlipsUnnoticed(g: Bits, reg: Bits, m: Bits, i: nat, j: nat)
    requires |reg| == |g| > 0 && g[|g| - 1] && i < j < |m|
    ensures Undetected(g, reg, m, i, j) <==> Returns(g, j - i)
  {
    var e := TwoFlips(|m|, i, j);
    assert Undetected(g, reg, m, i, j) <==> Feed(g, reg, Xor(m, e)) == Feed(g, reg, m);
    hide *;
    Unnoticed(g, reg, m, e);
    FlipsCancel(g, |m|, i, j);
  }

  /** Flipping the bits i and j of a message leaves its checksum as it is exactly if the distance between them is a
      multiple of the order of x. */
  lemma TwoFlipsExactly(g: Bits, order: nat, reg: Bits, m: Bits, i: nat, j: nat)
    requires |reg| == |g| > 0 && g[|g| - 1] && order > 0 && IsOrder(g, order)
    requires i < j < |m|
    ensures Undetected(g, reg, m, i, j) <==> (j - i) % order == 0
  {
    hide *;
    FlipsUnnoticed(g, reg, m, i, j);
    OrderDivides(g, order, j - i);
  }

  lemma MovedZero(g: Bits, k: nat)
    requires |g| > 0
    ensures Moved(g, Zeros(|g|), k) == Zeros(|g|)
  {
    FeedZero(g, k);
  }

  // ----- finding the order

  /** n clocks lead from reg to the register `to`, and before that never through 1. */
  predicate Leads(g: Bits, reg: Bits, to: Bits, n: nat)
    requires |reg| == |to| == |g| > 0
    decreases n
  {
    if n == 0 then reg == to else reg != One(g) && Leads(g, Step(g, reg, false), to, n - 1)
  }

  lemma {:induction false} LeadsFar(g: Bits, reg: Bits, to: Bits, n: nat)
    requires |reg| == |to| == |g| > 0 && Leads(g, reg, to, n)
    ensures Moved(g, reg, n) == to
    ensures forall k | 0 <= k < n :: Moved(g, reg, k) != One(g)
    decreases n
  {
    hide Step, Moved, One;
    MovedNext(g, reg, 0);
    if n > 0 {
      var next := Step(g, reg, false);
      LeadsFar(g, next, to, n - 1);
      MovedNext(g, reg, n - 1);
      forall k | 0 < k < n
        ensures Moved(g, reg, k) != One(g)
      {
        MovedNext(g, reg, k - 1);
      }
    }
  }

  /** The first time that 1 comes back gives the order. */
  lemma FirstReturn(g: Bits, n: nat)
    requires |g| > 0 && Leads(g, Step(g, One(g), false), One(g), n)
    ensures IsOrder(g, n + 1)
  {
    hide Step, Moved, One, Leads;
    LeadsFar(g, Step(g, One(g), false), One(g), n);
    MovedNext(g, One(g), n);
    forall k | 0 < k < n + 1
      ensures !Returns(g, k)
    {
      MovedNext(g, One(g), k - 1);
    }
  }
}
