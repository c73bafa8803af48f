/** How many of the 2^128 pairs of keystream words P and Q let a second message be given the MAC of a first one, or one
    that differs from it in a chosen way (3GPP TS 35.215, section 4): the security claim behind f9. */
module F9Forgeries {
  import opened Numbers
  import opened UeaUia
  import opened Gf64
  import opened Gf64Field
  import opened F9Collisions
  import opened Alpha

  const TWO32 := 0x1_0000_0000

  /** The MAC before the mask. */
  function Hashed(data: seq<bv8>, length: nat, p: bv64, q: bv64): bv32
    requires length <= 8 * |data| && length < TWO64
  {
    Top32(Product(Add(Eval(data, length, p), WordOf(length)), q, C))
  }

  lemma MacIsHashed(z: seq<bv32>, data: seq<bv8>, length: nat)
    requires |z| == 5 && length <= 8 * |data| && length < TWO64
    ensures Mac(z, Eval(data, length, P(z)), length) == Xor(Hashed(data, length, P(z), Q(z)), z[4])
  {
  }

  // ----- counting

  function Image(s: set<bv64>, f: bv64 -> nat): set<nat> { set x | x in s :: f(x) }

  predicate Injective(s: set<bv64>, f: bv64 -> nat) { forall x, y | x in s && y in s && f(x) == f(y) :: x == y }

  lemma Member<T>(s: set<T>) returns (x: T)
    requires s != {}
    ensures x in s
  {
    x :| x in s;
  }

  lemma {:induction false} ImageSize(s: set<bv64>, f: bv64 -> nat)
    requires Injective(s, f)
    ensures |Image(s, f)| == |s|
    decreases |s|
  {
    if s != {} {
      var x := Member(s);
      var rest := s - {x};
      ImageSize(rest, f);
      assert Image(s, f) == Image(rest, f) + {f(x)};
    }
  }

  lemma {:induction false} SmallNumbers(s: set<nat>, n: nat)
    requires forall x | x in s :: x < n
    ensures |s| <= n
    decreases n
  {
    if n > 0 {
      SmallNumbers(s - {n - 1}, n - 1);
    }
  }

  /** A set that can be numbered below n has at most n elements. */
  lemma Numbered(s: set<bv64>, f: bv64 -> nat, n: nat)
    requires Injective(s, f) && forall x | x in s :: f(x) < n
    ensures |s| <= n
  {
    ImageSize(s, f);
    SmallNumbers(Image(s, f), n);
  }

  function Number32(w: bv32): nat { w as nat }

  function Word32(n: nat): bv32
    requires n < TWO32
  {
    n as bv32
  }

  lemma NumberBack32(w: bv32)
    ensures Number32(w) < TWO32 && Word32(Number32(w)) == w
  {
  }

  lemma FewWords(s: set<bv64>)
    ensures |s| <= TWO64
  {
    hide Number64, Word64;
    forall w: bv64
      ensures Number64(w) < TWO64 && Word64(Number64(w)) == w
    {
      NumberBack64(w);
    }
    Numbered(s, Number64, TWO64);
  }

  // ----- for a point P at which the messages do not meet

  lemma HalvesDetermine(v: bv64, w: bv64)
    requires Top32(v) == Top32(w) && Low32(v) == Low32(w)
    ensures v == w
  {
    JoinTop(v);
    JoinTop(w);
  }

  /** No more than 2^32 multipliers take d to a word with a given upper half. */
  lemma FewMultipliers(d: bv64, m: bv32, qs: set<bv64>)
    requires d != 0 && forall q | q in qs :: Top32(Product(d, q, C)) == m
    ensures |qs| <= TWO32
  {
    hide Product, Top32, Low32, Number32, Word32;
    var f := (q: bv64) => Number32(Low32(Product(d, q, C)));
    forall q | q in qs
      ensures f(q) < TWO32
    {
      NumberBack32(Low32(Product(d, q, C)));
    }
    forall q, q' | q in qs && q' in qs && f(q) == f(q')
      ensures q == q'
    {
      NumberBack32(Low32(Product(d, q, C)));
      NumberBack32(Low32(Product(d, q', C)));
      HalvesDetermine(Product(d, q, C), Product(d, q', C));
      CancelFactor(d, q, q');
    }
    Numbered(qs, f, TWO32);
  }

  lemma CancelFactor(d: bv64, q: bv64, q': bv64)
    requires d != 0 && Product(d, q, C) == Product(d, q', C)
    ensures q == q'
  {
    hide Product, Add;
    Distributive(d, q, q', C);
    AddZero(Product(d, q, C));
    NoZeroDivisors(d, Add(q, q'));
    if q != q' {
      DifferentSum(q, q');
    }
  }

  // ----- pairs, counted by their first half

  type Pair = (bv64, bv64)

  function Firsts(pairs: set<Pair>): set<bv64> { set pq | pq in pairs :: pq.0 }

  function Seconds(pairs: set<Pair>, p: bv64): set<bv64> { set pq | pq in pairs && pq.0 == p :: pq.1 }

  function With(pairs: set<Pair>, p: bv64): set<Pair> { set pq | pq in pairs && pq.0 == p }

  lemma OnePairMore(rest: set<Pair>, pq: Pair, p: bv64)
    requires pq !in rest
    ensures With(rest + {pq}, p) == if pq.0 == p then With(rest, p) + {pq} else With(rest, p)
    ensures Seconds(rest + {pq}, p) == if pq.0 == p then Seconds(rest, p) + {pq.1} else Seconds(rest, p)
    ensures pq !in With(rest, p) && (pq.0 == p ==> pq.1 !in Seconds(rest, p))
  {
  }

  lemma {:induction false} WithSize(pairs: set<Pair>, p: bv64)
    ensures |With(pairs, p)| == |Seconds(pairs, p)|
    decreases |pairs|
  {
    if pairs != {} {
      var pq :| pq in pairs;
      var rest := pairs - {pq};
      hide With, Seconds;
      WithSize(rest, p);
      OnePairMore(rest, pq, p);
      assert pairs == rest + {pq};
    }
  }

  lemma NoPairs(pairs: set<Pair>)
    requires Firsts(pairs) <= {}
    ensures pairs == {}
  {
    forall pq: Pair
      ensures pq in pairs ==> pq.0 in Firsts(pairs)
    {
    }
  }

  /** Taking out the pairs with first half p. */
  lemma Without(pairs: set<Pair>, ps: set<bv64>, p: bv64)
    requires Firsts(pairs) <= ps && p in ps
    ensures
      var rest := pairs - With(pairs, p);
      && |pairs| == |rest| + |Seconds(pairs, p)|
      && Firsts(rest) <= ps - {p}
      && forall p' | p' in ps - {p} :: Seconds(rest, p') == Seconds(pairs, p')
  {
    var rest := pairs - With(pairs, p);
    WithSize(pairs, p);
    assert pairs == rest + With(pairs, p);
    forall pq | pq in rest
      ensures pq.0 in ps - {p}
    {
      assert pq.0 in Firsts(pairs);
    }
  }

  /** If a few points allow a second halves each and the others b, the pairs are at most so many. */
  lemma {:induction false} CountPairs(pairs: set<Pair>, ps: set<bv64>, few: set<bv64>, a: nat, b: nat)
    requires Firsts(pairs) <= ps
    requires forall p | p in ps :: |Seconds(pairs, p)| <= if p in few then a else b
    ensures |pairs| <= |ps * few| * a + |ps - few| * b
    decreases |ps|
  {
    hide Firsts, Seconds, With;
    if ps == {} {
      NoPairs(pairs);
    } else {
      var p := Member(ps);
      var rest, others := pairs - With(pairs, p), ps - {p};
      Without(pairs, ps, p);
      CountPairs(rest, others, few, a, b);
      OnePointLess(ps, few, p);
      OneMore(|others * few|, a);
      OneMore(|others - few|, b);
    }
  }

  lemma OnePointLess(ps: set<bv64>, few: set<bv64>, p: bv64)
    requires p in ps
    ensures |ps * few| == |(ps - {p}) * few| + if p in few then 1 else 0
    ensures |ps - few| == |(ps - {p}) - few| + if p in few then 0 else 1
  {
    if p in few {
      assert ps * few == (ps - {p}) * few + {p} && ps - few == (ps - {p}) - few;
    } else {
      assert ps * few == (ps - {p}) * few && ps - few == ((ps - {p}) - few) + {p};
    }
  }

  lemma OneMore(n: nat, a: nat)
    ensures (n + 1) * a == n * a + a
  {
  }

  // ----- the bound

  ghost predicate Differ(data: seq<bv8>, length: nat, data': seq<bv8>, length': nat) {
    && length <= 8 * |data| && length' <= 8 * |data'| && length < TWO64 && length' < TWO64
    && (length != length' || !SameBits(data, data', length))
  }

  lemma {:induction false} Listed(s: set<bv64>) returns (xs: seq<bv64>)
    ensures |xs| == |s| && Distinct(xs) && forall i | 0 <= i < |xs| :: xs[i] in s
    decreases |s|
  {
    if s == {} {
      xs := [];
    } else {
      var x := Member(s);
      var rest := Listed(s - {x});
      xs := [x] + rest;
    }
  }

  /** Two messages that differ meet at no more points than the longer one has blocks. */
  lemma FewMeetings(data: seq<bv8>, length: nat, data': seq<bv8>, length': nat, ps: set<bv64>)
    requires Differ(data, length, data', length')
    requires forall p | p in ps :: Difference(data, length, data', length', p) == 0
    ensures |ps| <= Max(BlockCount(length), BlockCount(length'))
  {
    hide Add, Eval, SameBits, WordOf, BlockCount, Distinct;
    var points := Listed(ps);
    forall i | 0 <= i < |points|
      ensures Add(Eval(data, length, points[i]), WordOf(length))
           == Add(Eval(data', length', points[i]), WordOf(length'))
    {
      var v := Add(Eval(data, length, points[i]), WordOf(length));
      var w := Add(Eval(data', length', points[i]), WordOf(length'));
      assert Add(v, w) == 0;
      if v != w {
        DifferentSum(v, w);
      }
    }
    if length != length' {
      FewCollidingLengths(data, length, data', length', points);
    } else {
      FewMeetingPoints(data, length, WordOf(length), data', length', WordOf(length'), points);
    }
  }

  lemma HashedDifference(data: seq<bv8>, length: nat, data': seq<bv8>, length': nat, p: bv64, q: bv64)
    requires Differ(data, length, data', length')
    ensures Xor(Hashed(data, length, p, q), Hashed(data', length', p, q))
         == Top32(Product(Difference(data, length, data', length', p), q, C))
  {
    hide Add, Eval, SameBits, WordOf, Product, Top32, Xor;
    var v, w := Add(Eval(data, length, p), WordOf(length)), Add(Eval(data', length', p), WordOf(length'));
    Distributive(q, v, w, C);
    Top32Add(Product(v, q, C), Product(w, q, C));
  }

  /** Of all pairs (P, Q), the MACs of two messages that differ, in whatever way and of whatever lengths, have a given
      difference m for at most N * 2^64 + (2^64 - N) * 2^32, where N is the number of blocks of the longer message: a
      share of less than N / 2^64 + 1 / 2^32. The forger who sends data' with the MAC of data is the case m = 0. */
  lemma FewForgingPairs(data: seq<bv8>, length: nat, data': seq<bv8>, length': nat, m: bv32, pairs: set<Pair>)
    requires Differ(data, length, data', length')
    requires forall pq | pq in pairs ::
               Xor(Hashed(data, length, pq.0, pq.1), Hashed(data', length', pq.0, pq.1)) == m
    ensures
      var n := Max(BlockCount(length), BlockCount(length'));
      n <= TWO64 && |pairs| <= n * TWO64 + (TWO64 - n) * TWO32
  {
    hide Hashed, Difference, SameBits, BlockCount, Product, Top32, Xor;
    var ps := Firsts(pairs);
    var few := set p | p in ps && Difference(data, length, data', length', p) == 0;
    forall p | p in ps
      ensures |Seconds(pairs, p)| <= if p in few then TWO64 else TWO32
    {
      if p in few {
        FewWords(Seconds(pairs, p));
      } else {
        forall q | q in Seconds(pairs, p)
          ensures Top32(Product(Difference(data, length, data', length', p), q, C)) == m
        {
          assert (p, q) in pairs;
          HashedDifference(data, length, data', length', p, q);
        }
        FewMultipliers(Difference(data, length, data', length', p), m, Seconds(pairs, p));
      }
    }
    CountPairs(pairs, ps, few, TWO64, TWO32);
    FewMeetings(data, length, data', length', few);
    FewWords(ps);
    assert ps * few == few;
    assert |ps| == |few| + |ps - few|;
    BlocksFit(length);
    BlocksFit(length');
    Shares(|few|, |ps - few|, Max(BlockCount(length), BlockCount(length')));
  }

  lemma BlocksFit(length: nat)
    requires length < TWO64
    ensures BlockCount(length) <= TWO64
  {
  }

  lemma Shares(k: nat, rest: nat, n: nat)
    requires k <= n <= TWO64 && k + rest <= TWO64
    ensures k * TWO64 + rest * TWO32 <= n * TWO64 + (TWO64 - n) * TWO32
  {
  }
}
