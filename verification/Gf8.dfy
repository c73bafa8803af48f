/** Octets as polynomials over GF(2) and multiplication by x, as SNOW 3G uses them
    (3GPP TS 35.216, sections 3.1.1 and 3.1.2).

    The bit operations have names, so that later proofs can hide them and work with the group laws alone. */
module Gf8 {

  function Xor8(a: bv8, b: bv8): bv8 { a ^ b }

  function Shl8(v: bv8): bv8 { v << 1 }

  predicate TopSet(v: bv8) { v & 0x80 != 0 }

  function MULx(V: bv8, c: bv8): bv8 {
    if TopSet(V) then Xor8(Shl8(V), c) else Shl8(V)
  }

  function MULxPOW(V: bv8, i: nat, c: bv8): bv8 {
    if i == 0 then V else MULx(MULxPOW(V, i - 1, c), c)
  }

  // ----- the group of octets under exclusive-or

  lemma Comm(a: bv8, b: bv8)
    ensures Xor8(a, b) == Xor8(b, a)
  {
  }

  lemma Assoc(a: bv8, b: bv8, d: bv8)
    ensures Xor8(Xor8(a, b), d) == Xor8(a, Xor8(b, d))
  {
  }

  lemma Cancel(a: bv8, b: bv8)
    ensures Xor8(Xor8(a, b), b) == a && Xor8(a, a) == 0 && Xor8(a, 0) == a && Xor8(0, a) == a
  {
  }

  lemma Swap(a: bv8, b: bv8, d: bv8, e: bv8)
    ensures Xor8(Xor8(a, b), Xor8(d, e)) == Xor8(Xor8(a, d), Xor8(b, e))
  {
    hide *;
    Assoc(a, b, Xor8(d, e));
    Assoc(b, d, e);
    Comm(b, d);
    Assoc(d, b, e);
    Assoc(a, d, Xor8(b, e));
  }

  // ----- multiplication by x is linear, whatever the reduction constant

  lemma Shl8Xor(v: bv8, w: bv8)
    ensures Shl8(Xor8(v, w)) == Xor8(Shl8(v), Shl8(w))
  {
    assert (v ^ w) << 1 == (v << 1) ^ (w << 1);
  }

  lemma TopXor(v: bv8, w: bv8)
    ensures TopSet(Xor8(v, w)) <==> TopSet(v) != TopSet(w)
  {
    assert (v ^ w) & 0x80 == (v & 0x80) ^ (w & 0x80);
    assert v & 0x80 == 0 || v & 0x80 == 0x80;
    assert w & 0x80 == 0 || w & 0x80 == 0x80;
  }

  lemma MULxForm(v: bv8, c: bv8)
    ensures MULx(v, c) == Xor8(Shl8(v), if TopSet(v) then c else 0)
  {
    hide Xor8, Shl8, TopSet;
    Cancel(Shl8(v), 0);
  }

  lemma MULxLinear(v: bv8, w: bv8, c: bv8)
    ensures MULx(Xor8(v, w), c) == Xor8(MULx(v, c), MULx(w, c))
  {
    hide *;
    MULxForm(v, c);
    MULxForm(w, c);
    MULxForm(Xor8(v, w), c);
    Shl8Xor(v, w);
    TopXor(v, w);
    Cancel(c, 0);
    Cancel(0, 0);
    Swap(Shl8(v), Shl8(w), if TopSet(v) then c else 0, if TopSet(w) then c else 0);
  }

  lemma MULxZero(c: bv8)
    ensures MULx(0, c) == 0
  {
  }

  // ----- exponents add

  lemma {:induction false} PowAdd(v: bv8, i: nat, j: nat, c: bv8)
    ensures MULxPOW(MULxPOW(v, i, c), j, c) == MULxPOW(v, i + j, c)
  {
    hide MULx;
    if j > 0 {
      PowAdd(v, i, j - 1, c);
    }
  }

  lemma PowStep(v: bv8, i: nat, c: bv8)
    ensures MULxPOW(v, i + 1, c) == MULx(MULxPOW(v, i, c), c)
    ensures MULxPOW(v, 0, c) == v
  {
  }

  lemma {:induction false} PowZero(i: nat, c: bv8)
    ensures MULxPOW(0, i, c) == 0
  {
    hide MULx;
    if i > 0 {
      PowZero(i - 1, c);
      MULxZero(c);
    }
  }
}
