/** Small functions that several parts use. */
module Numbers {

  function Max(a: nat, b: nat): nat { if a < b then b else a }

  function Pow2(n: nat): (r: nat)
    ensures r >= 1
  {
    if n == 0 then 1 else 2 * Pow2(n - 1)
  }

  /** Binary digit i of a number, the lowest being digit 0. */
  function BinaryDigit(n: nat, i: nat): nat { n / Pow2(i) % 2 }

  lemma Multiples(b: nat, d: int)
    ensures d > 0 ==> b * d >= b
    ensures d < 0 ==> b * d <= -(b as int)
  {
    if d > 0 {
      assert b * (d - 1) >= 0;
    } else if d < 0 {
      assert b * (-d - 1) >= 0;
    }
  }

  /** Quotient and remainder are what fits. */
  lemma Remainder(a: nat, b: nat, q: nat, r: nat)
    requires a == b * q + r && r < b
    ensures a % b == r && a / b == q
  {
    assert b * (a / b - q) == r - a % b;
    Multiples(b, a / b - q);
  }

  lemma HalfQuotient(n: nat, p: nat)
    requires p > 0
    ensures n / (2 * p) == n / 2 / p
  {
    var q, r := n / 2 / p, n / 2 % p;
    assert n == 2 * (p * q + r) + n % 2;
    assert n == 2 * p * q + (2 * r + n % 2);
    Remainder(n, 2 * p, q, 2 * r + n % 2);
  }

  const TWO64 := 0x1_0000_0000_0000_0000

  // ----- 64-bit words as numbers

  function Number64(w: bv64): nat { w as nat }

  function Word64(n: nat): bv64
    requires n < TWO64
  {
    n as bv64
  }

  lemma NumberBack64(w: bv64)
    ensures Number64(w) < TWO64 && Word64(Number64(w)) == w
  {
  }

  predicate StandsFor(o: bv8, n: nat) { o as nat == n }

  lemma OctetAndBack(n: nat)
    requires n < 256
    ensures StandsFor(n as bv8, n)
  {
  }

  /** n octets of zero. */
  function Silence(n: nat): (r: seq<bv8>)
    ensures |r| == n
  {
    seq(n, _ => 0 as bv8)
  }
}
