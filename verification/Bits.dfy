/** Unsigned bit operations on naturals, as used for set numbers, addresses and dirty bits. */
module Bits {

  function Pow2(k: nat): (r: nat)
    ensures r > 0
  {
    if k == 0 then 1 else 2 * Pow2(k - 1)
  }

  function Quotient(x: nat, d: nat): nat
    requires d > 0
  {
    x / d
  }

  function Shr(x: nat, k: nat): nat { Quotient(x, Pow2(k)) }

  /** x & ((1 << k) - 1). */
  function LowBits(x: nat, k: nat): (r: nat)
    ensures r < Pow2(k)
  {
    x % Pow2(k)
  }

  const WORD: nat := 0x1_0000_0000

  /** A left shift in a 32-bit register. */
  function Shl32(x: nat, k: nat): nat { x * Pow2(k) % WORD }

  function Or(x: nat, y: nat): nat {
    if x == 0 then y
    else if y == 0 then x
    else 2 * Or(x / 2, y / 2) + if x % 2 == 1 || y % 2 == 1 then 1 else 0
  }

  predicate Bit(x: nat, k: nat) { Shr(x, k) % 2 == 1 }

  /** The position of the highest set bit; 0 for 0. */
  function FloorLog2(n: nat): nat {
    if n <= 1 then 0 else 1 + FloorLog2(n / 2)
  }

  lemma {:induction false} Pow2Add(a: nat, b: nat)
    ensures Pow2(a + b) == Pow2(a) * Pow2(b)
  {
    if a != 0 {
      Pow2Add(a - 1, b);
      assert Pow2(a + b) == 2 * Pow2(a - 1 + b);
      assert 2 * (Pow2(a - 1) * Pow2(b)) == 2 * Pow2(a - 1) * Pow2(b);
    }
  }

  lemma {:induction false} FloorLog2Pow2(k: nat)
    ensures FloorLog2(Pow2(k)) == k
  {
    if k != 0 { FloorLog2Pow2(k - 1); }
  }

  /** 2^floorLog2(n) is the largest power of two not above n. */
  lemma {:induction false} FloorLog2Bounds(n: nat)
    requires n > 0
    ensures Pow2(FloorLog2(n)) <= n < 2 * Pow2(FloorLog2(n))
  {
    if n > 1 { FloorLog2Bounds(n / 2); }
  }

  predicate IsPowerOfTwo(n: nat) { n > 0 && n == Pow2(FloorLog2(n)) }

  lemma PowersOfTwo(n: nat)
    ensures IsPowerOfTwo(n) <==> exists k :: n == Pow2(k)
  {
    if k :| n == Pow2(k) { FloorLog2Pow2(k); }
  }

  /** Bits that do not overlap add up. */
  lemma {:induction false} OrDisjoint(a: nat, k: nat, b: nat)
    requires b < Pow2(k)
    ensures Or(a * Pow2(k), b) == a * Pow2(k) + b
  {
    if k != 0 {
      var x := a * Pow2(k - 1);
      assert a * Pow2(k) == 2 * x by { assert a * (2 * Pow2(k - 1)) == 2 * (a * Pow2(k - 1)); }
      OrDisjoint(a, k - 1, b / 2);
    }
  }

  lemma ShrHalf(x: nat, k: nat)
    requires k > 0
    ensures Shr(x, k) == Shr(x / 2, k - 1)
  {
    DivDiv(x, 2, Pow2(k - 1));
  }

  lemma OrHalves(x: nat, y: nat)
    ensures Or(x, y) / 2 == Or(x / 2, y / 2) && (Or(x, y) % 2 == 1 <==> x % 2 == 1 || y % 2 == 1)
    ensures Or(x, y) == 2 * Or(x / 2, y / 2) + if x % 2 == 1 || y % 2 == 1 then 1 else 0
  {
    if x == 0 {
      assert Or(0, y / 2) == y / 2;
    } else if y == 0 {
      assert Or(x / 2, 0) == x / 2;
    }
  }

  /** Or, bit by bit. */
  lemma {:induction false} OrBit(x: nat, y: nat, k: nat)
    ensures Bit(Or(x, y), k) <==> Bit(x, k) || Bit(y, k)
    decreases k
  {
    OrHalves(x, y);
    if k == 0 {
      assert Shr(x, 0) == x && Shr(y, 0) == y && Shr(Or(x, y), 0) == Or(x, y);
    } else {
      OrBit(x / 2, y / 2, k - 1);
      ShrHalf(x, k);
      ShrHalf(y, k);
      ShrHalf(Or(x, y), k);
    }
  }

  lemma {:induction false} Pow2Bit(j: nat, k: nat)
    ensures Bit(Pow2(j), k) <==> j == k
  {
    if k == 0 {
      assert Shr(Pow2(j), 0) == Pow2(j);
    } else if j == 0 {
      assert Pow2(k) == 2 * Pow2(k - 1);
      assert Pow2(k) > 1;
      DivModUnique(0, 1, Pow2(k));
    } else {
      Pow2Bit(j - 1, k - 1);
      ShrHalf(Pow2(j), k);
    }
  }

  lemma AtLeastOnce(n: nat, d: nat)
    requires n >= 1
    ensures n * d >= d
  {
  }

  lemma RepresentationUnique(q: int, r: int, q': int, r': int, d: nat)
    requires q * d + r == q' * d + r' && 0 <= r < d && 0 <= r' < d
    ensures q == q' && r == r'
  {
    if q > q' {
      AtLeastOnce(q - q', d);
    } else if q < q' {
      AtLeastOnce(q' - q, d);
    }
  }

  lemma DivModUnique(q: nat, r: nat, d: nat)
    requires r < d
    ensures (q * d + r) / d == q && (q * d + r) % d == r
  {
    var x := q * d + r;
    assert x == x / d * d + x % d;
    RepresentationUnique(x / d, x % d, q, r, d);
  }

  lemma DivDiv(x: nat, a: nat, b: nat)
    requires a > 0 && b > 0
    ensures a * b > 0 && x / a / b == x / (a * b)
  {
    var y := x / a;
    var q, r, s := y / b, y % b, x % a;
    DivModIdentity(x, a);
    DivModIdentity(y, b);
    Regroup(q, b, r, a, s);
    BelowProduct(r, s, a, b);
    DivModUnique(q, r * a + s, a * b);
  }

  lemma DivModIdentity(x: nat, d: nat)
    requires d > 0
    ensures x == x / d * d + x % d && 0 <= x / d && 0 <= x % d < d
  {
  }

  lemma Regroup(q: nat, b: nat, r: nat, a: nat, s: nat)
    ensures (q * b + r) * a + s == q * (a * b) + (r * a + s)
  {
    assert (q * b + r) * a == q * b * a + r * a;
    assert q * b * a == q * (a * b);
  }

  lemma BelowProduct(r: nat, s: nat, a: nat, b: nat)
    requires r < b && s < a
    ensures r * a + s < a * b
  {
    AtLeastOnce(b - r, a);
    assert (b - r) * a == b * a - r * a;
  }
}
