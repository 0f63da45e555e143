/** Dense square matrices and vectors of reals, as values. */
module Matrices {
  import opened Sums

  type Mat = seq<seq<real>>
  type Vec = seq<real>

  ghost predicate Square(a: Mat, n: nat) {
    |a| == n && forall i | 0 <= i < n :: |a[i]| == n
  }

  /** Entry lookup, zero outside the matrix, so that sums need no side conditions. */
  function At(a: Mat, i: nat, j: nat): real {
    if i < |a| && j < |a[i]| then a[i][j] else 0.0
  }

  function El(v: Vec, i: nat): real {
    if i < |v| then v[i] else 0.0
  }

  function Abs(x: real): (r: real)
    ensures r >= 0.0
  {
    if x < 0.0 then -x else x
  }

  /** Row `i` of the product of a matrix and a column vector. */
  function RowTimes(a: Mat, n: nat, i: nat, x: Vec): real {
    Sum(n, (j: nat) => At(a, i, j) * El(x, j))
  }

  /** Entry (i, j) of a matrix product. */
  function ProductAt(a: Mat, b: Mat, n: nat, i: nat, j: nat): real {
    Sum(n, (m: nat) => At(a, i, m) * At(b, m, j))
  }

  ghost predicate IsPermutation(p: seq<int>, n: nat) {
    && |p| == n
    && (forall i | 0 <= i < n :: 0 <= p[i] < n)
    && (forall i, j | 0 <= i < j < n :: p[i] != p[j])
  }

  /** An injection of 0..n into itself reaches every index. */
  lemma {:induction false} PermutationHits(p: seq<int>, n: nat, r: nat) returns (i: nat)
    requires IsPermutation(p, n) && r < n
    ensures i < n && p[i] == r
  {
    if r in p {
      i :| 0 <= i < |p| && p[i] == r;
    } else {
      InjectionSize(p);
      SubsetSize(Elements(p), Upto(n) - {r});
      assert false;
    }
  }

  function Elements(p: seq<int>): set<int> { set k | k in p }

  function Upto(n: nat): (s: set<int>)
    ensures |s| == n
    ensures forall k :: k in s <==> 0 <= k < n
  {
    if n == 0 then {} else Upto(n - 1) + {n - 1}
  }

  lemma {:induction false} InjectionSize(p: seq<int>)
    requires forall i, j | 0 <= i < j < |p| :: p[i] != p[j]
    ensures |Elements(p)| == |p|
  {
    if p != [] {
      var q := p[..|p| - 1];
      InjectionSize(q);
      assert Elements(p) == Elements(q) + {p[|p| - 1]};
    }
  }

  lemma SubsetSize(s: set<int>, t: set<int>)
    requires s <= t
    ensures |s| <= |t|
  {
    assert t == s + (t - s);
  }
}
