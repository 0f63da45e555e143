/** Forward and backward substitution on an in-place decomposition (misc/HotSpot/RCutil.cc). */
module LuSolve {
  import opened Sums
  import opened Matrices
  import opened Lup

  /** No entry of the stored upper diagonal is zero, so the substitution never divides by zero. */
  ghost predicate NonzeroDiagonal(c: Mat, n: nat) {
    forall i: nat | i < n :: At(c, i, i) != 0.0
  }

  /** Entry `i` of L y. */
  function LowerTimes(c: Mat, n: nat, i: nat, y: Vec): real {
    Sum(n, LowerTerms(c, i, y))
  }

  function LowerTerms(c: Mat, i: nat, y: Vec): nat -> real {
    (m: nat) => Lower(c, i, m) * El(y, m)
  }

  /** Entry `i` of U x. */
  function UpperTimes(c: Mat, n: nat, i: nat, x: Vec): real {
    Sum(n, UpperTerms(c, i, x))
  }

  function UpperTerms(c: Mat, i: nat, x: Vec): nat -> real {
    (m: nat) => Upper(c, i, m) * El(x, m)
  }

  /** The part of U x right of the diagonal. */
  function RightTerms(c: Mat, i: nat, x: Vec): nat -> real {
    (m: nat) => if m > i then Upper(c, i, m) * El(x, m) else 0.0
  }

  /** L y = P b. */
  ghost predicate SolvesLower(c: Mat, p: seq<int>, n: nat, b: Vec, y: Vec)
    requires IsPermutation(p, n)
  {
    forall i: nat | i < n :: LowerTimes(c, n, i, y) == El(b, p[i])
  }

  /** U x = y. */
  ghost predicate SolvesUpper(c: Mat, n: nat, y: Vec, x: Vec) {
    forall i: nat | i < n :: UpperTimes(c, n, i, x) == El(y, i)
  }

  /** a x = b. */
  ghost predicate Solves(a: Mat, n: nat, b: Vec, x: Vec) {
    forall r: nat | r < n :: RowTimes(a, n, r, x) == El(b, r)
  }

  // ----- Splitting a row at the diagonal -----

  lemma LowerRow(c: Mat, n: nat, i: nat, y: Vec)
    requires i < n
    ensures LowerTimes(c, n, i, y) == Sum(i, LowerTerms(c, i, y)) + El(y, i)
  {
    var f := LowerTerms(c, i, y);
    forall m: nat | i <= m ensures f(m) == if m == i then El(y, i) else 0.0 {
      LowerTerm(c, i, y, m);
    }
    SumPrefix(i + 1, n, f);
  }

  lemma LowerTerm(c: Mat, i: nat, y: Vec, m: nat)
    requires i <= m
    ensures LowerTerms(c, i, y)(m) == if m == i then El(y, i) else 0.0
  {
  }

  lemma UpperRow(c: Mat, n: nat, i: nat, x: Vec)
    requires i < n
    ensures UpperTimes(c, n, i, x) == At(c, i, i) * El(x, i) + Sum(n, RightTerms(c, i, x))
  {
    var diagonal := (m: nat) => if m == i then Upper(c, i, i) * El(x, i) else 0.0;
    SumSingle(i, n, diagonal);
    SumAdd(n, diagonal, RightTerms(c, i, x));
    SumEq(n, UpperTerms(c, i, x), (m: nat) => diagonal(m) + RightTerms(c, i, x)(m));
  }

  lemma LowerTermsAgree(c: Mat, i: nat, y: Vec, y': Vec)
    requires forall m: nat | m < i :: El(y, m) == El(y', m)
    ensures Sum(i, LowerTerms(c, i, y)) == Sum(i, LowerTerms(c, i, y'))
  {
    SumEq(i, LowerTerms(c, i, y), LowerTerms(c, i, y'));
  }

  lemma RightTermsAgree(c: Mat, n: nat, i: nat, x: Vec, x': Vec)
    requires forall m: nat | i < m < n :: El(x, m) == El(x', m)
    ensures Sum(n, RightTerms(c, i, x)) == Sum(n, RightTerms(c, i, x'))
  {
    SumEq(n, RightTerms(c, i, x), RightTerms(c, i, x'));
  }

  // ----- Composing the factors -----

  /** L (U x), row by row, is (L U) x. */
  lemma ComposeRow(c: Mat, n: nat, i: nat, x: Vec, y: Vec, row: nat -> real)
    requires forall m: nat | m < n :: El(y, m) == UpperTimes(c, n, m, x)
    requires forall j: nat | j < n :: row(j) == Sum(n, (m: nat) => Lower(c, i, m) * Upper(c, m, j))
    ensures LowerTimes(c, n, i, y) == Sum(n, (j: nat) => row(j) * Entries(x)(j))
  {
    var l, u, v := LowerEntries(c, i), UpperEntries(c), Entries(x);
    forall m: nat | m < n ensures Entries(y)(m) == Sum(n, (j: nat) => u(m, j) * v(j)) {
      UpperTimesEntries(c, n, m, x);
    }
    forall j: nat | j < n ensures row(j) == Sum(n, (m: nat) => l(m) * u(m, j)) {
      ProductEntries(c, n, i, j);
    }
    RowCompose(n, l, u, v, Entries(y), row);
    LowerTimesEntries(c, n, i, y);
  }

  lemma LowerTimesEntries(c: Mat, n: nat, i: nat, y: Vec)
    ensures LowerTimes(c, n, i, y) == Sum(n, (m: nat) => LowerEntries(c, i)(m) * Entries(y)(m))
  {
    var l, v := LowerEntries(c, i), Entries(y);
    var f := (m: nat) => l(m) * v(m);
    forall m: nat | m < n ensures LowerTerms(c, i, y)(m) == f(m) {
      assert l(m) == Lower(c, i, m) && v(m) == El(y, m);
    }
    SumEq(n, LowerTerms(c, i, y), f);
  }

  function LowerEntries(c: Mat, i: nat): nat -> real { (m: nat) => Lower(c, i, m) }

  function UpperEntries(c: Mat): (nat, nat) -> real { (m: nat, j: nat) => Upper(c, m, j) }

  function Entries(x: Vec): nat -> real { (j: nat) => El(x, j) }

  lemma UpperTimesEntries(c: Mat, n: nat, m: nat, x: Vec)
    ensures UpperTimes(c, n, m, x) == Sum(n, (j: nat) => UpperEntries(c)(m, j) * Entries(x)(j))
  {
    var u, v := UpperEntries(c), Entries(x);
    var f := (j: nat) => u(m, j) * v(j);
    forall j: nat | j < n ensures UpperTerms(c, m, x)(j) == f(j) {
      assert u(m, j) == Upper(c, m, j) && v(j) == El(x, j);
    }
    SumEq(n, UpperTerms(c, m, x), f);
  }

  lemma ProductEntries(c: Mat, n: nat, i: nat, j: nat)
    ensures Sum(n, (m: nat) => Lower(c, i, m) * Upper(c, m, j))
         == Sum(n, (m: nat) => LowerEntries(c, i)(m) * UpperEntries(c)(m, j))
  {
    var l, u := LowerEntries(c, i), UpperEntries(c);
    var f, g := (m: nat) => Lower(c, i, m) * Upper(c, m, j), (m: nat) => l(m) * u(m, j);
    forall m: nat | m < n ensures f(m) == g(m) {
      assert l(m) == Lower(c, i, m) && u(m, j) == Upper(c, m, j);
    }
    SumEq(n, f, g);
  }

  /** Row p[i] of a x is row i of L (U x). */
  lemma FactorsRow(a: Mat, p: seq<int>, c: Mat, n: nat, x: Vec, y: Vec, i: nat)
    requires IsPermutation(p, n) && Factors(a, p, c, n) && i < n
    requires forall m: nat | m < n :: El(y, m) == UpperTimes(c, n, m, x)
    ensures RowTimes(a, n, p[i], x) == LowerTimes(c, n, i, y)
  {
    var row := (j: nat) => At(a, p[i], j);
    ComposeRow(c, n, i, x, y, row);
    var v := Entries(x);
    var f, g := (j: nat) => row(j) * v(j), (j: nat) => At(a, p[i], j) * El(x, j);
    forall j: nat | j < n ensures f(j) == g(j) {
      assert row(j) == At(a, p[i], j) && v(j) == El(x, j);
    }
    SumEq(n, f, g);
  }

  /** The two triangular solutions compose to a solution of a x = b. */
  lemma SubstitutionSolves(a: Mat, p: seq<int>, c: Mat, n: nat, b: Vec, y: Vec, x: Vec)
    requires IsPermutation(p, n) && Factors(a, p, c, n)
    requires SolvesLower(c, p, n, b, y) && SolvesUpper(c, n, y, x)
    ensures Solves(a, n, b, x)
  {
    forall r: nat | r < n ensures RowTimes(a, n, r, x) == El(b, r) {
      var i := PermutationHits(p, n, r);
      FactorsRow(a, p, c, n, x, y, i);
      assert LowerTimes(c, n, i, y) == El(b, p[i]);
    }
  }

  // ----- Uniqueness -----

  lemma {:induction false} LowerKernel(c: Mat, n: nat, y: Vec, i: nat)
    requires i < n && forall r: nat | r < n :: LowerTimes(c, n, r, y) == 0.0
    ensures El(y, i) == 0.0
  {
    LowerRow(c, n, i, y);
    forall m: nat | m < i ensures LowerTerms(c, i, y)(m) == 0.0 {
      LowerKernel(c, n, y, m);
    }
    SumZero(i, LowerTerms(c, i, y));
  }

  lemma {:induction false} UpperKernel(c: Mat, n: nat, x: Vec, i: nat)
    requires i < n && NonzeroDiagonal(c, n)
    requires forall r: nat | r < n :: UpperTimes(c, n, r, x) == 0.0
    ensures El(x, i) == 0.0
    decreases n - i
  {
    UpperRow(c, n, i, x);
    forall m: nat | i < m < n ensures El(x, m) == 0.0 {
      UpperKernel(c, n, x, m);
    }
    forall m: nat | m < n ensures RightTerms(c, i, x)(m) == 0.0 {
      RightTerm(c, i, x, m);
    }
    SumZero(n, RightTerms(c, i, x));
    NoZeroProduct(At(c, i, i), El(x, i));
  }

  lemma RightTerm(c: Mat, i: nat, x: Vec, m: nat)
    requires m > i ==> El(x, m) == 0.0
    ensures RightTerms(c, i, x)(m) == 0.0
  {
  }

  lemma NoZeroProduct(u: real, v: real)
    requires u != 0.0 && u * v == 0.0
    ensures v == 0.0
  {
  }

  /** A matrix with a decomposition whose diagonal has no zero has a trivial kernel. */
  lemma TrivialKernel(a: Mat, p: seq<int>, c: Mat, n: nat, x: Vec, i: nat)
    requires IsPermutation(p, n) && Factors(a, p, c, n) && NonzeroDiagonal(c, n)
    requires forall r: nat | r < n :: RowTimes(a, n, r, x) == 0.0
    requires i < n
    ensures El(x, i) == 0.0
  {
    var y := seq(n, (m: int) requires 0 <= m < n => UpperTimes(c, n, m, x));
    forall r: nat | r < n ensures LowerTimes(c, n, r, y) == 0.0 {
      FactorsRow(a, p, c, n, x, y, r);
    }
    forall r: nat | r < n ensures UpperTimes(c, n, r, x) == 0.0 {
      LowerKernel(c, n, y, r);
    }
    UpperKernel(c, n, x, i);
  }

  function Minus(x: Vec, z: Vec, n: nat): Vec {
    seq(n, (i: int) requires 0 <= i < n => El(x, i) - El(z, i))
  }

  lemma RowTimesMinus(a: Mat, n: nat, r: nat, x: Vec, z: Vec)
    ensures RowTimes(a, n, r, Minus(x, z, n)) == RowTimes(a, n, r, x) - RowTimes(a, n, r, z)
  {
    var d := Minus(x, z, n);
    var fd := (j: nat) => At(a, r, j) * El(d, j);
    var fz := (j: nat) => At(a, r, j) * El(z, j);
    SumAdd(n, fd, fz);
    forall j: nat | j < n ensures fd(j) + fz(j) == At(a, r, j) * El(x, j) {
      Distribute(At(a, r, j), El(d, j), El(z, j));
    }
    SumEq(n, (j: nat) => fd(j) + fz(j), (j: nat) => At(a, r, j) * El(x, j));
  }

  lemma Distribute(u: real, v: real, w: real)
    ensures u * v + u * w == u * (v + w)
  {
  }

  /** a x = b has at most one solution. */
  lemma SolutionUnique(a: Mat, p: seq<int>, c: Mat, n: nat, b: Vec, x: Vec, z: Vec, i: nat)
    requires IsPermutation(p, n) && Factors(a, p, c, n) && NonzeroDiagonal(c, n)
    requires Solves(a, n, b, x) && Solves(a, n, b, z) && i < n
    ensures El(x, i) == El(z, i)
  {
    var d := Minus(x, z, n);
    forall r: nat | r < n ensures RowTimes(a, n, r, d) == 0.0 {
      RowTimesMinus(a, n, r, x, z);
    }
    TrivialKernel(a, p, c, n, d, i);
  }

  // ----- The method -----

  /** The inner loop of the forward substitution. */
  method LowerSum(a: array2<real>, y: array<real>, i: nat) returns (sum: real)
    requires a.Length0 == a.Length1 == y.Length && i < y.Length
    ensures sum == Sum(i, LowerTerms(Contents(a), i, y[..]))
  {
    sum := 0.0;
    for j := 0 to i
      invariant sum == Sum(j, LowerTerms(Contents(a), i, y[..]))
    {
      assert LowerTerms(Contents(a), i, y[..])(j) == a[i, j] * y[j];
      sum := sum + y[j] * a[i, j];
    }
  }

  /** The inner loop of the backward substitution. */
  method RightSum(a: array2<real>, x: array<real>, i: nat) returns (sum: real)
    requires a.Length0 == a.Length1 <= x.Length && i < a.Length0
    ensures sum == Sum(a.Length0, RightTerms(Contents(a), i, x[..]))
  {
    sum := 0.0;
    SumZero(i + 1, RightTerms(Contents(a), i, x[..]));
    for j := i + 1 to a.Length0
      invariant sum == Sum(j, RightTerms(Contents(a), i, x[..]))
    {
      assert RightTerms(Contents(a), i, x[..])(j) == a[i, j] * x[j];
      sum := sum + x[j] * a[i, j];
    }
  }

  /** Row `r` of the forward substitution holds. */
  ghost predicate LowerDone(c: Mat, b: Vec, p: seq<int>, y: Vec, r: nat)
    requires r < |p| && 0 <= p[r]
  {
    Sum(r, LowerTerms(c, r, y)) + El(y, r) == El(b, p[r])
  }

  /** Row `r` of the backward substitution holds. */
  ghost predicate UpperDone(c: Mat, n: nat, y: Vec, x: Vec, r: nat) {
    At(c, r, r) * El(x, r) + Sum(n, RightTerms(c, r, x)) == El(y, r)
  }

  lemma LowerDoneAgree(c: Mat, b: Vec, p: seq<int>, y: Vec, y': Vec, r: nat)
    requires r < |p| && 0 <= p[r] && LowerDone(c, b, p, y, r)
    requires forall m: nat | m <= r :: El(y, m) == El(y', m)
    ensures LowerDone(c, b, p, y', r)
  {
    LowerTermsAgree(c, r, y, y');
  }

  lemma UpperDoneAgree(c: Mat, n: nat, y: Vec, x: Vec, x': Vec, r: nat)
    requires UpperDone(c, n, y, x, r)
    requires forall m: nat | r <= m < n || m == r :: El(x, m) == El(x', m)
    ensures UpperDone(c, n, y, x', r)
  {
    RightTermsAgree(c, n, r, x, x');
  }

  /** Forward substitution: solves L y = P b. */
  method Forward(a: array2<real>, p: array<int>, b: array<real>, n: nat) returns (y: array<real>)
    requires a.Length0 == a.Length1 == p.Length == n && IsPermutation(p[..], n) && b.Length == n
    ensures fresh(y) && y.Length == n
    ensures SolvesLower(Contents(a), p[..], n, b[..], y[..])
  {
    y := new real[n];
    ghost var c, ps, bs := Contents(a), p[..], b[..];
    for i := 0 to n
      invariant Contents(a) == c && p[..] == ps && b[..] == bs
      invariant forall r: nat | r < i :: LowerDone(c, bs, ps, y[..], r)
    {
      var sum := LowerSum(a, y, i);
      ghost var before := y[..];
      y[i] := b[p[i]] - sum;
      forall r: nat | r < i ensures LowerDone(c, bs, ps, y[..], r) {
        LowerDoneAgree(c, bs, ps, before, y[..], r);
      }
      LowerTermsAgree(c, i, before, y[..]);
    }
    LowerRowsDone(c, ps, n, bs, y[..]);
  }

  lemma LowerRowsDone(c: Mat, p: seq<int>, n: nat, b: Vec, y: Vec)
    requires IsPermutation(p, n) && forall r: nat | r < n :: LowerDone(c, b, p, y, r)
    ensures SolvesLower(c, p, n, b, y)
  {
    forall i: nat | i < n ensures LowerTimes(c, n, i, y) == El(b, p[i]) {
      LowerRow(c, n, i, y);
      assert LowerDone(c, b, p, y, i);
    }
  }

  /** Backward substitution: solves U x = y. */
  method Backward(a: array2<real>, y: array<real>, x: array<real>, n: nat)
    requires a.Length0 == a.Length1 == y.Length == n <= x.Length && x != y
    requires NonzeroDiagonal(Contents(a), n)
    modifies x
    ensures SolvesUpper(Contents(a), n, y[..], x[..])
  {
    ghost var c, ys := Contents(a), y[..];
    for i := n downto 0
      invariant Contents(a) == c && y[..] == ys
      invariant forall r: nat | i <= r < n :: UpperDone(c, n, ys, x[..], r)
    {
      var sum := RightSum(a, x, i);
      ghost var before := x[..];
      assert At(c, i, i) == a[i, i] != 0.0;
      x[i] := (y[i] - sum) / a[i, i];
      forall r: nat | i < r < n ensures UpperDone(c, n, ys, x[..], r) {
        UpperDoneAgree(c, n, ys, before, x[..], r);
      }
      RightTermsAgree(c, n, i, before, x[..]);
      DivTimes(y[i] - sum, a[i, i]);
    }
    UpperRowsDone(c, n, ys, x[..]);
  }

  lemma UpperRowsDone(c: Mat, n: nat, y: Vec, x: Vec)
    requires forall r: nat | r < n :: UpperDone(c, n, y, x, r)
    ensures SolvesUpper(c, n, y, x)
  {
    forall i: nat | i < n ensures UpperTimes(c, n, i, x) == El(y, i) {
      UpperRow(c, n, i, x);
      assert UpperDone(c, n, y, x, i);
    }
  }

  /** lusolve: with the decomposition of `a0` in `a` and `p`, stores the solution of a0 x = b in x. */
  method Lusolve(a: array2<real>, p: array<int>, b: array<real>, x: array<real>, ghost a0: Mat)
    requires a.Length0 == a.Length1 == p.Length == b.Length <= x.Length
    requires IsPermutation(p[..], p.Length) && Factors(a0, p[..], Contents(a), p.Length)
    requires NonzeroDiagonal(Contents(a), p.Length)
    modifies x
    ensures Solves(a0, p.Length, old(b[..]), x[..])
  {
    var n := p.Length;
    ghost var c, pb, b0 := Contents(a), p[..], b[..];
    var y := Forward(a, p, b, n);
    Backward(a, y, x, n);
    SubstitutionSolves(a0, pb, c, n, b0, y[..], x[..]);
  }
}
