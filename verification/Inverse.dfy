/** Matrix inversion by LUP decomposition (misc/HotSpot/RCutil.cc), and what its failures mean. */
module Inverse {
  import opened Sums
  import opened Matrices
  import opened Lup
  import opened LuSolve

  ghost predicate IsRightInverse(a: Mat, b: Mat, n: nat) {
    forall i: nat, j: nat | i < n && j < n :: ProductAt(a, b, n, i, j) == if i == j then 1.0 else 0.0
  }

  /** Some vector with an entry 1 is mapped to zero. */
  ghost predicate Singular(a: Mat, n: nat) {
    exists x: Vec, k: nat :: k < n && Kernel(a, n, x, k)
  }

  ghost predicate Kernel(a: Mat, n: nat, x: Vec, k: nat) {
    El(x, k) == 1.0 && forall r: nat | r < n :: RowTimes(a, n, r, x) == 0.0
  }

  /** Some vector with an entry 1 is mapped to entries all below DELTA. */
  ghost predicate NearlySingular(a: Mat, n: nat) {
    exists x: Vec, k: nat :: k < n && NearKernel(a, n, x, k)
  }

  ghost predicate NearKernel(a: Mat, n: nat, x: Vec, k: nat) {
    El(x, k) == 1.0 && forall r: nat | r < n :: Abs(RowTimes(a, n, r, x)) < DELTA
  }

  // ----- A vector that exposes a vanishing pivot -----

  /** What column `k` still holds below the finished factors. */
  function Residue(c: Mat, k: nat, i: nat, j: nat): real {
    if k <= i && k <= j then At(c, i, j) else 0.0
  }

  /** Row `i` of the finished part of L. */
  function DoneEntries(c: Mat, k: nat, i: nat): nat -> real {
    (m: nat) => if m < k then Lower(c, i, m) else 0.0
  }

  function DoneTerms(c: Mat, k: nat, i: nat, j: nat): nat -> real {
    (m: nat) => DoneEntries(c, k, i)(m) * UpperEntries(c)(m, j)
  }

  lemma DoneTerm(c: Mat, k: nat, i: nat, j: nat, m: nat)
    ensures DoneTerms(c, k, i, j)(m)
         == if m >= k || m > i || m > j then 0.0
            else if m == i then At(c, i, j) else Products(c, i, j)(m)
  {
    var l, u := DoneEntries(c, k, i)(m), UpperEntries(c)(m, j);
    assert DoneTerms(c, k, i, j)(m) == l * u;
    if m >= k || m > i {
      assert l == 0.0;
    } else if m > j {
      assert u == 0.0;
    } else if m == i {
      assert l == 1.0 && u == At(c, i, j);
    } else {
      assert l == At(c, i, m) && u == At(c, m, j);
    }
  }

  /** The partial form is the finished factors' product plus the residue. */
  lemma PartialSplit(c: Mat, n: nat, k: nat, i: nat, j: nat)
    requires i < n && j < n && k <= n
    ensures PartialAt(c, k, i, j) == Sum(n, DoneTerms(c, k, i, j)) + Residue(c, k, i, j)
  {
    var f := DoneTerms(c, k, i, j);
    var t := Min(Min(i, j), k);
    forall m: nat | m < n
      ensures f(m) == if m >= k || m > i || m > j then 0.0
                      else if m == i then At(c, i, j) else Products(c, i, j)(m)
    {
      DoneTerm(c, k, i, j, m);
    }
    SumEq(t, f, Products(c, i, j));
    if t < k {
      SumPrefix(t + 1, n, f);
    } else {
      SumPrefix(t, n, f);
    }
  }

  /** x is 1 at k, 0 after it, and a null vector of the first k rows of U. */
  ghost predicate Exposes(c: Mat, n: nat, k: nat, x: Vec) {
    && El(x, k) == 1.0
    && (forall m: nat | k < m < n :: El(x, m) == 0.0)
    && (forall i: nat | i < k :: UpperTimes(c, n, i, x) == 0.0)
  }

  lemma {:induction false} NullVector(c: Mat, n: nat, k: nat, r: nat) returns (x: Vec)
    requires r <= k < n && forall i: nat | i < k :: At(c, i, i) != 0.0
    ensures |x| == n && El(x, k) == 1.0
    ensures forall m: nat | k < m < n :: El(x, m) == 0.0
    ensures forall i: nat | r <= i < k :: UpperTimes(c, n, i, x) == 0.0
    decreases k - r
  {
    if r == k {
      x := seq(n, i => if i == k then 1.0 else 0.0);
    } else {
      var z := NullVector(c, n, k, r + 1);
      var rest := Sum(n, RightTerms(c, r, z));
      x := z[r := -rest / At(c, r, r)];
      forall i: nat | r < i < k ensures UpperTimes(c, n, i, x) == 0.0 {
        UpperRow(c, n, i, z);
        UpperRow(c, n, i, x);
        RightTermsAgree(c, n, i, z, x);
      }
      UpperRow(c, n, r, x);
      RightTermsAgree(c, n, r, z, x);
      DivTimes(-rest, At(c, r, r));
    }
  }

  /** Such a vector maps row p[i] to the entry column `k` still holds in row i. */
  lemma ExposedRow(a: Mat, p: seq<int>, c: Mat, n: nat, k: nat, x: Vec, i: nat)
    requires IsPermutation(p, n) && Partial(a, p, c, n, k) && k < n && i < n && Exposes(c, n, k, x)
    ensures RowTimes(a, n, p[i], x) == if i < k then 0.0 else At(c, i, k)
  {
    hide DoneRow, PartialAt, Sum;
    var done, rest := DoneRow(c, n, k, x, i), RestRow(c, k, x, i);
    var whole := (j: nat) => At(a, p[i], j) * El(x, j);
    forall j: nat | j < n ensures whole(j) == done(j) + rest(j) {
      assert At(a, p[i], j) == PartialAt(c, k, i, j);
      ExposedTerm(c, n, k, x, i, j, At(a, p[i], j));
    }
    SumAdd(n, done, rest);
    SumEq(n, whole, (j: nat) => done(j) + rest(j));
    DoneVanishes(c, n, k, x, i);
    RestAtPivot(c, n, k, x, i, rest);
  }

  function RestRow(c: Mat, k: nat, x: Vec, i: nat): nat -> real {
    (j: nat) => Residue(c, k, i, j) * Entries(x)(j)
  }

  lemma ExposedTerm(c: Mat, n: nat, k: nat, x: Vec, i: nat, j: nat, entry: real)
    requires i < n && j < n && k <= n && entry == PartialAt(c, k, i, j)
    ensures entry * El(x, j) == DoneRow(c, n, k, x, i)(j) + RestRow(c, k, x, i)(j)
  {
    hide PartialAt, Residue, DoneTerms, DoneRow, RestRow, El;
    PartialSplit(c, n, k, i, j);
    var d, e, v := Sum(n, DoneTerms(c, k, i, j)), Residue(c, k, i, j), El(x, j);
    DoneRowAt(c, n, k, x, i, j);
    DistributeRight(d, e, v);
  }

  lemma DoneRowAt(c: Mat, n: nat, k: nat, x: Vec, i: nat, j: nat)
    ensures DoneRow(c, n, k, x, i)(j) == Sum(n, DoneTerms(c, k, i, j)) * El(x, j)
    ensures RestRow(c, k, x, i)(j) == Residue(c, k, i, j) * El(x, j)
  {
    hide DoneTerms, Residue, El;
    assert Entries(x)(j) == El(x, j);
  }

  function DoneRow(c: Mat, n: nat, k: nat, x: Vec, i: nat): nat -> real {
    (j: nat) => Sum(n, DoneTerms(c, k, i, j)) * Entries(x)(j)
  }

  lemma DoneVanishes(c: Mat, n: nat, k: nat, x: Vec, i: nat)
    requires k < n && i < n && Exposes(c, n, k, x)
    ensures Sum(n, DoneRow(c, n, k, x, i)) == 0.0
  {
    var l, u, v := DoneEntries(c, k, i), UpperEntries(c), Entries(x);
    var y := (m: nat) => UpperTimes(c, n, m, x);
    var row := (j: nat) => Sum(n, DoneTerms(c, k, i, j));
    forall m: nat | m < n ensures y(m) == Sum(n, (j: nat) => u(m, j) * v(j)) {
      UpperTimesEntries(c, n, m, x);
    }
    forall j: nat | j < n ensures row(j) == Sum(n, (m: nat) => l(m) * u(m, j)) {
      SumEq(n, DoneTerms(c, k, i, j), (m: nat) => l(m) * u(m, j));
    }
    RowCompose(n, l, u, v, y, row);
    SumZero(n, (m: nat) => l(m) * y(m));
    SumEq(n, DoneRow(c, n, k, x, i), (j: nat) => row(j) * v(j));
  }

  lemma RestAtPivot(c: Mat, n: nat, k: nat, x: Vec, i: nat, rest: nat -> real)
    requires k < n && i < n && Exposes(c, n, k, x)
    requires forall j: nat | j < n :: rest(j) == Residue(c, k, i, j) * Entries(x)(j)
    ensures Sum(n, rest) == if i < k then 0.0 else At(c, i, k)
  {
    SumSingle(k, n, rest);
  }

  lemma DistributeRight(u: real, v: real, w: real)
    ensures (u + v) * w == u * w + v * w
  {
  }

  /** The source reports a singular matrix only when a vector certifies near-singularity. */
  lemma AbortCertifies(a: Mat, n: nat)
    requires Square(a, n) && !Accepts(a, n)
    ensures NearlySingular(a, n)
  {
    var k := FirstFailure(a, n);
    StageFactors(a, n, k);
    var Stage(c, p) := StageAt(a, n, k);
    var x := NullVector(c, n, k, 0);
    forall r: nat | r < n ensures Abs(RowTimes(a, n, r, x)) < DELTA {
      var i := PermutationHits(p, n, r);
      ExposedRow(a, p, c, n, k, x, i);
    }
    assert NearKernel(a, n, x, k);
  }

  /** The round in which an unaccepted matrix is given up. */
  lemma FirstFailure(a: Mat, n: nat) returns (k: nat)
    requires Square(a, n) && !Accepts(a, n)
    ensures k + 1 < n && !HasPivot(StageAt(a, n, k).c, n, k)
    ensures forall j: nat | j < k :: HasPivot(StageAt(a, n, j).c, n, j)
  {
    k := 0;
    while HasPivot(StageAt(a, n, k).c, n, k)
      invariant k + 1 < n && forall j: nat | j < k :: HasPivot(StageAt(a, n, j).c, n, j)
      decreases n - k
    {
      k := k + 1;
    }
  }

  /** The report can be wrong: this matrix is given up and has an inverse. */
  lemma AbortOnInvertible()
    ensures var a: Mat, b: Mat := [[DELTA / 2.0, 0.0], [0.0, 1.0]], [[2.0 / DELTA, 0.0], [0.0, 1.0]];
            !Accepts(a, 2) && IsRightInverse(a, b, 2) && IsRightInverse(b, a, 2)
  {
    var a: Mat, b: Mat := [[DELTA / 2.0, 0.0], [0.0, 1.0]], [[2.0 / DELTA, 0.0], [0.0, 1.0]];
    assert StageAt(a, 2, 0).c == a && !HasPivot(a, 2, 0);
    DiagonalInverse(DELTA / 2.0, 2.0 / DELTA);
    DiagonalInverse(2.0 / DELTA, DELTA / 2.0);
  }

  lemma DiagonalInverse(d: real, e: real)
    requires d * e == 1.0
    ensures IsRightInverse([[d, 0.0], [0.0, 1.0]], [[e, 0.0], [0.0, 1.0]], 2)
  {
    var a: Mat, b: Mat := [[d, 0.0], [0.0, 1.0]], [[e, 0.0], [0.0, 1.0]];
    forall i: nat, j: nat | i < 2 && j < 2
      ensures ProductAt(a, b, 2, i, j) == if i == j then 1.0 else 0.0
    {
      var f := (m: nat) => At(a, i, m) * At(b, m, j);
      assert Sum(2, f) == Sum(1, f) + f(1);
      assert Sum(1, f) == Sum(0, f) + f(0);
    }
  }

  /** With every other pivot away from zero, a zero last pivot is exact singularity. */
  lemma LastPivotDecides(a: Mat, p: seq<int>, c: Mat, n: nat)
    requires n > 0 && IsPermutation(p, n) && Factors(a, p, c, n) && Pivoted(c, n, n - 1)
    ensures At(c, n - 1, n - 1) == 0.0 <==> Singular(a, n)
  {
    if At(c, n - 1, n - 1) == 0.0 {
      var x := NullVector(c, n, n - 1, 0);
      UpperRow(c, n, n - 1, x);
      SumZero(n, RightTerms(c, n - 1, x));
      var y := seq(n, _ => 0.0);
      forall r: nat | r < n ensures RowTimes(a, n, r, x) == 0.0 {
        var i := PermutationHits(p, n, r);
        FactorsRow(a, p, c, n, x, y, i);
        SumZero(n, LowerTerms(c, i, y));
      }
      assert Kernel(a, n, x, n - 1);
    } else if Singular(a, n) {
      var x: Vec, k: nat :| k < n && Kernel(a, n, x, k);
      assert NonzeroDiagonal(c, n);
      TrivialKernel(a, p, c, n, x, k);
    }
  }

  // ----- Columns -----

  function Column(b: Mat, n: nat, j: nat): Vec {
    seq(n, (i: int) requires 0 <= i < n => At(b, i, j))
  }

  function UnitVector(n: nat, j: nat): Vec {
    seq(n, i => if i == j then 1.0 else 0.0)
  }

  lemma ColumnProduct(a: Mat, b: Mat, n: nat, i: nat, j: nat)
    ensures ProductAt(a, b, n, i, j) == RowTimes(a, n, i, Column(b, n, j))
  {
    var f, g := (m: nat) => At(a, i, m) * At(b, m, j), (m: nat) => At(a, i, m) * El(Column(b, n, j), m);
    forall m: nat | m < n ensures f(m) == g(m) {
      assert El(Column(b, n, j), m) == At(b, m, j);
    }
    SumEq(n, f, g);
  }

  /** Columns that solve for the unit vectors make up a right inverse. */
  lemma ColumnsInvert(a: Mat, b: Mat, n: nat)
    requires forall j: nat | j < n :: ColumnSolved(a, n, j, b)
    ensures IsRightInverse(a, b, n)
  {
    forall i: nat, j: nat | i < n && j < n
      ensures ProductAt(a, b, n, i, j) == if i == j then 1.0 else 0.0
    {
      ColumnProduct(a, b, n, i, j);
      assert ColumnSolved(a, n, j, b);
      assert RowTimes(a, n, i, Column(b, n, j)) == El(UnitVector(n, j), i);
    }
  }

  function MatEntries(a: Mat): (nat, nat) -> real { (i: nat, j: nat) => At(a, i, j) }

  function RowEntries(a: Mat, i: nat): nat -> real { (j: nat) => At(a, i, j) }

  function ColumnEntries(a: Mat, j: nat): nat -> real { (i: nat) => At(a, i, j) }

  /** a (b a_j) = a_j when b is a right inverse of a. */
  lemma RoundTripColumn(a: Mat, b: Mat, n: nat, j: nat)
    requires IsRightInverse(a, b, n) && j < n
    ensures Solves(a, n, Column(a, n, j), Image(b, a, n, j))
  {
    forall r: nat | r < n ensures RowTimes(a, n, r, Image(b, a, n, j)) == El(Column(a, n, j), r) {
      RoundTripEntry(a, b, n, j, r);
    }
  }

  /** b applied to column `j` of a. */
  function Image(b: Mat, a: Mat, n: nat, j: nat): Vec {
    seq(n, (i: int) requires 0 <= i < n => ProductAt(b, a, n, i, j))
  }

  lemma RoundTripEntry(a: Mat, b: Mat, n: nat, j: nat, r: nat)
    requires IsRightInverse(a, b, n) && j < n && r < n
    ensures RowTimes(a, n, r, Image(b, a, n, j)) == At(a, r, j)
  {
    var l, u, v := RowEntries(a, r), MatEntries(b), ColumnEntries(a, j);
    var y, row := Entries(Image(b, a, n, j)), (s: nat) => ProductAt(a, b, n, r, s);
    forall m: nat | m < n ensures y(m) == Sum(n, (s: nat) => u(m, s) * v(s)) {
      ProductIsSum(b, a, n, m, j);
    }
    forall s: nat | s < n ensures row(s) == Sum(n, (m: nat) => l(m) * u(m, s)) {
      RowProductIsSum(a, b, n, r, s);
    }
    RowCompose(n, l, u, v, y, row);
    SumSingle(r, n, (s: nat) => row(s) * v(s));
    RowTimesIsSum(a, n, r, Image(b, a, n, j));
  }

  lemma ProductIsSum(b: Mat, a: Mat, n: nat, m: nat, j: nat)
    ensures ProductAt(b, a, n, m, j) == Sum(n, (s: nat) => MatEntries(b)(m, s) * ColumnEntries(a, j)(s))
  {
    var u, v := MatEntries(b), ColumnEntries(a, j);
    var f, g := (s: nat) => At(b, m, s) * At(a, s, j), (s: nat) => u(m, s) * v(s);
    forall s: nat | s < n ensures f(s) == g(s) { assert u(m, s) == At(b, m, s) && v(s) == At(a, s, j); }
    SumEq(n, f, g);
  }

  lemma RowProductIsSum(a: Mat, b: Mat, n: nat, r: nat, s: nat)
    ensures ProductAt(a, b, n, r, s) == Sum(n, (m: nat) => RowEntries(a, r)(m) * MatEntries(b)(m, s))
  {
    var l, u := RowEntries(a, r), MatEntries(b);
    var f, g := (m: nat) => At(a, r, m) * At(b, m, s), (m: nat) => l(m) * u(m, s);
    forall m: nat | m < n ensures f(m) == g(m) { assert l(m) == At(a, r, m) && u(m, s) == At(b, m, s); }
    SumEq(n, f, g);
  }

  lemma RowTimesIsSum(a: Mat, n: nat, r: nat, x: Vec)
    ensures RowTimes(a, n, r, x) == Sum(n, (m: nat) => RowEntries(a, r)(m) * Entries(x)(m))
  {
    var l, y := RowEntries(a, r), Entries(x);
    var f, g := (m: nat) => At(a, r, m) * El(x, m), (m: nat) => l(m) * y(m);
    forall m: nat | m < n ensures f(m) == g(m) { assert l(m) == At(a, r, m) && y(m) == El(x, m); }
    SumEq(n, f, g);
  }

  lemma MatTimesIsSum(a: Mat, n: nat, r: nat, x: Vec)
    ensures RowTimes(a, n, r, x) == Sum(n, (m: nat) => MatEntries(a)(r, m) * Entries(x)(m))
  {
    var u, y := MatEntries(a), Entries(x);
    var f, g := (m: nat) => At(a, r, m) * El(x, m), (m: nat) => u(r, m) * y(m);
    forall m: nat | m < n ensures f(m) == g(m) { assert u(r, m) == At(a, r, m) && y(m) == El(x, m); }
    SumEq(n, f, g);
  }

  lemma UnitSolves(a: Mat, n: nat, j: nat)
    requires j < n
    ensures Solves(a, n, Column(a, n, j), UnitVector(n, j))
  {
    forall r: nat | r < n ensures RowTimes(a, n, r, UnitVector(n, j)) == El(Column(a, n, j), r) {
      var f := (m: nat) => At(a, r, m) * El(UnitVector(n, j), m);
      SumSingle(j, n, f);
    }
  }

  /** An invertible matrix is not singular. */
  lemma LeftInverseExcludesKernel(a: Mat, b: Mat, n: nat)
    requires IsRightInverse(b, a, n)
    ensures !Singular(a, n)
  {
    if x: Vec, k: nat :| k < n && Kernel(a, n, x, k) {
      var l, u, v := RowEntries(b, k), MatEntries(a), Entries(x);
      var y, row := (m: nat) => RowTimes(a, n, m, x), (s: nat) => ProductAt(b, a, n, k, s);
      forall m: nat | m < n ensures y(m) == Sum(n, (s: nat) => u(m, s) * v(s)) {
        MatTimesIsSum(a, n, m, x);
      }
      forall s: nat | s < n ensures row(s) == Sum(n, (m: nat) => l(m) * u(m, s)) {
        RowProductIsSum(b, a, n, k, s);
      }
      RowCompose(n, l, u, v, y, row);
      SumZero(n, (m: nat) => l(m) * y(m));
      SumSingle(k, n, (s: nat) => row(s) * v(s));
    }
  }

  /** For a matrix with a decomposition, a right inverse is a left inverse. */
  lemma RightInverseIsLeft(a: Mat, p: seq<int>, c: Mat, b: Mat, n: nat)
    requires IsPermutation(p, n) && Factors(a, p, c, n) && NonzeroDiagonal(c, n)
    requires IsRightInverse(a, b, n)
    ensures IsRightInverse(b, a, n)
  {
    forall i: nat, j: nat | i < n && j < n
      ensures ProductAt(b, a, n, i, j) == if i == j then 1.0 else 0.0
    {
      RoundTripColumn(a, b, n, j);
      UnitSolves(a, n, j);
      SolutionUnique(a, p, c, n, Column(a, n, j), Image(b, a, n, j), UnitVector(n, j), i);
    }
  }

  // ----- The method -----

  /** How `matinv` ends: an inverse, the fatal error of lupdcmp, or a division by a zero last pivot. */
  datatype Outcome = Inverted | Fatal | ZeroPivot

  /** matinv: m is overwritten by its decomposition, inv receives the inverse of the old m. */
  method Matinv(inv: array2<real>, m: array2<real>) returns (outcome: Outcome)
    requires inv.Length0 == inv.Length1 == m.Length0 == m.Length1 && inv != m
    modifies inv, m
    ensures var a, n := old(Contents(m)), m.Length0;
            match outcome
            case Inverted =>
              && Accepts(a, n) && !Singular(a, n)
              && IsRightInverse(a, Contents(inv), n) && IsRightInverse(Contents(inv), a, n)
            case Fatal => !Accepts(a, n) && NearlySingular(a, n)
            case ZeroPivot => Accepts(a, n) && Singular(a, n)
    ensures !NearlySingular(old(Contents(m)), m.Length0) ==> outcome == Inverted
    ensures forall b: Mat | IsRightInverse(b, old(Contents(m)), m.Length0) ::
              outcome == Inverted <==> Accepts(old(Contents(m)), m.Length0)
  {
    var n := m.Length0;
    ghost var a := Contents(m);
    var p := new int[n];
    var ok := Lupdcmp(m, p);
    if !ok {
      AbortCertifies(a, n);
      return Fatal;
    }
    if n > 0 {
      LastPivotDecides(a, p[..], Contents(m), n);
      if m[n - 1, n - 1] == 0.0 {
        ghost var x: Vec, k: nat :| k < n && Kernel(a, n, x, k);
        assert NearKernel(a, n, x, k);
        forall b: Mat ensures !IsRightInverse(b, a, n) {
          if IsRightInverse(b, a, n) { LeftInverseExcludesKernel(a, b, n); }
        }
        return ZeroPivot;
      }
    }
    FillColumns(inv, m, p, a);
    RightInverseIsLeft(a, p[..], Contents(m), Contents(inv), n);
    outcome := Inverted;
  }

  method FillColumns(inv: array2<real>, m: array2<real>, p: array<int>, ghost a: Mat)
    requires inv.Length0 == inv.Length1 == m.Length0 == m.Length1 == p.Length && inv != m
    requires IsPermutation(p[..], p.Length) && Factors(a, p[..], Contents(m), p.Length)
    requires NonzeroDiagonal(Contents(m), p.Length)
    modifies inv
    ensures IsRightInverse(a, Contents(inv), p.Length)
  {
    var n := p.Length;
    ghost var c, ps := Contents(m), p[..];
    var work, col := new real[n * 256], new real[n];
    assert col.Length <= work.Length;
    for j := 0 to n
      invariant Contents(m) == c && p[..] == ps
      invariant forall k: nat | k < j :: ColumnSolved(a, n, k, Contents(inv))
    {
      SetUnit(col, j);
      Lusolve(m, p, col, work, a);
      StoreColumn(inv, work, j, a);
    }
    ColumnsInvert(a, Contents(inv), n);
  }

  ghost predicate ColumnSolved(a: Mat, n: nat, k: nat, b: Mat) {
    Solves(a, n, UnitVector(n, k), Column(b, n, k))
  }

  method SetUnit(col: array<real>, j: nat)
    requires j < col.Length
    modifies col
    ensures col[..] == UnitVector(col.Length, j)
  {
    for i := 0 to col.Length
      invariant forall r | 0 <= r < i :: col[r] == 0.0
    {
      col[i] := 0.0;
    }
    col[j] := 1.0;
  }

  method StoreColumn(inv: array2<real>, work: array<real>, j: nat, ghost a: Mat)
    requires inv.Length0 == inv.Length1 <= work.Length && j < inv.Length0
    requires Solves(a, inv.Length0, UnitVector(inv.Length0, j), work[..])
    modifies inv
    ensures forall k: nat | k < inv.Length0 && k != j && old(ColumnSolved(a, inv.Length0, k, Contents(inv))) ::
              ColumnSolved(a, inv.Length0, k, Contents(inv))
    ensures ColumnSolved(a, inv.Length0, j, Contents(inv))
  {
    var n := inv.Length0;
    for i := 0 to n
      invariant forall r | 0 <= r < i :: inv[r, j] == work[r]
      invariant forall r, k | 0 <= r < n && 0 <= k < n && k != j :: inv[r, k] == old(inv[r, k])
    {
      inv[i, j] := work[i];
    }
    SameEntriesSolve(a, n, UnitVector(n, j), work[..], Column(Contents(inv), n, j));
    forall k: nat | k < n && k != j
      ensures Column(Contents(inv), n, k) == old(Column(Contents(inv), n, k))
    {
    }
  }

  lemma SameEntriesSolve(a: Mat, n: nat, b: Vec, x: Vec, z: Vec)
    requires Solves(a, n, b, x) && forall i: nat | i < n :: El(x, i) == El(z, i)
    ensures Solves(a, n, b, z)
  {
    forall r: nat | r < n ensures RowTimes(a, n, r, z) == El(b, r) {
      SumEq(n, (j: nat) => At(a, r, j) * El(x, j), (j: nat) => At(a, r, j) * El(z, j));
    }
  }
}
