/** LUP decomposition with partial pivoting, in place (misc/HotSpot/RCutil.cc). */
module Lup {
  import opened Sums
  import opened Matrices

  /** `eq(x, 0)` of misc/HotSpot/util.cc: equality up to this tolerance. */
  const DELTA: real := 0.000001

  // ----- The two factors stored in one matrix -----

  /** Unit lower-triangular factor of an in-place decomposition. */
  function Lower(c: Mat, i: nat, m: nat): real {
    if m < i then At(c, i, m) else if m == i then 1.0 else 0.0
  }

  /** Upper-triangular factor of an in-place decomposition. */
  function Upper(c: Mat, m: nat, j: nat): real {
    if m <= j then At(c, m, j) else 0.0
  }

  /** P a = L U, entry by entry. */
  ghost predicate Factors(a: Mat, p: seq<int>, c: Mat, n: nat)
    requires IsPermutation(p, n)
  {
    forall i: nat, j: nat | i < n && j < n ::
      At(a, p[i], j) == Sum(n, (m: nat) => Lower(c, i, m) * Upper(c, m, j))
  }

  /** The terms of entry (i, j) of the product of the two factors. */
  function Products(c: Mat, i: nat, j: nat): nat -> real {
    (m: nat) => At(c, i, m) * At(c, m, j)
  }

  /** The state after `k` columns are done: finished factors plus the Schur complement. */
  function PartialAt(c: Mat, k: nat, i: nat, j: nat): real {
    Sum(Min(Min(i, j), k), Products(c, i, j))
    + if j < i && j < k then At(c, i, j) * At(c, j, j) else At(c, i, j)
  }

  function Min(x: nat, y: nat): nat { if x < y then x else y }

  ghost predicate Partial(a: Mat, p: seq<int>, c: Mat, n: nat, k: nat)
    requires IsPermutation(p, n)
  {
    forall i: nat, j: nat | i < n && j < n :: At(a, p[i], j) == PartialAt(c, k, i, j)
  }

  /** Pivots of the finished columns are at least DELTA in size, multipliers at most one. */
  ghost predicate Pivoted(c: Mat, n: nat, k: nat) {
    && (forall j: nat | j < k && j < n :: Abs(At(c, j, j)) >= DELTA)
    && (forall i: nat, j: nat | j < k && j < i < n :: Abs(At(c, i, j)) <= 1.0)
  }

  // ----- The two moves of one round, on values -----

  function SwapRows(c: Mat, k: nat, q: nat): Mat
    requires k < |c| && q < |c|
  {
    c[k := c[q]][q := c[k]]
  }

  function SwapPerm(p: seq<int>, k: nat, q: nat): seq<int>
    requires k < |p| && q < |p|
  {
    p[k := p[q]][q := p[k]]
  }

  function EliminatedAt(c: Mat, k: nat, i: nat, j: nat): real
    requires At(c, k, k) != 0.0
  {
    if i <= k || j < k then At(c, i, j)
    else if j == k then At(c, i, k) / At(c, k, k)
    else At(c, i, j) - At(c, i, k) / At(c, k, k) * At(c, k, j)
  }

  ghost predicate IsEliminated(c: Mat, c': Mat, n: nat, k: nat) {
    && Square(c, n) && Square(c', n) && k < n && At(c, k, k) != 0.0
    && forall i: nat, j: nat | i < n && j < n :: At(c', i, j) == EliminatedAt(c, k, i, j)
  }

  function Eliminated(c: Mat, n: nat, k: nat): (c': Mat)
    requires Square(c, n) && k < n && At(c, k, k) != 0.0
    ensures IsEliminated(c, c', n, k)
  {
    seq(n, (i: int) requires 0 <= i < n =>
      seq(n, (j: int) requires 0 <= j < n => EliminatedAt(c, k, i, j)))
  }

  lemma EliminatedIs(c: Mat, c': Mat, n: nat, k: nat)
    requires IsEliminated(c, c', n, k)
    ensures c' == Eliminated(c, n, k)
  {
    var e := Eliminated(c, n, k);
    forall i | 0 <= i < n ensures c'[i] == e[i] {
      forall j | 0 <= j < n ensures c'[i][j] == e[i][j] {
        assert At(c', i, j) == At(e, i, j);
      }
    }
  }

  function SwapIndex(k: nat, q: nat, i: nat): nat {
    if i == k then q else if i == q then k else i
  }

  lemma SwapRowsAt(c: Mat, n: nat, k: nat, q: nat, i: nat, j: nat)
    requires Square(c, n) && k < n && q < n && i < n
    ensures At(SwapRows(c, k, q), i, j) == At(c, SwapIndex(k, q, i), j)
  {
  }

  lemma SwapKeepsPermutation(p: seq<int>, n: nat, k: nat, q: nat)
    requires IsPermutation(p, n) && k <= q < n
    ensures IsPermutation(SwapPerm(p, k, q), n)
  {
  }

  lemma SwapKeepsPartial(a: Mat, p: seq<int>, c: Mat, n: nat, k: nat, q: nat)
    requires IsPermutation(p, n) && Square(c, n) && k <= q < n && Partial(a, p, c, n, k)
    ensures IsPermutation(SwapPerm(p, k, q), n)
    ensures Partial(a, SwapPerm(p, k, q), SwapRows(c, k, q), n, k)
  {
    SwapKeepsPermutation(p, n, k, q);
    var p', c' := SwapPerm(p, k, q), SwapRows(c, k, q);
    forall i: nat, j: nat | i < n && j < n
      ensures At(a, p'[i], j) == PartialAt(c', k, i, j)
    {
      var s := SwapIndex(k, q, i);
      assert p'[i] == p[s];
      assert At(a, p[s], j) == PartialAt(c, k, s, j);
      SwapKeepsPartialAt(c, n, k, q, i, j);
    }
  }

  lemma SwapKeepsPartialAt(c: Mat, n: nat, k: nat, q: nat, i: nat, j: nat)
    requires Square(c, n) && k <= q < n && i < n && j < n
    ensures PartialAt(SwapRows(c, k, q), k, i, j) == PartialAt(c, k, SwapIndex(k, q, i), j)
  {
    var c', s, t := SwapRows(c, k, q), SwapIndex(k, q, i), Min(Min(i, j), k);
    assert t == Min(Min(s, j), k);
    var before, after := Products(c, s, j), Products(c', i, j);
    forall m: nat | m < t ensures after(m) == before(m) {
      SwapRowsAt(c, n, k, q, i, m);
      SwapRowsAt(c, n, k, q, m, j);
    }
    SumEq(t, after, before);
    SwapRowsAt(c, n, k, q, i, j);
    SwapRowsAt(c, n, k, q, j, j);
  }

  lemma SwapKeepsPivoted(c: Mat, n: nat, k: nat, q: nat)
    requires Square(c, n) && k <= q < n && Pivoted(c, n, k)
    ensures Pivoted(SwapRows(c, k, q), n, k)
  {
    forall i: nat, j: nat | i < n
      ensures At(SwapRows(c, k, q), i, j) == At(c, SwapIndex(k, q, i), j)
    {
      SwapRowsAt(c, n, k, q, i, j);
    }
  }

  lemma DivTimes(x: real, y: real)
    requires y != 0.0
    ensures x / y * y == x
  {
  }

  lemma TimesMonotone(x: real, y: real, z: real)
    requires x > y && z > 0.0
    ensures x * z > y * z
  {
  }

  lemma QuotientBound(x: real, y: real)
    requires Abs(x) <= Abs(y) && y != 0.0
    ensures Abs(x / y) <= 1.0
  {
    DivTimes(x, y);
    FactorBound(x / y, x, y);
  }

  lemma FactorBound(z: real, x: real, y: real)
    requires z * y == x && Abs(x) <= Abs(y) && y != 0.0
    ensures Abs(z) <= 1.0
  {
    AbsTimes(z, y);
    assert Abs(z * y) == Abs(x);
    BoundedFactor(Abs(z), Abs(y));
  }

  lemma AbsTimes(x: real, y: real)
    ensures Abs(x) * Abs(y) == Abs(x * y)
  {
    if x >= 0.0 {
      if y >= 0.0 { assert x * y >= 0.0; } else { assert x * (-y) >= 0.0; }
    } else {
      if y >= 0.0 { assert (-x) * y >= 0.0; } else { assert (-x) * (-y) >= 0.0; }
    }
  }

  lemma BoundedFactor(w: real, u: real)
    requires w * u <= u && u > 0.0
    ensures w <= 1.0
  {
    if w > 1.0 { TimesMonotone(w, 1.0, u); }
  }

  lemma EliminationKeepsPartial(a: Mat, p: seq<int>, c: Mat, c': Mat, n: nat, k: nat)
    requires IsPermutation(p, n) && IsEliminated(c, c', n, k) && Partial(a, p, c, n, k)
    ensures Partial(a, p, c', n, k + 1)
  {
    forall i: nat, j: nat | i < n && j < n
      ensures At(a, p[i], j) == PartialAt(c', k + 1, i, j)
    {
      assert At(a, p[i], j) == PartialAt(c, k, i, j);
      EliminationKeepsPartialAt(c, c', n, k, i, j);
    }
  }

  lemma EliminationKeepsPartialAt(c: Mat, c': Mat, n: nat, k: nat, i: nat, j: nat)
    requires IsEliminated(c, c', n, k) && i < n && j < n
    ensures PartialAt(c, k, i, j) == PartialAt(c', k + 1, i, j)
  {
    EliminationKeepsSum(c, c', n, k, i, j, Min(Min(i, j), k));
    EliminationTail(c, c', n, k, i, j);
    MoveTail(c, c', k, i, j);
  }

  lemma MoveTail(c: Mat, c': Mat, k: nat, i: nat, j: nat)
    requires Sum(Min(Min(i, j), k), Products(c, i, j)) == Sum(Min(Min(i, j), k), Products(c', i, j))
    requires TailMoved(c, c', k, i, j)
    ensures PartialAt(c, k, i, j) == PartialAt(c', k + 1, i, j)
  {
    if k < i && k < j {
      assert Sum(k + 1, Products(c', i, j)) == Sum(k, Products(c', i, j)) + At(c', i, k) * At(c', k, j);
    }
  }

  /** What elimination moves from the Schur complement into the product of the factors. */
  ghost predicate TailMoved(c: Mat, c': Mat, k: nat, i: nat, j: nat) {
    && (k < i && k < j ==> At(c, i, j) == At(c', i, k) * At(c', k, j) + At(c', i, j))
    && (k < i && k == j ==> At(c, i, j) == At(c', i, j) * At(c', j, j))
    && (i <= k || j < k ==> At(c, i, j) == At(c', i, j))
    && (j <= k ==> At(c, j, j) == At(c', j, j))
  }

  lemma EliminationKeepsSum(c: Mat, c': Mat, n: nat, k: nat, i: nat, j: nat, t: nat)
    requires IsEliminated(c, c', n, k) && i < n && j < n && t <= i && t <= j && t <= k
    ensures Sum(t, Products(c, i, j)) == Sum(t, Products(c', i, j))
  {
    forall m: nat | m < t ensures Products(c, i, j)(m) == Products(c', i, j)(m) {
      assert At(c', i, m) == EliminatedAt(c, k, i, m);
      assert At(c', m, j) == EliminatedAt(c, k, m, j);
    }
    SumEq(t, Products(c, i, j), Products(c', i, j));
  }

  lemma EliminationTail(c: Mat, c': Mat, n: nat, k: nat, i: nat, j: nat)
    requires IsEliminated(c, c', n, k) && i < n && j < n
    ensures TailMoved(c, c', k, i, j)
  {
    assert At(c', i, j) == EliminatedAt(c, k, i, j);
    assert At(c', k, j) == EliminatedAt(c, k, k, j);
    assert At(c', i, k) == EliminatedAt(c, k, i, k);
    assert At(c', j, j) == EliminatedAt(c, k, j, j);
    if k < i && k == j {
      DivTimes(At(c, i, k), At(c, k, k));
    }
  }

  lemma EliminationKeepsPivoted(c: Mat, c': Mat, n: nat, k: nat)
    requires IsEliminated(c, c', n, k) && Pivoted(c, n, k)
    requires Abs(At(c, k, k)) >= DELTA
    requires forall i: nat | k <= i < n :: Abs(At(c, i, k)) <= Abs(At(c, k, k))
    ensures Pivoted(c', n, k + 1)
  {
    forall j: nat | j < k + 1 && j < n ensures Abs(At(c', j, j)) >= DELTA {
      assert At(c', j, j) == EliminatedAt(c, k, j, j);
    }
    forall i: nat, j: nat | j < k + 1 && j < i < n ensures Abs(At(c', i, j)) <= 1.0 {
      assert At(c', i, j) == EliminatedAt(c, k, i, j);
      if j == k { QuotientBound(At(c, i, k), At(c, k, k)); }
    }
  }

  /** With every column but the last done, the partial form is the full factorization. */
  lemma PartialIsFactors(a: Mat, p: seq<int>, c: Mat, n: nat, k: nat)
    requires IsPermutation(p, n) && Partial(a, p, c, n, k) && k < n + 1 && n <= k + 1
    ensures Factors(a, p, c, n)
  {
    forall i: nat, j: nat | i < n && j < n
      ensures At(a, p[i], j) == Sum(n, (m: nat) => Lower(c, i, m) * Upper(c, m, j))
    {
      assert At(a, p[i], j) == PartialAt(c, k, i, j);
      FactorEntry(c, n, k, i, j);
    }
  }

  lemma FactorTerm(c: Mat, i: nat, j: nat, m: nat)
    ensures Lower(c, i, m) * Upper(c, m, j) ==
      if m > i || m > j then 0.0 else if m == i then At(c, i, j) else Products(c, i, j)(m)
  {
  }

  lemma FactorEntry(c: Mat, n: nat, k: nat, i: nat, j: nat)
    requires i < n && j < n && n <= k + 1
    ensures PartialAt(c, k, i, j) == Sum(n, (m: nat) => Lower(c, i, m) * Upper(c, m, j))
  {
    hide At, Products, Lower, Upper;
    var f := (m: nat) => Lower(c, i, m) * Upper(c, m, j);
    var t := Min(i, j);
    forall m: nat | m < n
      ensures f(m) == if m > i || m > j then 0.0 else if m == i then At(c, i, j) else Products(c, i, j)(m)
    {
      FactorTerm(c, i, j, m);
    }
    SumPrefix(t + 1, n, f);
    SumEq(t, f, Products(c, i, j));
    TermAt(c, i, j, t);
  }

  lemma TermAt(c: Mat, i: nat, j: nat, m: nat)
    ensures Products(c, i, j)(m) == At(c, i, m) * At(c, m, j)
  {
  }

  // ----- The elimination on values -----

  /** The scan of column `k` from row `k` up to row `i`: the first row with the largest entry, and its size. */
  function PivotTo(c: Mat, k: nat, i: nat): (r: (nat, real))
    requires k <= i
    ensures r.1 >= 0.0 && forall m: nat | k <= m < i :: Abs(At(c, m, k)) <= r.1
    ensures r.1 > 0.0 ==> k <= r.0 < i && r.1 == Abs(At(c, r.0, k))
    ensures r.1 > 0.0 ==> forall m: nat | k <= m < r.0 :: Abs(At(c, m, k)) < r.1
    decreases i - k
  {
    if i == k then (0, 0.0)
    else
      var r := PivotTo(c, k, i - 1);
      if Abs(At(c, i - 1, k)) > r.1 then (i - 1, Abs(At(c, i - 1, k))) else r
  }

  /** The matrix and the permutation between two rounds. */
  datatype Stage = Stage(c: Mat, p: seq<int>) {
    ghost predicate Sized(n: nat) { Square(c, n) && |p| == n }
  }

  /** One round: the pivot row is brought to position and the column eliminated, unless it is too small. */
  function Advance(s: Stage, n: nat, k: nat): (s': Stage)
    requires s.Sized(n) && k < n
    ensures s'.Sized(n)
  {
    var (q, max) := PivotTo(s.c, k, n);
    if max < DELTA then s
    else
      PivotIsLargest(s.c, n, k, q);
      Stage(Eliminated(SwapRows(s.c, k, q), n, k), SwapPerm(s.p, k, q))
  }

  /** The state after the first `k` rounds on matrix `a`. */
  function StageAt(a: Mat, n: nat, k: nat): (s: Stage)
    requires Square(a, n) && k <= n
    ensures s.Sized(n)
  {
    if k == 0 then Stage(a, seq(n, i => i)) else Advance(StageAt(a, n, k - 1), n, k - 1)
  }

  /** Column `k` has an entry at or below row `k` that is not taken for zero. */
  ghost predicate HasPivot(c: Mat, n: nat, k: nat) {
    exists i: nat :: k <= i < n && Abs(At(c, i, k)) >= DELTA
  }

  /** Every column but the last has such an entry when its round comes. */
  ghost predicate Accepts(a: Mat, n: nat)
    requires Square(a, n)
  {
    forall k: nat | k + 1 < n :: HasPivot(StageAt(a, n, k).c, n, k)
  }

  lemma PivotIsLargest(c: Mat, n: nat, k: nat, q: nat)
    requires Square(c, n) && k <= q < n
    requires forall i: nat | k <= i < n :: Abs(At(c, i, k)) <= Abs(At(c, q, k))
    ensures var c' := SwapRows(c, k, q);
            && At(c', k, k) == At(c, q, k)
            && forall i: nat | k <= i < n :: Abs(At(c', i, k)) <= Abs(At(c', k, k))
  {
    forall i: nat | i < n
      ensures At(SwapRows(c, k, q), i, k) == At(c, SwapIndex(k, q, i), k)
    {
      SwapRowsAt(c, n, k, q, i, k);
    }
  }

  /** A round that finds a pivot keeps the partial factorization and the pivot bounds. */
  lemma AdvanceKeeps(a: Mat, s: Stage, n: nat, k: nat)
    requires s.Sized(n) && k < n && HasPivot(s.c, n, k)
    requires IsPermutation(s.p, n) && Partial(a, s.p, s.c, n, k) && Pivoted(s.c, n, k)
    ensures var s' := Advance(s, n, k);
            IsPermutation(s'.p, n) && Partial(a, s'.p, s'.c, n, k + 1) && Pivoted(s'.c, n, k + 1)
  {
    hide Partial, PartialAt, EliminatedAt;
    var (q, _) := PivotTo(s.c, k, n);
    var c := SwapRows(s.c, k, q);
    SwapKeepsPartial(a, s.p, s.c, n, k, q);
    SwapKeepsPivoted(s.c, n, k, q);
    PivotIsLargest(s.c, n, k, q);
    EliminationKeepsPartial(a, SwapPerm(s.p, k, q), c, Eliminated(c, n, k), n, k);
    EliminationKeepsPivoted(c, Eliminated(c, n, k), n, k);
  }

  /** While every column had its pivot, the state is a partial factorization of the input. */
  lemma {:induction false} StageFactors(a: Mat, n: nat, k: nat)
    requires Square(a, n) && k <= n
    requires forall j: nat | j < k :: HasPivot(StageAt(a, n, j).c, n, j)
    ensures var s := StageAt(a, n, k);
            IsPermutation(s.p, n) && Partial(a, s.p, s.c, n, k) && Pivoted(s.c, n, k)
  {
    hide Advance, Partial, Pivoted, HasPivot;
    if k == 0 {
      PartialStart(a, StageAt(a, n, 0).p, n);
    } else {
      StageFactors(a, n, k - 1);
      AdvanceKeeps(a, StageAt(a, n, k - 1), n, k - 1);
    }
  }

  /** The starting point: identity permutation, nothing factored yet. */
  lemma PartialStart(a: Mat, p: seq<int>, n: nat)
    requires |p| == n && forall r | 0 <= r < n :: p[r] == r
    ensures IsPermutation(p, n) && Partial(a, p, a, n, 0) && Pivoted(a, n, 0)
  {
  }

  // ----- The methods -----

  /** The current contents of a matrix. */
  ghost function Contents(a: array2<real>): (c: Mat)
    reads a
    ensures |c| == a.Length0 && forall i | 0 <= i < a.Length0 :: |c[i]| == a.Length1
    ensures forall i, j | 0 <= i < a.Length0 && 0 <= j < a.Length1 :: c[i][j] == a[i, j]
  {
    seq(a.Length0, i requires 0 <= i < a.Length0 reads a =>
      seq(a.Length1, j requires 0 <= j < a.Length1 reads a => a[i, j]))
  }

  /** The first row at or below `k` whose entry in column `k` is largest in absolute value. */
  method FindPivot(a: array2<real>, k: nat) returns (pivot: nat, max: real)
    requires a.Length0 == a.Length1 && k < a.Length0
    ensures forall i | k <= i < a.Length0 :: Abs(a[i, k]) <= max
    ensures max == 0.0 || (k <= pivot < a.Length0 && max == Abs(a[pivot, k]))
    ensures (pivot, max) == PivotTo(Contents(a), k, a.Length0)
  {
    pivot, max := 0, 0.0;
    for i := k to a.Length0
      invariant (pivot, max) == PivotTo(Contents(a), k, i)
    {
      if Abs(a[i, k]) > max {
        max := Abs(a[i, k]);
        pivot := i;
      }
    }
    forall i | k <= i < a.Length0 ensures Abs(a[i, k]) <= max {
      assert Abs(At(Contents(a), i, k)) <= max;
    }
  }

  method ExchangeRows(a: array2<real>, k: nat, q: nat)
    requires a.Length0 == a.Length1 && k < a.Length0 && q < a.Length0
    modifies a
    ensures Contents(a) == SwapRows(old(Contents(a)), k, q)
  {
    for i := 0 to a.Length1
      invariant forall r, s | 0 <= r < a.Length0 && i <= s < a.Length1 :: a[r, s] == old(a[r, s])
      invariant forall s | 0 <= s < i :: a[k, s] == old(a[q, s]) && a[q, s] == old(a[k, s])
      invariant forall r, s | 0 <= r < a.Length0 && 0 <= s < i && r != k && r != q :: a[r, s] == old(a[r, s])
    {
      a[k, i], a[q, i] := a[q, i], a[k, i];
    }
    forall r | 0 <= r < a.Length0
      ensures Contents(a)[r] == SwapRows(old(Contents(a)), k, q)[r]
    {
    }
  }

  /** The multiplier of row `i`, and the row minus that multiple of the pivot row. */
  method EliminateRow(a: array2<real>, k: nat, i: nat, ghost c: Mat)
    requires a.Length0 == a.Length1 && k < i < a.Length0 && a[k, k] != 0.0
    requires forall s: nat | s < a.Length1 :: a[k, s] == At(c, k, s) && a[i, s] == At(c, i, s)
    modifies a
    ensures forall r, s | 0 <= r < a.Length0 && 0 <= s < a.Length1 && r != i :: a[r, s] == old(a[r, s])
    ensures forall s: nat | s < a.Length1 :: a[i, s] == EliminatedAt(c, k, i, s)
  {
    a[i, k] := a[i, k] / a[k, k];
    for j := k + 1 to a.Length1
      invariant forall r, s | 0 <= r < a.Length0 && 0 <= s < a.Length1 && r != i :: a[r, s] == old(a[r, s])
      invariant forall s: nat | s < j :: a[i, s] == EliminatedAt(c, k, i, s)
      invariant forall s: nat | j <= s < a.Length1 :: a[i, s] == At(c, i, s)
    {
      a[i, j] := a[i, j] - a[i, k] * a[k, j];
    }
  }

  /** Divides column `k` by the pivot and subtracts the outer product from what remains. */
  method Eliminate(a: array2<real>, k: nat)
    requires a.Length0 == a.Length1 && k < a.Length0 && a[k, k] != 0.0
    modifies a
    ensures Contents(a) == Eliminated(old(Contents(a)), a.Length0, k)
  {
    var n := a.Length0;
    ghost var c := Contents(a);
    for i := k + 1 to n
      invariant forall r, s | 0 <= r < n && 0 <= s < n && (r <= k || i <= r) :: a[r, s] == c[r][s]
      invariant forall r, s | k < r < i && 0 <= s < n :: a[r, s] == EliminatedAt(c, k, r, s)
    {
      EliminateRow(a, k, i, c);
    }
    EliminatedIs(c, Contents(a), n, k);
  }

  /** One round of lupdcmp: choose the pivot, bring it to position, eliminate below it. */
  method Round(a: array2<real>, p: array<int>, k: nat) returns (ok: bool)
    requires a.Length0 == a.Length1 == p.Length && k < a.Length0
    modifies a, p
    ensures ok <==> HasPivot(old(Contents(a)), a.Length0, k)
    ensures Stage(Contents(a), p[..]) == Advance(Stage(old(Contents(a)), old(p[..])), a.Length0, k)
    ensures !ok ==> p[..] == old(p[..]) && Contents(a) == old(Contents(a))
  {
    ghost var n, s := a.Length0, Stage(Contents(a), p[..]);
    var pivot, max := FindPivot(a, k);
    if max < DELTA {
      return false;
    }
    assert Abs(At(s.c, pivot, k)) >= DELTA;
    p[k], p[pivot] := p[pivot], p[k];
    assert p[..] == SwapPerm(s.p, k, pivot);
    ExchangeRows(a, k, pivot);
    PivotIsLargest(s.c, n, k, pivot);
    Eliminate(a, k);
    ok := true;
  }

  /** lupdcmp: `ok` is false where the source calls fatal("singular matrix"). */
  method Lupdcmp(a: array2<real>, p: array<int>) returns (ok: bool)
    requires a.Length0 == a.Length1 == p.Length
    modifies a, p
    ensures ok <==> Accepts(old(Contents(a)), a.Length0)
    ensures ok ==> IsPermutation(p[..], a.Length0) && Factors(old(Contents(a)), p[..], Contents(a), a.Length0)
    ensures ok ==> Pivoted(Contents(a), a.Length0, if a.Length0 == 0 then 0 else a.Length0 - 1)
  {
    hide Advance, Partial, HasPivot;
    var n := a.Length0;
    ghost var a0 := Contents(a);
    for i := 0 to n
      invariant forall r | 0 <= r < i :: p[r] == r
      invariant Contents(a) == a0
    {
      p[i] := i;
    }
    assert p[..] == StageAt(a0, n, 0).p;
    var k := 0;
    while k + 1 < n
      invariant k <= n && (k < n || n == 0)
      invariant Stage(Contents(a), p[..]) == StageAt(a0, n, k)
      invariant forall j: nat | j < k :: HasPivot(StageAt(a0, n, j).c, n, j)
    {
      ok := Round(a, p, k);
      if !ok {
        return;
      }
      k := k + 1;
    }
    StageFactors(a0, n, k);
    PartialIsFactors(a0, p[..], Contents(a), n, k);
    ok := true;
  }
}
