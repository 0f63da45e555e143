/** Finite sums of reals, the vocabulary in which the linear-algebra results are stated. */
module Sums {

  function Sum(n: nat, f: nat -> real): (s: real) {
    if n == 0 then 0.0 else Sum(n - 1, f) + f(n - 1)
  }

  lemma {:induction false} SumEq(n: nat, f: nat -> real, g: nat -> real)
    requires forall i: nat | i < n :: f(i) == g(i)
    ensures Sum(n, f) == Sum(n, g)
  {
    if n != 0 { SumEq(n - 1, f, g); }
  }

  lemma {:induction false} SumZero(n: nat, f: nat -> real)
    requires forall i: nat | i < n :: f(i) == 0.0
    ensures Sum(n, f) == 0.0
  {
    if n != 0 { SumZero(n - 1, f); }
  }

  lemma {:induction false} SumAdd(n: nat, f: nat -> real, g: nat -> real)
    ensures Sum(n, f) + Sum(n, g) == Sum(n, (i: nat) => f(i) + g(i))
  {
    if n != 0 { SumAdd(n - 1, f, g); }
  }

  lemma {:induction false} SumScale(n: nat, c: real, f: nat -> real)
    ensures c * Sum(n, f) == Sum(n, (i: nat) => c * f(i))
  {
    if n != 0 { SumScale(n - 1, c, f); }
  }

  /** A sum whose terms vanish from `k` on is the shorter sum. */
  lemma {:induction false} SumPrefix(k: nat, n: nat, f: nat -> real)
    requires k <= n
    requires forall i: nat | k <= i < n :: f(i) == 0.0
    ensures Sum(n, f) == Sum(k, f)
  {
    if k != n { SumPrefix(k, n - 1, f); }
  }

  /** A sum with a single non-zero term is that term. */
  lemma {:induction false} SumSingle(k: nat, n: nat, f: nat -> real)
    requires k < n
    requires forall i: nat | i < n && i != k :: f(i) == 0.0
    ensures Sum(n, f) == f(k)
  {
    SumPrefix(k + 1, n, f);
    SumZero(k, f);
  }

  /** Exchanging the order of a double sum. */
  lemma {:induction false} SumExchange(n: nat, m: nat, g: (nat, nat) -> real)
    ensures Sum(n, (i: nat) => Sum(m, (j: nat) => g(i, j)))
         == Sum(m, (j: nat) => Sum(n, (i: nat) => g(i, j)))
  {
    var inner := (j: nat) => Sum(n, (i: nat) => g(i, j));
    if n == 0 {
      SumZero(m, inner);
    } else {
      SumExchange(n - 1, m, g);
      var shorter := (j: nat) => Sum(n - 1, (i: nat) => g(i, j));
      var last := (j: nat) => g(n - 1, j);
      SumAdd(m, shorter, last);
      SumEq(m, (j: nat) => shorter(j) + last(j), inner);
      var outer := (i: nat) => Sum(m, (j: nat) => g(i, j));
      assert outer(n - 1) == Sum(m, last) by {
        SumEq(m, (j: nat) => g(n - 1, j), last);
      }
      SumEq(n - 1, outer, (i: nat) => Sum(m, (j: nat) => g(i, j)));
    }
  }

  lemma Associate(u: real, v: real, w: real)
    ensures u * (v * w) == u * v * w
    ensures w * (u * v) == u * v * w
  {
  }

  /** Associativity of row, matrix and column: l (u v) = (l u) v. */
  lemma {:induction false} SumAssociate(n: nat, l: nat -> real, u: (nat, nat) -> real, v: nat -> real)
    ensures Sum(n, (m: nat) => l(m) * Sum(n, (j: nat) => u(m, j) * v(j)))
         == Sum(n, (j: nat) => Sum(n, (m: nat) => l(m) * u(m, j)) * v(j))
  {
    hide Sum;
    var g := (m: nat, j: nat) => l(m) * u(m, j) * v(j);
    forall m: nat | m < n
      ensures l(m) * Sum(n, (j: nat) => u(m, j) * v(j)) == Sum(n, (j: nat) => g(m, j))
    {
      ScaleRow(n, l, u, v, g, m);
    }
    SumEq(n, (m: nat) => l(m) * Sum(n, (j: nat) => u(m, j) * v(j)), (m: nat) => Sum(n, (j: nat) => g(m, j)));
    SumExchange(n, n, g);
    forall j: nat | j < n
      ensures Sum(n, (m: nat) => g(m, j)) == Sum(n, (m: nat) => l(m) * u(m, j)) * v(j)
    {
      ScaleColumn(n, l, u, v, g, j);
    }
    SumEq(n, (j: nat) => Sum(n, (m: nat) => g(m, j)), (j: nat) => Sum(n, (m: nat) => l(m) * u(m, j)) * v(j));
  }

  ghost predicate IsTriple(n: nat, l: nat -> real, u: (nat, nat) -> real, v: nat -> real, g: (nat, nat) -> real) {
    forall m: nat, j: nat | m < n && j < n :: g(m, j) == l(m) * u(m, j) * v(j)
  }

  lemma ScaleRow(n: nat, l: nat -> real, u: (nat, nat) -> real, v: nat -> real, g: (nat, nat) -> real, m: nat)
    requires IsTriple(n, l, u, v, g) && m < n
    ensures l(m) * Sum(n, (j: nat) => u(m, j) * v(j)) == Sum(n, (j: nat) => g(m, j))
  {
    hide Sum;
    var f := (j: nat) => u(m, j) * v(j);
    SumScale(n, l(m), f);
    forall j: nat | j < n ensures l(m) * f(j) == g(m, j) { Associate(l(m), u(m, j), v(j)); }
    SumEq(n, (j: nat) => l(m) * f(j), (j: nat) => g(m, j));
  }

  lemma ScaleColumn(n: nat, l: nat -> real, u: (nat, nat) -> real, v: nat -> real, g: (nat, nat) -> real, j: nat)
    requires IsTriple(n, l, u, v, g) && j < n
    ensures Sum(n, (m: nat) => g(m, j)) == Sum(n, (m: nat) => l(m) * u(m, j)) * v(j)
  {
    hide Sum;
    var f := (m: nat) => l(m) * u(m, j);
    SumScale(n, v(j), f);
    forall m: nat | m < n ensures v(j) * f(m) == g(m, j) { Associate(l(m), u(m, j), v(j)); }
    SumEq(n, (m: nat) => v(j) * f(m), (m: nat) => g(m, j));
  }

  /** If y = u v and row = l u then l y = row v. */
  lemma RowCompose(n: nat, l: nat -> real, u: (nat, nat) -> real, v: nat -> real, y: nat -> real, row: nat -> real)
    requires forall m: nat | m < n :: y(m) == Sum(n, (j: nat) => u(m, j) * v(j))
    requires forall j: nat | j < n :: row(j) == Sum(n, (m: nat) => l(m) * u(m, j))
    ensures Sum(n, (m: nat) => l(m) * y(m)) == Sum(n, (j: nat) => row(j) * v(j))
  {
    SumAssociate(n, l, u, v);
    SumEq(n, (m: nat) => l(m) * y(m), (m: nat) => l(m) * Sum(n, (j: nat) => u(m, j) * v(j)));
    SumEq(n, (j: nat) => row(j) * v(j), (j: nat) => Sum(n, (m: nat) => l(m) * u(m, j)) * v(j));
  }
}
