/** One classical Runge-Kutta step (misc/HotSpot/RCutil.cc) and its exactness on linear circuits. */
module RungeKutta {
  import opened Sums
  import opened Matrices

  function Along(y: real, s: real, k: real): real { y + s * k }

  /** y + s * k, entry by entry. */
  function AddScaled(n: nat, y: Vec, s: real, k: Vec): (t: Vec)
    ensures |t| == n && forall i: nat | i < n :: t[i] == Along(El(y, i), s, El(k, i))
  {
    seq(n, (i: int) requires 0 <= i < n => Along(El(y, i), s, El(k, i)))
  }

  /** The value of the step: weighted mean of four slopes. */
  function Step(n: nat, y: Vec, k1: Vec, h: real, f: Vec -> Vec): Vec {
    var k2 := f(AddScaled(n, y, h / 2.0, k1));
    var k3 := f(AddScaled(n, y, h / 2.0, k2));
    var k4 := f(AddScaled(n, y, h, k3));
    seq(n, (i: int) requires 0 <= i < n => Weighted(h, El(y, i), El(k1, i), El(k2, i), El(k3, i), El(k4, i)))
  }

  function Weighted(h: real, y: real, k1: real, k2: real, k3: real, k4: real): real {
    y + h * (k1 + 2.0 * k2 + 2.0 * k3 + k4) / 6.0
  }

  /** The trial point of a stage, filled by a loop. */
  method TrialPoint(y: array<real>, s: real, k: Vec) returns (t: array<real>)
    requires |k| == y.Length
    ensures fresh(t) && t[..] == AddScaled(y.Length, y[..], s, k)
  {
    t := new real[y.Length];
    for i := 0 to y.Length
      invariant forall r: nat | r < i :: t[r] == Along(y[r], s, k[r])
    {
      t[i] := y[i] + s * k[i];
    }
  }

  /** rk4_core: `yout` may be the same array as `y` or `k1`. */
  method Rk4Core(y: array<real>, k1: array<real>, h: real, yout: array<real>, f: Vec -> Vec)
    requires y.Length == k1.Length == yout.Length
    requires forall v: Vec :: |f(v)| == y.Length
    modifies yout
    ensures yout[..] == old(Step(y.Length, y[..], k1[..], h, f))
  {
    var n := y.Length;
    var t := TrialPoint(y, h / 2.0, k1[..]);
    var k2 := f(t[..]);
    t := TrialPoint(y, h / 2.0, k2);
    var k3 := f(t[..]);
    t := TrialPoint(y, h, k3);
    var k4 := f(t[..]);
    ghost var ys, ks := y[..], k1[..];
    for i := 0 to n
      invariant forall r: nat | i <= r < n :: y[r] == ys[r] && k1[r] == ks[r]
      invariant forall r: nat | r < i :: yout[r] == Weighted(h, ys[r], ks[r], k2[r], k3[r], k4[r])
    {
      assert Weighted(h, y[i], k1[i], k2[i], k3[i], k4[i])
          == y[i] + h * (k1[i] + 2.0 * k2[i] + 2.0 * k3[i] + k4[i]) / 6.0;
      yout[i] := y[i] + h * (k1[i] + 2.0 * k2[i] + 2.0 * k3[i] + k4[i]) / 6.0;
    }
  }

  // ----- Affine slopes -----

  function Apply(m: Mat, n: nat, v: Vec): (w: Vec)
    ensures |w| == n && forall i: nat | i < n :: w[i] == RowTimes(m, n, i, v)
  {
    seq(n, (i: int) requires 0 <= i < n => RowTimes(m, n, i, v))
  }

  /** m applied `j` times. */
  function Iterate(m: Mat, n: nat, j: nat, v: Vec): Vec {
    if j == 0 then v else Apply(m, n, Iterate(m, n, j - 1, v))
  }

  /** f v = m v + c. */
  ghost predicate IsAffine(f: Vec -> Vec, m: Mat, c: Vec, n: nat) {
    forall v: Vec :: |f(v)| == n && forall i: nat | i < n :: f(v)[i] == RowTimes(m, n, i, v) + El(c, i)
  }

  lemma RowTimesLinear(m: Mat, n: nat, r: nat, y: Vec, s: real, k: Vec)
    ensures RowTimes(m, n, r, AddScaled(n, y, s, k)) == RowTimes(m, n, r, y) + s * RowTimes(m, n, r, k)
  {
    var fy, fk := (j: nat) => At(m, r, j) * El(y, j), (j: nat) => At(m, r, j) * El(k, j);
    var ft := (j: nat) => At(m, r, j) * El(AddScaled(n, y, s, k), j);
    forall j: nat | j < n ensures ft(j) == Along(fy(j), s, fk(j)) {
      LinearTerm(At(m, r, j), El(y, j), s, El(k, j));
    }
    SumLinear(n, fy, s, fk, ft);
  }

  lemma SumLinear(n: nat, f: nat -> real, s: real, g: nat -> real, h: nat -> real)
    requires forall j: nat | j < n :: h(j) == Along(f(j), s, g(j))
    ensures Sum(n, h) == Sum(n, f) + s * Sum(n, g)
  {
    var gs := (j: nat) => s * g(j);
    SumScale(n, s, g);
    SumEq(n, (j: nat) => s * g(j), gs);
    SumAdd(n, f, gs);
    SumEq(n, h, (j: nat) => f(j) + gs(j));
  }

  lemma LinearTerm(u: real, y: real, s: real, k: real)
    ensures u * Along(y, s, k) == Along(u * y, s, u * k)
  {
  }

  lemma ApplyLinear(m: Mat, n: nat, y: Vec, s: real, k: Vec)
    ensures Apply(m, n, AddScaled(n, y, s, k)) == AddScaled(n, Apply(m, n, y), s, Apply(m, n, k))
  {
    forall i: nat | i < n
      ensures Apply(m, n, AddScaled(n, y, s, k))[i] == AddScaled(n, Apply(m, n, y), s, Apply(m, n, k))[i]
    {
      RowTimesLinear(m, n, i, y, s, k);
    }
  }

  /** Moving along k by s changes an affine slope by s * m k. */
  lemma AffineShift(f: Vec -> Vec, m: Mat, c: Vec, n: nat, y: Vec, s: real, k: Vec)
    requires IsAffine(f, m, c, n)
    ensures f(AddScaled(n, y, s, k)) == AddScaled(n, f(y), s, Apply(m, n, k))
  {
    var z := AddScaled(n, y, s, k);
    assert |f(z)| == n && |f(y)| == n;
    forall i: nat | i < n ensures f(z)[i] == AddScaled(n, f(y), s, Apply(m, n, k))[i] {
      RowTimesLinear(m, n, i, y, s, k);
    }
  }

  function Power(h: real, j: nat): real { if j == 0 then 1.0 else h * Power(h, j - 1) }

  function Factorial(j: nat): (r: nat)
    ensures r > 0
  {
    if j == 0 then 1 else j * Factorial(j - 1)
  }

  /** Term `j` of the Taylor expansion of the solution of y' = m y + c, with g the slope at the start. */
  function TaylorTerm(m: Mat, n: nat, h: real, g: Vec, i: nat, j: nat): real {
    Power(h, j + 1) / Factorial(j + 1) as real * El(Iterate(m, n, j, g), i)
  }

  function FourthOrder(h: real, y: real, a: real, b: real, c: real, d: real): real {
    y + h * a + h * h / 2.0 * b + h * h * h / 6.0 * c + h * h * h * h / 24.0 * d
  }

  lemma Algebra(h: real, y: real, a: real, b: real, c: real, d: real)
    ensures Weighted(h, y, a, Along(a, h / 2.0, b), Along(a, h / 2.0, Along(b, h / 2.0, c)),
                     Along(a, h, Along(b, h / 2.0, Along(c, h / 2.0, d))))
         == FourthOrder(h, y, a, b, c, d)
  {
  }

  /** m applied to a stage slope: g1 + s * g2 for consecutive iterates. */
  lemma {:induction false} IterateShift(m: Mat, n: nat, j: nat, g: Vec, s: real, k: Vec)
    ensures Apply(m, n, AddScaled(n, Iterate(m, n, j, g), s, k))
         == AddScaled(n, Iterate(m, n, j + 1, g), s, Apply(m, n, k))
  {
    ApplyLinear(m, n, Iterate(m, n, j, g), s, k);
  }

  // The slopes of the later stages, in terms of the iterates of the slope at the start.

  function Slope2(m: Mat, n: nat, h: real, j: nat, g: Vec): Vec {
    AddScaled(n, Iterate(m, n, j, g), h / 2.0, Iterate(m, n, j + 1, g))
  }

  function Slope3(m: Mat, n: nat, h: real, j: nat, g: Vec): Vec {
    AddScaled(n, Iterate(m, n, j, g), h / 2.0, Slope2(m, n, h, j + 1, g))
  }

  function Slope4(m: Mat, n: nat, h: real, g: Vec): Vec {
    AddScaled(n, g, h, Slope3(m, n, h, 1, g))
  }

  lemma Stage2(f: Vec -> Vec, m: Mat, c: Vec, n: nat, y: Vec, h: real)
    requires IsAffine(f, m, c, n)
    ensures f(AddScaled(n, y, h / 2.0, f(y))) == Slope2(m, n, h, 0, f(y))
  {
    AffineShift(f, m, c, n, y, h / 2.0, f(y));
    assert Iterate(m, n, 1, f(y)) == Apply(m, n, Iterate(m, n, 0, f(y)));
  }

  lemma Stage3(f: Vec -> Vec, m: Mat, c: Vec, n: nat, y: Vec, h: real)
    requires IsAffine(f, m, c, n)
    ensures f(AddScaled(n, y, h / 2.0, Slope2(m, n, h, 0, f(y)))) == Slope3(m, n, h, 0, f(y))
  {
    var g := f(y);
    AffineShift(f, m, c, n, y, h / 2.0, Slope2(m, n, h, 0, g));
    ApplySlope2(m, n, h, 0, g);
  }

  lemma Stage4(f: Vec -> Vec, m: Mat, c: Vec, n: nat, y: Vec, h: real)
    requires IsAffine(f, m, c, n)
    ensures f(AddScaled(n, y, h, Slope3(m, n, h, 0, f(y)))) == Slope4(m, n, h, f(y))
  {
    var g := f(y);
    AffineShift(f, m, c, n, y, h, Slope3(m, n, h, 0, g));
    IterateShift(m, n, 0, g, h / 2.0, Slope2(m, n, h, 1, g));
    ApplySlope2(m, n, h, 1, g);
  }

  lemma ApplySlope2(m: Mat, n: nat, h: real, j: nat, g: Vec)
    ensures Apply(m, n, Slope2(m, n, h, j, g)) == Slope2(m, n, h, j + 1, g)
  {
    IterateShift(m, n, j, g, h / 2.0, Iterate(m, n, j + 1, g));
    assert Iterate(m, n, j + 2, g) == Apply(m, n, Iterate(m, n, j + 1, g));
  }

  /** On an affine slope the step is the Taylor expansion up to the fourth order, exactly. */
  lemma StepIsTaylor(f: Vec -> Vec, m: Mat, c: Vec, n: nat, y: Vec, h: real, i: nat)
    requires IsAffine(f, m, c, n) && i < n
    ensures El(Step(n, y, f(y), h, f), i) == El(y, i) + Sum(4, (j: nat) => TaylorTerm(m, n, h, f(y), i, j))
  {
    var g := f(y);
    Stage2(f, m, c, n, y, h);
    Stage3(f, m, c, n, y, h);
    Stage4(f, m, c, n, y, h);
    StageEntries(m, n, h, g, i, El(y, i));
    TaylorSum(m, n, h, g, i, El(y, i));
  }

  lemma StageEntries(m: Mat, n: nat, h: real, g: Vec, i: nat, y: real)
    requires i < n
    ensures Weighted(
              h, y, El(g, i), El(Slope2(m, n, h, 0, g), i), El(Slope3(m, n, h, 0, g), i), El(Slope4(m, n, h, g), i))
         == FourthOrder(
              h, y, El(g, i), El(Iterate(m, n, 1, g), i), El(Iterate(m, n, 2, g), i), El(Iterate(m, n, 3, g), i))
  {
    var a, b, c, d := El(g, i), El(Iterate(m, n, 1, g), i), El(Iterate(m, n, 2, g), i), El(Iterate(m, n, 3, g), i);
    assert El(Slope2(m, n, h, 0, g), i) == Along(a, h / 2.0, b);
    assert El(Slope2(m, n, h, 1, g), i) == Along(b, h / 2.0, c);
    assert El(Slope2(m, n, h, 2, g), i) == Along(c, h / 2.0, d);
    assert El(Slope3(m, n, h, 0, g), i) == Along(a, h / 2.0, Along(b, h / 2.0, c));
    assert El(Slope3(m, n, h, 1, g), i) == Along(b, h / 2.0, Along(c, h / 2.0, d));
    Algebra(h, y, a, b, c, d);
  }

  lemma TaylorSum(m: Mat, n: nat, h: real, g: Vec, i: nat, y: real)
    ensures y + Sum(4, (j: nat) => TaylorTerm(m, n, h, g, i, j))
         == FourthOrder(
              h, y, El(g, i), El(Iterate(m, n, 1, g), i), El(Iterate(m, n, 2, g), i), El(Iterate(m, n, 3, g), i))
  {
    var t := (j: nat) => TaylorTerm(m, n, h, g, i, j);
    assert Sum(4, t) == t(0) + t(1) + t(2) + t(3) by {
      assert Sum(2, t) == t(0) + t(1);
    }
    Coefficients(h);
  }

  lemma Coefficients(h: real)
    ensures Factorial(1) == 1 && Factorial(2) == 2 && Factorial(3) == 6 && Factorial(4) == 24
    ensures Power(h, 1) == h && Power(h, 2) == h * h && Power(h, 3) == h * h * h && Power(h, 4) == h * h * h * h
  {
    assert Power(h, 0) == 1.0;
    assert Power(h, 1) == h * Power(h, 0);
    assert Power(h, 2) == h * Power(h, 1);
    assert Power(h, 3) == h * Power(h, 2);
    assert Power(h, 4) == h * Power(h, 3);
    assert Factorial(2) == 2 * Factorial(1);
    assert Factorial(3) == 3 * Factorial(2);
    assert Factorial(4) == 4 * Factorial(3);
  }

  // ----- Slopes that depend on one entry only -----

  /** Entry `c` is a clock: its slope is 1, and all slopes depend on its value alone. */
  ghost predicate Clocked(f: Vec -> Vec, g: (real, nat) -> real, n: nat, c: nat) {
    c < n && forall v: Vec :: |f(v)| == n && f(v)[c] == 1.0 && forall i: nat | i < n :: f(v)[i] == g(El(v, c), i)
  }

  /** Then the step is Simpson's rule for the integral of the slope. */
  lemma StepIsSimpson(n: nat, y: Vec, h: real, f: Vec -> Vec, g: (real, nat) -> real, c: nat, i: nat)
    requires Clocked(f, g, n, c) && i < n
    ensures var t := El(y, c);
      Step(n, y, f(y), h, f)[i] == El(y, i) + h * (g(t, i) + 4.0 * g(t + h / 2.0, i) + g(t + h, i)) / 6.0
  {
    var k1 := f(y);
    var t2 := AddScaled(n, y, h / 2.0, k1);
    var k2 := f(t2);
    var t3 := AddScaled(n, y, h / 2.0, k2);
    var k3 := f(t3);
    var t4 := AddScaled(n, y, h, k3);
    assert El(t2, c) == El(y, c) + h / 2.0 && El(t3, c) == El(y, c) + h / 2.0 && El(t4, c) == El(y, c) + h;
    assert Step(n, y, k1, h, f)[i] == Weighted(h, El(y, i), k1[i], k2[i], k3[i], f(t4)[i]);
    Middle(h, k1[i], k2[i], f(t4)[i]);
  }

  lemma Middle(h: real, u: real, v: real, w: real)
    ensures h * (u + 2.0 * v + 2.0 * v + w) / 6.0 == h * (u + 4.0 * v + w) / 6.0
  {
    assert u + 2.0 * v + 2.0 * v + w == u + 4.0 * v + w;
  }
}
