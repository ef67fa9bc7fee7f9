/**
 The linear system of the damped-least-squares step (solver.py, lines 95-102): for every Jacobian and
 every positive damping the matrix J J' + damping^2 I has trivial kernel, so in exact arithmetic the
 solve never fails and the pseudo-inverse is never reached.
 */
module DampedSystem {
  import opened Prelude
  import opened Geometry

  /** A Jacobian by its entries: rows are task coordinates, columns are joints. */
  type Jacobian = (nat, nat) -> real

  /** Entry (a, b) of J J' over the first m columns. */
  function Gram(j: Jacobian, m: nat, a: nat, b: nat): real {
    if m == 0 then 0.0 else Gram(j, m - 1, a, b) + j(a, m - 1) * j(b, m - 1)
  }

  /** Entry (a, b) of the regularized matrix. */
  function Regularized(j: Jacobian, m: nat, damping: real, a: nat, b: nat): real {
    Gram(j, m, a, b) + (if a == b then damping * damping else 0.0)
  }

  /** Row a of the regularized matrix times the first n entries of x. */
  function RowTimes(j: Jacobian, m: nat, damping: real, x: nat -> real, a: nat, n: nat): real {
    if n == 0 then 0.0 else RowTimes(j, m, damping, x, a, n - 1) + Regularized(j, m, damping, a, n - 1) * x(n - 1)
  }

  // ---------------------------------------------------------------------------------------------
  // The quadratic form
  // ---------------------------------------------------------------------------------------------

  function GramTimes(j: Jacobian, m: nat, x: nat -> real, a: nat, n: nat): real {
    if n == 0 then 0.0 else GramTimes(j, m, x, a, n - 1) + Gram(j, m, a, n - 1) * x(n - 1)
  }

  /** Column k of J times x over the first n rows. */
  function Along(j: Jacobian, x: nat -> real, k: nat, n: nat): real {
    if n == 0 then 0.0 else Along(j, x, k, n - 1) + j(n - 1, k) * x(n - 1)
  }

  /** The sum of x(a) (J J' x)(a) over the first r rows. */
  function Form(j: Jacobian, m: nat, x: nat -> real, n: nat, r: nat): real {
    if r == 0 then 0.0 else Form(j, m, x, n, r - 1) + x(r - 1) * GramTimes(j, m, x, r - 1, n)
  }

  function Squares(x: nat -> real, n: nat): real {
    if n == 0 then 0.0 else Squares(x, n - 1) + x(n - 1) * x(n - 1)
  }

  lemma {:induction false} RowSplits(j: Jacobian, m: nat, damping: real, x: nat -> real, a: nat, n: nat)
    ensures RowTimes(j, m, damping, x, a, n)
         == GramTimes(j, m, x, a, n) + (if a < n then damping * damping * x(a) else 0.0)
  {
    if n > 0 {
      RowSplits(j, m, damping, x, a, n - 1);
    }
  }

  lemma {:induction false} OneMoreColumn(j: Jacobian, m: nat, x: nat -> real, a: nat, n: nat)
    ensures GramTimes(j, m + 1, x, a, n) == GramTimes(j, m, x, a, n) + j(a, m) * Along(j, x, m, n)
  {
    if n > 0 {
      OneMoreColumn(j, m, x, a, n - 1);
      ColumnScalars(Gram(j, m, a, n - 1), j(a, m), j(n - 1, m), x(n - 1), Along(j, x, m, n - 1));
    }
  }

  lemma ColumnScalars(g: real, p: real, q: real, x: real, s: real)
    ensures (g + p * q) * x + p * s == g * x + p * (s + q * x)
  {
  }

  lemma {:induction false} FormOfOneMoreColumn(j: Jacobian, m: nat, x: nat -> real, n: nat, r: nat)
    ensures Form(j, m + 1, x, n, r) == Form(j, m, x, n, r) + Along(j, x, m, r) * Along(j, x, m, n)
  {
    if r > 0 {
      FormOfOneMoreColumn(j, m, x, n, r - 1);
      OneMoreColumn(j, m, x, r - 1, n);
      FormScalars(x(r - 1), GramTimes(j, m, x, r - 1, n), j(r - 1, m), Along(j, x, m, n), Along(j, x, m, r - 1));
    }
  }

  lemma FormScalars(x: real, g: real, p: real, s: real, t: real)
    ensures x * (g + p * s) + t * s == x * g + (t + p * x) * s
  {
  }

  lemma {:induction false} NoColumns(j: Jacobian, x: nat -> real, n: nat, r: nat)
    ensures Form(j, 0, x, n, r) == 0.0
  {
    if r > 0 {
      NoColumns(j, x, n, r - 1);
      NoColumnsRow(j, x, r - 1, n);
    }
  }

  lemma {:induction false} NoColumnsRow(j: Jacobian, x: nat -> real, a: nat, n: nat)
    ensures GramTimes(j, 0, x, a, n) == 0.0
  {
    if n > 0 {
      NoColumnsRow(j, x, a, n - 1);
    }
  }

  /** x' J J' x is a sum of squares. */
  lemma {:induction false} FormIsNonnegative(j: Jacobian, m: nat, x: nat -> real, n: nat)
    ensures Form(j, m, x, n, n) >= 0.0
  {
    if m == 0 {
      NoColumns(j, x, n, n);
    } else {
      FormIsNonnegative(j, m - 1, x, n);
      FormOfOneMoreColumn(j, m - 1, x, n, n);
      var s := Along(j, x, m - 1, n);
      SquareIsZero(s, s * s);
    }
  }

  lemma {:induction false} KernelForm(j: Jacobian, m: nat, damping: real, t: real, x: nat -> real, n: nat, r: nat)
    requires r <= n && t == damping * damping && forall a: nat | a < n :: RowTimes(j, m, damping, x, a, n) == 0.0
    ensures Form(j, m, x, n, r) == -(t * Squares(x, r))
  {
    hide RowTimes, GramTimes;
    if r > 0 {
      var a := r - 1;
      var tx := t * x(a);
      KernelForm(j, m, damping, t, x, n, a);
      RowOf(j, m, damping, t, x, a, n, tx);
      assert RowTimes(j, m, damping, x, a, n) == 0.0;
      hide Form, Squares;
      FormOfOneMore(j, m, x, n, a);
      SquaresOfOneMore(x, a, x(a) * x(a));
      KernelScalars(x(a), GramTimes(j, m, x, a, n), t, Squares(x, a), Squares(x, r), tx, x(a) * x(a));
    } else {
      assert t * 0.0 == 0.0;
    }
  }

  lemma {:induction false} FormOfOneMore(j: Jacobian, m: nat, x: nat -> real, n: nat, a: nat)
    ensures Form(j, m, x, n, a + 1) == Form(j, m, x, n, a) + x(a) * GramTimes(j, m, x, a, n)
  {
    hide GramTimes;
  }

  lemma {:induction false} SquaresOfOneMore(x: nat -> real, a: nat, square: real)
    requires square == x(a) * x(a)
    ensures Squares(x, a + 1) == Squares(x, a) + square
  {
  }

  lemma KernelScalars(x: real, g: real, t: real, before: real, after: real, tx: real, square: real)
    requires g == -tx && tx == t * x && square == x * x && after == before + square
    ensures -(t * before) + x * g == -(t * after)
  {
    assert x * g == -(t * square);
  }

  lemma {:induction false} ZeroSquares(x: nat -> real, n: nat, a: nat)
    requires a < n && Squares(x, n) <= 0.0
    ensures x(a) == 0.0
    decreases n
  {
    SquareIsZero(x(n - 1), x(n - 1) * x(n - 1));
    SquaresNonnegative(x, n - 1);
    if a < n - 1 {
      ZeroSquares(x, n - 1, a);
    }
  }

  lemma {:induction false} SquaresNonnegative(x: nat -> real, n: nat)
    ensures Squares(x, n) >= 0.0
  {
    if n > 0 {
      SquaresNonnegative(x, n - 1);
      SquareIsZero(x(n - 1), x(n - 1) * x(n - 1));
    }
  }

  /** For every Jacobian with n rows and m columns and every positive damping, only the zero vector is
      mapped to zero. */
  lemma TrivialKernel(j: Jacobian, n: nat, m: nat, damping: real, x: nat -> real)
    requires damping > 0.0
    requires forall a: nat | a < n :: RowTimes(j, m, damping, x, a, n) == 0.0
    ensures forall a: nat | a < n :: x(a) == 0.0
  {
    var s, d := Squares(x, n), damping * damping;
    PositiveProduct(damping, damping, d);
    FormIsNonnegative(j, m, x, n);
    KernelForm(j, m, damping, d, x, n, n);
    SquaresNonnegative(x, n);
    if s > 0.0 {
      PositiveProduct(d, s, d * s);
    }
    forall a: nat | a < n
      ensures x(a) == 0.0
    {
      ZeroSquares(x, n, a);
    }
  }

  // ---------------------------------------------------------------------------------------------
  // The solution and the step
  // ---------------------------------------------------------------------------------------------

  /** x solves the damped system with right side e over n rows and m columns. */
  ghost predicate Solves(j: Jacobian, n: nat, m: nat, damping: real, x: nat -> real, e: nat -> real) {
    forall a: nat | a < n :: RowTimes(j, m, damping, x, a, n) == e(a)
  }

  lemma {:induction false} RowOfDifference(j: Jacobian, m: nat, damping: real, x: nat -> real, y: nat -> real, z: nat -> real,
                                           a: nat, n: nat)
    requires forall b: nat | b < n :: z(b) == x(b) - y(b)
    ensures RowTimes(j, m, damping, z, a, n) == RowTimes(j, m, damping, x, a, n) - RowTimes(j, m, damping, y, a, n)
  {
    if n > 0 {
      RowOfDifference(j, m, damping, x, y, z, a, n - 1);
      DifferenceScalars(Regularized(j, m, damping, a, n - 1), x(n - 1), y(n - 1), z(n - 1));
    }
  }

  lemma DifferenceScalars(r: real, x: real, y: real, z: real)
    requires z == x - y
    ensures r * z == r * x - r * y
  {
  }

  /** The damped system has at most one solution. */
  lemma SolutionIsUnique(j: Jacobian, n: nat, m: nat, damping: real, x: nat -> real, y: nat -> real, e: nat -> real)
    requires damping > 0.0 && Solves(j, n, m, damping, x, e) && Solves(j, n, m, damping, y, e)
    ensures forall a: nat | a < n :: x(a) == y(a)
  {
    var z := (b: nat) => x(b) - y(b);
    forall a: nat | a < n
      ensures RowTimes(j, m, damping, z, a, n) == 0.0
    {
      RowOfDifference(j, m, damping, x, y, z, a, n);
    }
    TrivialKernel(j, n, m, damping, z);
    forall a: nat | a < n
      ensures x(a) == y(a)
    {
      assert z(a) == 0.0;
    }
  }

  /** The sum of the squares of the first m entries of J' x. */
  function StepSquares(j: Jacobian, x: nat -> real, m: nat, n: nat): real {
    if m == 0 then 0.0 else StepSquares(j, x, m - 1, n) + Along(j, x, m - 1, n) * Along(j, x, m - 1, n)
  }

  /** x' J J' x is the square of J' x. */
  lemma {:induction false} FormIsStepSquares(j: Jacobian, m: nat, x: nat -> real, n: nat)
    ensures Form(j, m, x, n, n) == StepSquares(j, x, m, n)
  {
    if m == 0 {
      NoColumns(j, x, n, n);
    } else {
      FormIsStepSquares(j, m - 1, x, n);
      FormOfOneMoreColumn(j, m - 1, x, n, n);
    }
  }

  lemma BoundScalars(g: real, dx: real, ee: real, p: real, ss: real)
    requires ee == (g + dx) * (g + dx) && ss == (g - dx) * (g - dx) && p == g * dx
    ensures ee - 4.0 * p == ss
  {
  }

  predicate Bounded(d: real, f: real, q: real) {
    4.0 * (d * f) <= q
  }

  lemma OneRow(d: real, f: real, q: real, g: real, x: real, dx: real, e: real, sum: real, total: real)
    requires Bounded(d, f, q) && dx == d * x && e == g + dx && sum == f + x * g && total == q + e * e
    ensures Bounded(d, sum, total)
  {
    var s := g - dx;
    BoundScalars(g, dx, e * e, g * dx, s * s);
    SquareIsZero(s, s * s);
    SumScaled(d, f, x, g, d * f, dx * g, sum);
  }

  lemma SumScaled(d: real, f: real, x: real, g: real, df: real, dxg: real, sum: real)
    requires df == d * f && dxg == (d * x) * g && sum == f + x * g
    ensures d * sum == df + dxg
  {
    assert (d * x) * g == d * (x * g);
  }

  lemma {:induction false} RowOf(j: Jacobian, m: nat, damping: real, d: real, x: nat -> real, a: nat, n: nat, dy: real)
    requires a < n && d == damping * damping && dy == d * x(a)
    ensures RowTimes(j, m, damping, x, a, n) == GramTimes(j, m, x, a, n) + dy
  {
    RowSplits(j, m, damping, x, a, n);
    hide GramTimes, RowTimes;
  }

  lemma {:induction false} RowsBoundForm(j: Jacobian, n: nat, m: nat, damping: real, d: real, x: nat -> real, e: nat -> real,
                                         r: nat)
    requires r <= n && d == damping * damping && Solves(j, n, m, damping, x, e)
    ensures Bounded(d, Form(j, m, x, n, r), Squares(e, r))
  {
    if r > 0 {
      hide Gram, GramTimes, RowTimes, Bounded;
      RowsBoundForm(j, n, m, damping, d, x, e, r - 1);
      var y := x(r - 1);
      RowOf(j, m, damping, d, x, r - 1, n, d * y);
      assert RowTimes(j, m, damping, x, r - 1, n) == e(r - 1);
      NextRow(j, n, m, x, e, r, d, GramTimes(j, m, x, r - 1, n), y, d * y, Form(j, m, x, n, r - 1), Squares(e, r - 1));
    }
  }

  lemma NextRow(j: Jacobian, n: nat, m: nat, x: nat -> real, e: nat -> real, r: nat, d: real, g: real, y: real, dy: real,
                form: real, squares: real)
    requires r > 0 && form == Form(j, m, x, n, r - 1) && squares == Squares(e, r - 1) && Bounded(d, form, squares)
    requires g == GramTimes(j, m, x, r - 1, n) && y == x(r - 1) && dy == d * y && e(r - 1) == g + dy
    ensures Bounded(d, Form(j, m, x, n, r), Squares(e, r))
  {
    hide GramTimes, Bounded;
    OneRow(d, form, squares, g, y, dy, e(r - 1), Form(j, m, x, n, r), Squares(e, r));
  }

  /** For every Jacobian the step J' x of a solution is at most |e| / (2 damping) long. */
  lemma {:induction false} StepIsBounded(j: Jacobian, n: nat, m: nat, damping: real, x: nat -> real, e: nat -> real, step: real, error: real)
    requires Solves(j, n, m, damping, x, e) && step == StepSquares(j, x, m, n) && error == Squares(e, n)
    ensures 4.0 * ((damping * damping) * step) <= error
  {
    hide Solves, Form, StepSquares, Squares;
    RowsBoundForm(j, n, m, damping, damping * damping, x, e, n);
    FormIsStepSquares(j, m, x, n);
  }

  // ---------------------------------------------------------------------------------------------
  // What the step minimises
  // ---------------------------------------------------------------------------------------------

  /** Row a of J d over the first m columns. */
  function Image(j: Jacobian, d: nat -> real, m: nat, a: nat): real {
    if m == 0 then 0.0 else Image(j, d, m - 1, a) + j(a, m - 1) * d(m - 1)
  }

  /** |J d - e|^2 over the first n rows. */
  function Misfit(j: Jacobian, m: nat, d: nat -> real, e: nat -> real, n: nat): real {
    if n == 0 then 0.0
    else Misfit(j, m, d, e, n - 1) + (Image(j, d, m, n - 1) - e(n - 1)) * (Image(j, d, m, n - 1) - e(n - 1))
  }

  /** The damped cost of a joint step: |J d - e|^2 + damping^2 |d|^2. */
  function Cost(j: Jacobian, n: nat, m: nat, damping: real, d: nat -> real, e: nat -> real): real {
    Misfit(j, m, d, e, n) + damping * damping * Squares(d, m)
  }

  /** The step that belongs to a solution of the damped system. */
  function Step(j: Jacobian, y: nat -> real, n: nat): nat -> real {
    (k: nat) => Along(j, y, k, n)
  }

  /** J applied to that step is J J' y. */
  lemma {:induction false} ImageOfStep(j: Jacobian, y: nat -> real, m: nat, n: nat, a: nat)
    ensures Image(j, Step(j, y, n), m, a) == GramTimes(j, m, y, a, n)
  {
    hide GramTimes, Gram, Along;
    if m == 0 {
      NoColumnsRow(j, y, a, n);
    } else {
      ImageOfStep(j, y, m - 1, n, a);
      OneMoreColumn(j, m - 1, y, a, n);
    }
  }

  lemma {:induction false} ImageOfDifference(j: Jacobian, c: nat -> real, d: nat -> real, h: nat -> real, m: nat, a: nat)
    requires forall k: nat | k < m :: h(k) == d(k) - c(k)
    ensures Image(j, h, m, a) == Image(j, d, m, a) - Image(j, c, m, a)
  {
    if m > 0 {
      assert h(m - 1) == d(m - 1) - c(m - 1);
      ImageOfDifference(j, c, d, h, m - 1, a);
      DifferenceScalars(j(a, m - 1), d(m - 1), c(m - 1), h(m - 1));
    }
  }

  /** The sum of y(a) (J h)(a) over the first n rows. */
  function Paired(j: Jacobian, m: nat, y: nat -> real, h: nat -> real, n: nat): real {
    if n == 0 then 0.0 else Paired(j, m, y, h, n - 1) + y(n - 1) * Image(j, h, m, n - 1)
  }

  /** The sum of (J' y)(k) h(k) over the first m columns. */
  function PairedBack(j: Jacobian, n: nat, y: nat -> real, h: nat -> real, m: nat): real {
    if m == 0 then 0.0 else PairedBack(j, n, y, h, m - 1) + Along(j, y, m - 1, n) * h(m - 1)
  }

  lemma {:induction false} OneMoreColumnPaired(j: Jacobian, m: nat, y: nat -> real, h: nat -> real, n: nat)
    ensures Paired(j, m + 1, y, h, n) == Paired(j, m, y, h, n) + Along(j, y, m, n) * h(m)
  {
    if n > 0 {
      OneMoreColumnPaired(j, m, y, h, n - 1);
      PairScalars(y(n - 1), Image(j, h, m, n - 1), j(n - 1, m), h(m), Along(j, y, m, n - 1));
    }
  }

  lemma PairScalars(y: real, g: real, p: real, h: real, s: real)
    ensures y * (g + p * h) + s * h == y * g + (s + p * y) * h
  {
  }

  lemma {:induction false} NothingPaired(j: Jacobian, y: nat -> real, h: nat -> real, n: nat)
    ensures Paired(j, 0, y, h, n) == 0.0
  {
    if n > 0 {
      NothingPaired(j, y, h, n - 1);
    }
  }

  /** y'(J h) = (J' y)' h. */
  lemma {:induction false} Adjoint(j: Jacobian, m: nat, y: nat -> real, h: nat -> real, n: nat)
    ensures Paired(j, m, y, h, n) == PairedBack(j, n, y, h, m)
  {
    hide Along, Image;
    if m == 0 {
      NothingPaired(j, y, h, n);
    } else {
      hide Paired;
      Adjoint(j, m - 1, y, h, n);
      OneMoreColumnPaired(j, m - 1, y, h, n);
    }
  }

  /** The image of a difference, squared and added up. */
  function ImageSquares(j: Jacobian, m: nat, h: nat -> real, n: nat): real {
    if n == 0 then 0.0 else ImageSquares(j, m, h, n - 1) + Image(j, h, m, n - 1) * Image(j, h, m, n - 1)
  }

  lemma {:induction false} ImageSquaresNonnegative(j: Jacobian, m: nat, h: nat -> real, n: nat)
    ensures ImageSquares(j, m, h, n) >= 0.0
  {
    if n > 0 {
      ImageSquaresNonnegative(j, m, h, n - 1);
      var g := Image(j, h, m, n - 1);
      SquareIsZero(g, g * g);
    }
  }

  lemma MisfitScalars(c: real, d: real, g: real, e: real, y: real, t: real)
    requires g == d - c && e - c == t * y
    ensures (d - e) * (d - e) == (c - e) * (c - e) - 2.0 * (t * (y * g)) + g * g
  {
    var r := t * y;
    assert d - e == g - r && c - e == -r;
    assert (g - r) * (g - r) == r * r - 2.0 * (r * g) + g * g;
    assert r * g == t * (y * g);
  }

  lemma {:induction false} MisfitRow(j: Jacobian, n: nat, m: nat, damping: real, t: real, y: nat -> real, d: nat -> real,
                                     h: nat -> real, e: nat -> real, a: nat)
    requires a < n && Solves(j, n, m, damping, y, e) && t == damping * damping
    requires forall k: nat | k < m :: h(k) == d(k) - Step(j, y, n)(k)
    ensures var c := Image(j, Step(j, y, n), m, a);
      var s, g := Image(j, d, m, a), Image(j, h, m, a);
      (s - e(a)) * (s - e(a)) == (c - e(a)) * (c - e(a)) - 2.0 * (t * (y(a) * g)) + g * g
  {
    hide Image, Step, Solves;
    var c := Step(j, y, n);
    ImageOfDifference(j, c, d, h, m, a);
    MisfitOf(j, n, m, damping, t, y, e, a, Image(j, c, m, a), Image(j, d, m, a), Image(j, h, m, a), t * y(a));
  }

  lemma {:induction false} MisfitOf(j: Jacobian, n: nat, m: nat, damping: real, t: real, y: nat -> real, e: nat -> real, a: nat,
                 c: real, s: real, g: real, ty: real)
    requires a < n && Solves(j, n, m, damping, y, e) && t == damping * damping && ty == t * y(a)
    requires c == Image(j, Step(j, y, n), m, a) && g == s - c
    ensures (s - e(a)) * (s - e(a)) == (c - e(a)) * (c - e(a)) - 2.0 * (t * (y(a) * g)) + g * g
  {
    ResidualOf(j, n, m, damping, t, y, e, a, ty);
    hide Image, Step, Solves;
    MisfitScalars(c, s, g, e(a), y(a), t);
  }

  lemma {:induction false} ResidualOf(j: Jacobian, n: nat, m: nat, damping: real, t: real, y: nat -> real, e: nat -> real, a: nat, ty: real)
    requires a < n && Solves(j, n, m, damping, y, e) && t == damping * damping && ty == t * y(a)
    ensures e(a) - Image(j, Step(j, y, n), m, a) == ty
  {
    assert RowTimes(j, m, damping, y, a, n) == e(a);
    hide Image, GramTimes, RowTimes, Step;
    ImageOfStep(j, y, m, n, a);
    RowOf(j, m, damping, t, y, a, n, ty);
  }

  lemma {:induction false} MisfitSplits(j: Jacobian, n: nat, m: nat, damping: real, t: real, y: nat -> real, d: nat -> real,
                                        h: nat -> real, e: nat -> real, r: nat)
    requires r <= n && Solves(j, n, m, damping, y, e) && t == damping * damping
    requires forall k: nat | k < m :: h(k) == d(k) - Step(j, y, n)(k)
    ensures Misfit(j, m, d, e, r)
         == Misfit(j, m, Step(j, y, n), e, r) - 2.0 * (t * Paired(j, m, y, h, r)) + ImageSquares(j, m, h, r)
  {
    hide Image, Step, Solves, Misfit, Paired, ImageSquares;
    if r > 0 {
      var a, c := r - 1, Step(j, y, n);
      var dd := (Image(j, d, m, a) - e(a)) * (Image(j, d, m, a) - e(a));
      var cc := (Image(j, c, m, a) - e(a)) * (Image(j, c, m, a) - e(a));
      var gg, yg := Image(j, h, m, a) * Image(j, h, m, a), y(a) * Image(j, h, m, a);
      MisfitSplits(j, n, m, damping, t, y, d, h, e, a);
      assert dd == cc - 2.0 * (t * yg) + gg by {
        MisfitRow(j, n, m, damping, t, y, d, h, e, a);
      }
      OneMoreRow(j, m, y, d, c, h, e, a, dd, cc, gg, yg);
      SumScalars(t, Paired(j, m, y, h, a), yg, Paired(j, m, y, h, r));
    } else {
      NoRows(j, m, y, d, Step(j, y, n), h, e);
    }
  }

  lemma {:induction false} OneMoreRow(j: Jacobian, m: nat, y: nat -> real, d: nat -> real, c: nat -> real, h: nat -> real, e: nat -> real,
                                      a: nat, dd: real, cc: real, gg: real, yg: real)
    requires dd == (Image(j, d, m, a) - e(a)) * (Image(j, d, m, a) - e(a))
    requires cc == (Image(j, c, m, a) - e(a)) * (Image(j, c, m, a) - e(a))
    requires gg == Image(j, h, m, a) * Image(j, h, m, a) && yg == y(a) * Image(j, h, m, a)
    ensures Misfit(j, m, d, e, a + 1) == Misfit(j, m, d, e, a) + dd && Misfit(j, m, c, e, a + 1) == Misfit(j, m, c, e, a) + cc
    ensures ImageSquares(j, m, h, a + 1) == ImageSquares(j, m, h, a) + gg && Paired(j, m, y, h, a + 1) == Paired(j, m, y, h, a) + yg
  {
    hide Image;
  }

  lemma {:induction false} NoRows(j: Jacobian, m: nat, y: nat -> real, d: nat -> real, c: nat -> real, h: nat -> real, e: nat -> real)
    ensures Misfit(j, m, d, e, 0) == Misfit(j, m, c, e, 0) == 0.0
    ensures ImageSquares(j, m, h, 0) == 0.0 && Paired(j, m, y, h, 0) == 0.0
  {
  }

  lemma SumScalars(t: real, p: real, q: real, sum: real)
    requires sum == p + q
    ensures t * sum == t * p + t * q
  {
  }

  lemma {:induction false} SquaresSplit(j: Jacobian, n: nat, y: nat -> real, d: nat -> real, h: nat -> real, m: nat)
    requires forall k: nat | k < m :: h(k) == d(k) - Step(j, y, n)(k)
    ensures Squares(d, m) == Squares(Step(j, y, n), m) + 2.0 * PairedBack(j, n, y, h, m) + Squares(h, m)
  {
    hide Along;
    if m > 0 {
      SquaresSplit(j, n, y, d, h, m - 1);
      SquareOfSum(Along(j, y, m - 1, n), h(m - 1), d(m - 1));
    }
  }

  lemma SquareOfSum(c: real, h: real, d: real)
    requires h == d - c
    ensures d * d == c * c + 2.0 * (c * h) + h * h
  {
    assert d == c + h;
  }

  /** Every other step costs more, by exactly the damped squares of the difference. */
  lemma {:induction false} CostSplits(j: Jacobian, n: nat, m: nat, damping: real, y: nat -> real, d: nat -> real, h: nat -> real,
                                      e: nat -> real)
    requires Solves(j, n, m, damping, y, e) && forall k: nat | k < m :: h(k) == d(k) - Step(j, y, n)(k)
    ensures Cost(j, n, m, damping, d, e)
         == Cost(j, n, m, damping, Step(j, y, n), e) + ImageSquares(j, m, h, n) + damping * damping * Squares(h, m)
  {
    hide Misfit, Squares, Step, Paired, PairedBack, ImageSquares, Solves;
    var t := damping * damping;
    MisfitSplits(j, n, m, damping, t, y, d, h, e, n);
    SquaresSplit(j, n, y, d, h, m);
    Adjoint(j, m, y, h, n);
    CostScalars(t, Squares(Step(j, y, n), m), PairedBack(j, n, y, h, m), Squares(h, m), Squares(d, m));
  }

  lemma CostScalars(t: real, c: real, p: real, h: real, d: real)
    requires d == c + 2.0 * p + h
    ensures t * d == t * c + 2.0 * (t * p) + t * h
  {
  }

  /** The step of a solution is the cheapest one, and the only one with its cost. */
  lemma {:induction false} StepIsCheapest(j: Jacobian, n: nat, m: nat, damping: real, y: nat -> real, d: nat -> real, e: nat -> real)
    requires damping > 0.0 && Solves(j, n, m, damping, y, e)
    ensures Cost(j, n, m, damping, Step(j, y, n), e) <= Cost(j, n, m, damping, d, e)
    ensures Cost(j, n, m, damping, Step(j, y, n), e) == Cost(j, n, m, damping, d, e) ==>
      forall k: nat | k < m :: d(k) == Step(j, y, n)(k)
  {
    hide Solves, Cost, Step;
    var c := Step(j, y, n);
    var h := (k: nat) => d(k) - c(k);
    CostSplits(j, n, m, damping, y, d, h, e);
    ImageSquaresNonnegative(j, m, h, n);
    SquaresNonnegative(h, m);
    PositiveProduct(damping, damping, damping * damping);
    NonnegativeProduct(damping * damping, Squares(h, m), damping * damping * Squares(h, m));
    if Squares(h, m) > 0.0 {
      PositiveProduct(damping * damping, Squares(h, m), damping * damping * Squares(h, m));
    } else {
      forall k: nat | k < m
        ensures d(k) == c(k)
      {
        ZeroSquares(h, m, k);
        assert h(k) == 0.0;
      }
    }
  }
}
