/**
 Exponentials of twists (math3d.py): Rodrigues' formula, the SE(3) exponential and the adjoint.
 Sine, cosine and square root are parameters known only by their laws.
 */
module Twists {
  import opened Prelude
  import opened Geometry

  /** The library functions the source calls. */
  datatype Library = Library(sin: real -> real, cos: real -> real, sqrt: real -> real, pi: real)
  {
    predicate CircleLaw(a: real) {
      sin(a) * sin(a) + cos(a) * cos(a) == 1.0
    }

    predicate SumLaw(a: real, b: real) {
      && sin(a + b) == sin(a) * cos(b) + cos(a) * sin(b)
      && cos(a + b) == cos(a) * cos(b) - sin(a) * sin(b)
    }

    predicate RootLaw(a: real) {
      a >= 0.0 ==> sqrt(a) >= 0.0 && sqrt(a) * sqrt(a) == a
    }

    ghost predicate Valid() {
      && (forall a: real :: CircleLaw(a))
      && (forall a: real, b: real :: SumLaw(a, b))
      && (forall a: real :: RootLaw(a))
      && sin(0.0) == 0.0 && cos(0.0) == 1.0
    }
  }

  /** Below this norm an axis counts as zero. */
  const AXIS_EPSILON := 0.000000000001

  function Skew(v: Vec3): Mat3 {
    Mat3(Vec3(0.0, -v.z, v.y), Vec3(v.z, 0.0, -v.x), Vec3(-v.y, v.x, 0.0))
  }

  function Over(v: Vec3, d: real): Vec3
    requires d != 0.0
  {
    Vec3(v.x / d, v.y / d, v.z / d)
  }

  function Norm(lib: Library, v: Vec3): real {
    lib.sqrt(Dot(v, v))
  }

  /** a I + b K + c K K for the skew matrix K of u. */
  function SkewPolynomial(a: real, b: real, c: real, u: Vec3): Mat3 {
    MatComb(a, b, Skew(u), c, Mul(Skew(u), Skew(u)))
  }

  /** Rodrigues' formula. */
  function RotationExp(lib: Library, axis: Vec3, angle: real): Mat3 {
    var norm := Norm(lib, axis);
    if norm < AXIS_EPSILON then IDENTITY3
    else SkewPolynomial(1.0, lib.sin(angle), 1.0 - lib.cos(angle), Over(axis, norm))
  }

  /** A screw axis in [angular; linear] order. */
  datatype Screw = Screw(angular: Vec3, linear: Vec3)

  /** The exponential about a unit axis: the rotation by theta and the translation it drags along. */
  function UnitTwistExp(lib: Library, unit: Vec3, theta: real, linear: Vec3): Pose {
    Pose(RotationExp(lib, unit, theta),
         Apply(SkewPolynomial(theta, 1.0 - lib.cos(theta), theta - lib.sin(theta), unit), linear))
  }

  /** The angle by which a screw with an axis of this norm turns at this position. */
  function Angle(position: real, norm: real): real {
    position * norm
  }

  function TwistExp(lib: Library, screw: Screw, position: real): Pose {
    var norm := Norm(lib, screw.angular);
    if norm < AXIS_EPSILON then Pose(IDENTITY3, Times(position, screw.linear))
    else UnitTwistExp(lib, Over(screw.angular, norm), Angle(position, norm), Over(screw.linear, norm))
  }

  /** A 6x6 matrix by its 3x3 blocks. */
  datatype Mat6 = Mat6(topLeft: Mat3, topRight: Mat3, bottomLeft: Mat3, bottomRight: Mat3)

  const ZERO3 := Mat3(ORIGIN, ORIGIN, ORIGIN)

  function Apply6(m: Mat6, s: Screw): Screw {
    Screw(Plus(Apply(m.topLeft, s.angular), Apply(m.topRight, s.linear)),
          Plus(Apply(m.bottomLeft, s.angular), Apply(m.bottomRight, s.linear)))
  }

  function Adjoint(t: Pose): Mat6 {
    Mat6(t.rotation, ZERO3, Mul(Skew(t.translation), t.rotation), t.rotation)
  }

  // ---------------------------------------------------------------------------------------------
  // Polynomials in a skew matrix act through cross products
  // ---------------------------------------------------------------------------------------------

  /** a v + b u x v + c u x (u x v) */
  function Turn(a: real, b: real, c: real, u: Vec3, v: Vec3): Vec3 {
    Comb(a, v, b, Cross(u, v), c, Cross(u, Cross(u, v)))
  }

  lemma SkewIsCross(u: Vec3, v: Vec3)
    ensures Apply(Skew(u), v) == Cross(u, v)
  {
  }

  lemma MatCombApplies(a: real, b: real, m: Mat3, c: real, n: Mat3, v: Vec3)
    ensures Apply(MatComb(a, b, m, c, n), v) == Comb(a, v, b, Apply(m, v), c, Apply(n, v))
  {
    DotLinear(v, a, E0, b, m.r0, c, n.r0);
    DotLinear(v, a, E1, b, m.r1, c, n.r1);
    DotLinear(v, a, E2, b, m.r2, c, n.r2);
    DotUnits(v);
    hide Dot;
  }

  lemma DotUnits(v: Vec3)
    ensures Dot(E0, v) == v.x && Dot(E1, v) == v.y && Dot(E2, v) == v.z
  {
  }

  lemma SkewPolynomialTurns(a: real, b: real, c: real, u: Vec3, v: Vec3)
    ensures Apply(SkewPolynomial(a, b, c, u), v) == Turn(a, b, c, u, v)
  {
    hide Apply, MatComb, Skew, Mul, Cross, Comb;
    MatCombApplies(a, b, Skew(u), c, Mul(Skew(u), Skew(u)), v);
    ApplyMul(Skew(u), Skew(u), v);
    SkewIsCross(u, v);
    SkewIsCross(u, Cross(u, v));
  }

  lemma DoubleCross(u: Vec3, w: Vec3)
    requires Dot(u, u) == 1.0 && Dot(u, w) == 0.0
    ensures Cross(u, Cross(u, w)) == Minus(w)
  {
    CrossAgain(u, w, Cross(u, w));
  }

  lemma CrossAgain(u: Vec3, w: Vec3, c: Vec3)
    requires Dot(u, u) == 1.0 && Dot(u, w) == 0.0
    requires c.x == u.y * w.z - u.z * w.y && c.y == u.z * w.x - u.x * w.z && c.z == u.x * w.y - u.y * w.x
    ensures Cross(u, c) == Minus(w)
  {
    DoubleCrossScalars(u.x, u.y, u.z, w.x, w.y, w.z, c.z, c.y);
    DoubleCrossScalars(u.y, u.z, u.x, w.y, w.z, w.x, c.x, c.z);
    DoubleCrossScalars(u.z, u.x, u.y, w.z, w.x, w.y, c.y, c.x);
  }

  lemma Expand(y: real, x: real, b: real, a: real)
    ensures y * (x * b - y * a) == x * (y * b) - a * (y * y)
  {
  }

  lemma ScaleSum(t: real, p: real, q: real, r: real)
    ensures t * p + t * q + t * r == t * (p + q + r)
  {
  }

  lemma DoubleCrossScalars(x: real, y: real, z: real, a: real, b: real, c: real, p: real, q: real)
    requires x * x + y * y + z * z == 1.0 && x * a + y * b + z * c == 0.0
    requires p == x * b - y * a && q == z * a - x * c
    ensures y * p - z * q == -a
  {
    Expand(y, x, b, a);
    Expand(z, x, c, a);
    ScaleSum(x, x * a, y * b, z * c);
    ScaleSum(a, x * x, y * y, z * z);
  }

  lemma CrossIsPerpendicular(u: Vec3, v: Vec3)
    ensures Dot(u, Cross(u, v)) == 0.0
  {
  }

  lemma CrossMinus(u: Vec3, v: Vec3)
    ensures Cross(u, Minus(v)) == Minus(Cross(u, v))
  {
  }

  /** The cube of the skew matrix of a unit vector is minus itself, so polynomials in it multiply by
      this rule. */
  lemma TurnTwice(a: real, b: real, c: real, d: real, e: real, f: real, p: real, q: real, r: real, u: Vec3, v: Vec3)
    requires Dot(u, u) == 1.0
    requires p == a * d && q == a * e + b * d - b * f - c * e && r == a * f + b * e + c * d - c * f
    ensures Turn(a, b, c, u, Turn(d, e, f, u, v)) == Turn(p, q, r, u, v)
  {
    var k := Cross(u, v);
    var kk := Cross(u, k);
    CrossIsPerpendicular(u, v);
    DoubleCross(u, k);
    hide Cross, Comb, Minus, Dot;
    CrossLinear(u, d, v, e, k, f, kk);
    CrossLinear(u, d, k, e, kk, f, Minus(k));
    CrossMinus(u, k);
    TurnSum(a, b, c, d, e, f, p, q, r, v, k, kk);
  }

  lemma TurnSum(a: real, b: real, c: real, d: real, e: real, f: real, p: real, q: real, r: real, v: Vec3, k: Vec3, kk: Vec3)
    requires p == a * d && q == a * e + b * d - b * f - c * e && r == a * f + b * e + c * d - c * f
    ensures Comb(a, Comb(d, v, e, k, f, kk), b, Comb(d, k, e, kk, f, Minus(k)), c, Comb(d, kk, e, Minus(k), f, Minus(kk)))
         == Comb(p, v, q, k, r, kk)
  {
    var l, m, n := Comb(d, v, e, k, f, kk), Comb(d, k, e, kk, f, Minus(k)), Comb(d, kk, e, Minus(k), f, Minus(kk));
    TurnSumScalars(a, b, c, d, e, f, p, q, r, v.x, k.x, kk.x, l.x, m.x, n.x);
    TurnSumScalars(a, b, c, d, e, f, p, q, r, v.y, k.y, kk.y, l.y, m.y, n.y);
    TurnSumScalars(a, b, c, d, e, f, p, q, r, v.z, k.z, kk.z, l.z, m.z, n.z);
  }

  lemma TurnSumScalars(a: real, b: real, c: real, d: real, e: real, f: real, p: real, q: real, r: real,
                       v: real, k: real, kk: real, l: real, m: real, n: real)
    requires p == a * d && q == a * e + b * d - b * f - c * e && r == a * f + b * e + c * d - c * f
    requires l == d * v + e * k + f * kk && m == d * k + e * kk + f * -k && n == d * kk + e * -k + f * -kk
    ensures a * l + b * m + c * n == p * v + q * k + r * kk
  {
    Distribute(a, d, e, f, v, k, kk, l, a * d, a * e, a * f);
    Distribute(b, d, e, f, k, kk, -k, m, b * d, b * e, b * f);
    Distribute(c, d, e, f, kk, -k, -kk, n, c * d, c * e, c * f);
    Collect(k, q, a * e, b * d, b * f, c * e);
    Collect(kk, r, a * f, b * e, c * f, -(c * d));
  }

  lemma Distribute(a: real, d: real, e: real, f: real, v: real, k: real, kk: real, l: real, ad: real, ae: real, af: real)
    requires ad == a * d && ae == a * e && af == a * f && l == d * v + e * k + f * kk
    ensures a * l == ad * v + ae * k + af * kk
  {
  }

  lemma Collect(k: real, q: real, s: real, t: real, u: real, w: real)
    requires q == s + t - u - w
    ensures q * k == s * k + t * k - u * k - w * k
  {
  }

  // ---------------------------------------------------------------------------------------------
  // Norms
  // ---------------------------------------------------------------------------------------------

  lemma RootOfOne(r: real)
    requires r >= 0.0 && r * r == 1.0
    ensures r == 1.0
  {
    if r > 1.0 {
      PositiveProduct(r - 1.0, r + 1.0, r * r - 1.0);
    } else if r < 1.0 {
      PositiveProduct(1.0 - r, r + 1.0, 1.0 - r * r);
    }
  }

  lemma RootOf(lib: Library, a: real, r: real)
    requires lib.Valid() && r >= 0.0 && r * r == a
    ensures lib.sqrt(a) == r
  {
    SquareIsZero(r, r * r);
    assert lib.RootLaw(a);
    var s := lib.sqrt(a);
    if s < r {
      PositiveProduct(r - s, r + s, r * r - s * s);
    } else if s > r {
      PositiveProduct(s - r, s + r, s * s - r * r);
    }
  }

  /** The source's unit axis is a unit vector, and taking its norm again changes nothing. */
  lemma UnitAxis(lib: Library, w: Vec3)
    requires lib.Valid() && Norm(lib, w) >= AXIS_EPSILON
    ensures var u := Over(w, Norm(lib, w)); Dot(u, u) == 1.0 && Norm(lib, u) == 1.0 && Over(u, 1.0) == u
  {
    var n := Norm(lib, w);
    SelfDot(w);
    assert lib.RootLaw(Dot(w, w)) && lib.RootLaw(1.0);
    assert n * n == Dot(w, w);
    DividedUnit(w, n);
    RootOfOne(lib.sqrt(1.0));
  }

  lemma SelfDot(w: Vec3)
    ensures Dot(w, w) >= 0.0
  {
    SquareIsZero(w.x, w.x * w.x);
    SquareIsZero(w.y, w.y * w.y);
    SquareIsZero(w.z, w.z * w.z);
  }

  lemma DividedUnit(w: Vec3, n: real)
    requires n != 0.0 && n * n == Dot(w, w)
    ensures Dot(Over(w, n), Over(w, n)) == 1.0
  {
    var u := Over(w, n);
    assert w.x == u.x * n && w.y == u.y * n && w.z == u.z * n;
    DividedScalars(u.x, u.y, u.z, w.x, w.y, w.z, n, Dot(u, u));
  }

  lemma DividedScalars(x: real, y: real, z: real, a: real, b: real, c: real, n: real, d: real)
    requires n != 0.0 && a == x * n && b == y * n && c == z * n && d == x * x + y * y + z * z
    requires n * n == a * a + b * b + c * c
    ensures d == 1.0
  {
    var nn, xx, yy, zz := n * n, x * x, y * y, z * z;
    SquareOfProduct(x, n, a, xx, nn);
    SquareOfProduct(y, n, b, yy, nn);
    SquareOfProduct(z, n, c, zz, nn);
    SquareIsZero(n, nn);
    SumOfProducts(xx, yy, zz, nn, d * nn);
    FactorIsOne(d, nn, d * nn);
  }

  lemma SumOfProducts(a: real, b: real, c: real, n: real, t: real)
    requires t == (a + b + c) * n
    ensures t == a * n + b * n + c * n
  {
  }

  lemma FactorIsOne(d: real, n: real, t: real)
    requires n > 0.0 && t == d * n && t == n
    ensures d == 1.0
  {
    if d > 1.0 {
      PositiveProduct(d - 1.0, n, t - n);
    } else if d < 1.0 {
      PositiveProduct(1.0 - d, n, n - t);
    }
  }

  lemma SquareOfProduct(x: real, n: real, a: real, xx: real, nn: real)
    requires a == x * n && xx == x * x && nn == n * n
    ensures a * a == xx * nn
  {
  }
}
