/**
 The rotation logarithm (math3d.py, rotation_log_vector): where it inverts Rodrigues' formula and where
 it does not. The inverse cosine is known by its laws.
 */
module RotationLog {
  import opened Prelude
  import opened Geometry
  import opened Twists
  import opened TwistTheorems

  const SMALL_ANGLE := 0.000000001
  const NEAR_HALF_TURN := 0.000001
  const SHORT_AXIS := 0.000000001

  /** The library with its inverse cosine. */
  datatype Arc = Arc(lib: Library, acos: real -> real)
  {
    predicate RangeLaw(x: real) {
      -1.0 <= x <= 1.0 ==> 0.0 <= acos(x) <= lib.pi && lib.cos(acos(x)) == x
    }

    predicate HalfTurnLaw(a: real) {
      && (0.0 <= a <= lib.pi ==> acos(lib.cos(a)) == a)
      && (0.0 < a < lib.pi ==> lib.sin(a) > 0.0)
    }

    ghost predicate Valid() {
      && lib.Valid() && lib.pi > 3.0 && lib.cos(lib.pi) == -1.0 && lib.sin(lib.pi) == 0.0
      && (forall x: real :: RangeLaw(x))
      && (forall a: real :: HalfTurnLaw(a))
    }
  }

  function Trace(m: Mat3): real {
    m.r0.x + m.r1.y + m.r2.z
  }

  /** Twice the sine of the angle times the axis. */
  function Differences(m: Mat3): Vec3 {
    Vec3(m.r2.y - m.r1.z, m.r0.z - m.r2.x, m.r1.x - m.r0.y)
  }

  function AngleOf(arc: Arc, m: Mat3): (angle: real)
    requires arc.Valid()
    ensures 0.0 <= angle <= arc.lib.pi
  {
    var cosine := Max(-1.0, Min(1.0, (Trace(m) - 1.0) * 0.5));
    assert arc.RangeLaw(cosine);
    arc.acos(cosine)
  }

  /** The magnitude of a with the sign of b, where zero counts as positive. */
  function CopySign(a: real, b: real): real {
    if b >= 0.0 then Abs(a) else -Abs(a)
  }

  function AxisEntry(lib: Library, diagonal: real, difference: real): real {
    CopySign(lib.sqrt(Max((diagonal + 1.0) * 0.5, 0.0)), difference)
  }

  /** The axis of a rotation by nearly half a turn, read off the diagonal. */
  function HalfTurnAxis(lib: Library, m: Mat3): Vec3 {
    var d := Differences(m);
    Vec3(AxisEntry(lib, m.r0.x, d.x), AxisEntry(lib, m.r1.y, d.y), AxisEntry(lib, m.r2.z, d.z))
  }

  function Normalized(lib: Library, v: Vec3): Vec3 {
    var norm := Norm(lib, v);
    if norm < SHORT_AXIS then E0 else Over(v, norm)
  }

  function Log(arc: Arc, m: Mat3): Vec3
    requires arc.Valid()
  {
    var angle := AngleOf(arc, m);
    if angle < SMALL_ANGLE then ORIGIN
    else if arc.lib.pi - angle < NEAR_HALF_TURN then Times(angle, Normalized(arc.lib, HalfTurnAxis(arc.lib, m)))
    else
      assert arc.HalfTurnLaw(angle);
      Times(angle, Over(Differences(m), 2.0 * arc.lib.sin(angle)))
  }

  // ---------------------------------------------------------------------------------------------
  // Entries of Rodrigues' formula
  // ---------------------------------------------------------------------------------------------

  lemma UnitRodrigues(lib: Library, u: Vec3, angle: real)
    requires lib.Valid() && UnitVector(lib, u)
    ensures RotationExp(lib, u, angle) == SkewPolynomial(1.0, lib.sin(angle), 1.0 - lib.cos(angle), u)
  {
    assert Over(u, 1.0) == u;
  }

  lemma SkewSquare(u: Vec3, xx: real, yy: real, zz: real, xy: real, yz: real, zx: real)
    requires xx == u.x * u.x && yy == u.y * u.y && zz == u.z * u.z && xy == u.x * u.y && yz == u.y * u.z && zx == u.z * u.x
    ensures Mul(Skew(u), Skew(u))
         == Mat3(Vec3(-(yy + zz), xy, zx), Vec3(xy, -(zz + xx), yz), Vec3(zx, yz, -(xx + yy)))
  {
  }

  lemma PolynomialEntries(s: real, v: real, u: Vec3, xx: real, yy: real, zz: real, xy: real, yz: real, zx: real)
    requires xx == u.x * u.x && yy == u.y * u.y && zz == u.z * u.z && xy == u.x * u.y && yz == u.y * u.z && zx == u.z * u.x
    ensures SkewPolynomial(1.0, s, v, u)
         == Mat3(Vec3(1.0 - v * (yy + zz), v * xy - s * u.z, v * zx + s * u.y),
                 Vec3(v * xy + s * u.z, 1.0 - v * (zz + xx), v * yz - s * u.x),
                 Vec3(v * zx - s * u.y, v * yz + s * u.x, 1.0 - v * (xx + yy)))
  {
    SkewSquare(u, xx, yy, zz, xy, yz, zx);
    hide Mul;
  }

  lemma RodriguesDifferences(s: real, v: real, u: Vec3)
    ensures Differences(SkewPolynomial(1.0, s, v, u)) == Times(2.0 * s, u)
  {
    PolynomialEntries(s, v, u, u.x * u.x, u.y * u.y, u.z * u.z, u.x * u.y, u.y * u.z, u.z * u.x);
    hide SkewPolynomial;
  }

  lemma RodriguesDiagonal(s: real, v: real, u: Vec3)
    requires Dot(u, u) == 1.0
    ensures var m := SkewPolynomial(1.0, s, v, u);
      m.r0.x == 1.0 - v + v * (u.x * u.x) && m.r1.y == 1.0 - v + v * (u.y * u.y) && m.r2.z == 1.0 - v + v * (u.z * u.z)
  {
    var xx, yy, zz := u.x * u.x, u.y * u.y, u.z * u.z;
    PolynomialEntries(s, v, u, xx, yy, zz, u.x * u.y, u.y * u.z, u.z * u.x);
    hide SkewPolynomial;
    DiagonalScalars(v, xx, yy, zz);
    DiagonalScalars(v, yy, zz, xx);
    DiagonalScalars(v, zz, xx, yy);
  }

  lemma DiagonalScalars(v: real, a: real, b: real, c: real)
    requires a + b + c == 1.0
    ensures 1.0 - v * (b + c) == 1.0 - v + v * a
  {
    assert b + c == 1.0 - a;
  }

  lemma CosineIsBounded(c: real, s: real)
    requires s * s + c * c == 1.0
    ensures -1.0 <= c <= 1.0
  {
    SquareIsZero(s, s * s);
    if c > 1.0 {
      PositiveProduct(c - 1.0, c + 1.0, c * c - 1.0);
    } else if c < -1.0 {
      PositiveProduct(-1.0 - c, 1.0 - c, c * c - 1.0);
    }
  }

  lemma TraceScalars(v: real, a: real, b: real, c: real)
    requires a + b + c == 1.0
    ensures (1.0 - v + v * a) + (1.0 - v + v * b) + (1.0 - v + v * c) == 3.0 - 2.0 * v
  {
    assert v * a + v * b + v * c == v * (a + b + c);
  }

  /** The angle that the logarithm finds is the angle of the rotation. */
  lemma AngleIsFound(arc: Arc, u: Vec3, angle: real)
    requires arc.Valid() && UnitVector(arc.lib, u) && 0.0 <= angle <= arc.lib.pi
    ensures AngleOf(arc, RotationExp(arc.lib, u, angle)) == angle
  {
    var c, s := arc.lib.cos(angle), arc.lib.sin(angle);
    UnitRodrigues(arc.lib, u, angle);
    RodriguesDiagonal(s, 1.0 - c, u);
    TraceScalars(1.0 - c, u.x * u.x, u.y * u.y, u.z * u.z);
    Pythagoras(arc.lib, angle);
    CosineIsBounded(c, s);
    assert arc.HalfTurnLaw(angle);
    hide RotationExp, SkewPolynomial;
    assert (Trace(RotationExp(arc.lib, u, angle)) - 1.0) * 0.5 == c;
  }

  lemma TimesOver(t: real, u: Vec3)
    requires t != 0.0
    ensures Over(Times(t, u), t) == u
  {
  }

  // ---------------------------------------------------------------------------------------------
  // Away from half a turn
  // ---------------------------------------------------------------------------------------------

  /** For every unit axis and every angle from 1e-9 to pi - 1e-6 the logarithm of the rotation is the
      angle times the axis. */
  lemma LogInverts(arc: Arc, u: Vec3, angle: real)
    requires arc.Valid() && UnitVector(arc.lib, u) && SMALL_ANGLE <= angle <= arc.lib.pi - NEAR_HALF_TURN
    ensures Log(arc, RotationExp(arc.lib, u, angle)) == Times(angle, u)
  {
    var s := arc.lib.sin(angle);
    AngleIsFound(arc, u, angle);
    UnitRodrigues(arc.lib, u, angle);
    RodriguesDifferences(s, 1.0 - arc.lib.cos(angle), u);
    assert arc.HalfTurnLaw(angle);
    hide RotationExp, SkewPolynomial, Differences, AngleOf, Over, Times;
    TimesOver(2.0 * s, u);
  }

  /** A smaller angle counts as no rotation. */
  lemma SmallAngleIsDropped(arc: Arc, u: Vec3, angle: real)
    requires arc.Valid() && UnitVector(arc.lib, u) && 0.0 <= angle < SMALL_ANGLE
    ensures Log(arc, RotationExp(arc.lib, u, angle)) == ORIGIN
  {
    AngleIsFound(arc, u, angle);
    hide RotationExp, AngleOf;
  }

  // ---------------------------------------------------------------------------------------------
  // Half a turn
  // ---------------------------------------------------------------------------------------------

  function Absolute(u: Vec3): Vec3 {
    Vec3(Abs(u.x), Abs(u.y), Abs(u.z))
  }

  /** No two components have opposite signs. */
  predicate SameSigns(u: Vec3) {
    u.x * u.y >= 0.0 && u.y * u.z >= 0.0 && u.z * u.x >= 0.0
  }

  lemma RootOfSquare(lib: Library, x: real)
    requires lib.Valid()
    ensures lib.sqrt(Max(x * x, 0.0)) == Abs(x)
  {
    SquareIsZero(x, x * x);
    RootOf(lib, x * x, Abs(x));
  }

  lemma HalfTurnEntry(lib: Library, x: real, xx: real, diagonal: real)
    requires lib.Valid() && xx == x * x && diagonal == -1.0 + 2.0 * xx
    ensures AxisEntry(lib, diagonal, 0.0) == Abs(x)
  {
    RootOfSquare(lib, x);
  }

  lemma AbsoluteIsUnit(lib: Library, u: Vec3)
    requires UnitVector(lib, u)
    ensures UnitVector(lib, Absolute(u))
  {
    assert Abs(u.x) * Abs(u.x) == u.x * u.x && Abs(u.y) * Abs(u.y) == u.y * u.y && Abs(u.z) * Abs(u.z) == u.z * u.z;
    assert Dot(Absolute(u), Absolute(u)) == Dot(u, u);
  }

  /** The rotation by half a turn about an axis with these squares and products: twice the products of
      the axis with itself, less the identity. */
  function HalfTurn(xx: real, yy: real, zz: real, xy: real, yz: real, zx: real): Mat3 {
    Mat3(Vec3(-1.0 + 2.0 * xx, 2.0 * xy, 2.0 * zx),
         Vec3(2.0 * xy, -1.0 + 2.0 * yy, 2.0 * yz),
         Vec3(2.0 * zx, 2.0 * yz, -1.0 + 2.0 * zz))
  }

  lemma HalfTurnEntries(lib: Library, u: Vec3)
    requires lib.Valid() && UnitVector(lib, u) && lib.cos(lib.pi) == -1.0 && lib.sin(lib.pi) == 0.0
    ensures RotationExp(lib, u, lib.pi) == HalfTurn(u.x * u.x, u.y * u.y, u.z * u.z, u.x * u.y, u.y * u.z, u.z * u.x)
  {
    UnitRodrigues(lib, u, lib.pi);
    PolynomialEntries(0.0, 2.0, u, u.x * u.x, u.y * u.y, u.z * u.z, u.x * u.y, u.y * u.z, u.z * u.x);
    hide RotationExp, SkewPolynomial;
  }

  lemma SameHalfTurn(a: real, b: real, c: real, d: real, e: real, f: real, p: real, q: real, r: real, s: real, t: real, v: real)
    ensures HalfTurn(a, b, c, d, e, f) == HalfTurn(p, q, r, s, t, v)
      <==> a == p && b == q && c == r && d == s && e == t && f == v
  {
  }

  /** At half a turn all three differences are zero, and with them the signs of the axis are lost. */
  lemma LogOfHalfTurn(arc: Arc, u: Vec3)
    requires arc.Valid() && UnitVector(arc.lib, u)
    ensures Log(arc, RotationExp(arc.lib, u, arc.lib.pi)) == Times(arc.lib.pi, Absolute(u))
  {
    var lib, m := arc.lib, RotationExp(arc.lib, u, arc.lib.pi);
    AngleIsFound(arc, u, lib.pi);
    HalfTurnAxisIsFound(lib, u);
    AbsoluteIsUnit(lib, u);
    assert Over(Absolute(u), 1.0) == Absolute(u);
    hide RotationExp, AngleOf, HalfTurnAxis, Dot, Absolute, Over, Times, Library.Valid;
  }

  lemma HalfTurnAxisIsFound(lib: Library, u: Vec3)
    requires lib.Valid() && UnitVector(lib, u) && lib.cos(lib.pi) == -1.0 && lib.sin(lib.pi) == 0.0
    ensures HalfTurnAxis(lib, RotationExp(lib, u, lib.pi)) == Absolute(u)
  {
    var m := RotationExp(lib, u, lib.pi);
    var xx, yy, zz, xy, yz, zx := u.x * u.x, u.y * u.y, u.z * u.z, u.x * u.y, u.y * u.z, u.z * u.x;
    HalfTurnEntries(lib, u);
    hide RotationExp, AxisEntry, UnitVector, Library.Valid;
    HalfTurnEntry(lib, u.x, xx, m.r0.x);
    HalfTurnEntry(lib, u.y, yy, m.r1.y);
    HalfTurnEntry(lib, u.z, zz, m.r2.z);
  }

  /** The axis found at half a turn turns like the true one if and only if no two of its components have
      opposite signs. */
  lemma HalfTurnIsInvertedExactly(arc: Arc, u: Vec3)
    requires arc.Valid() && UnitVector(arc.lib, u)
    ensures RotationExp(arc.lib, Absolute(u), arc.lib.pi) == RotationExp(arc.lib, u, arc.lib.pi) <==> SameSigns(u)
  {
    var lib, w := arc.lib, Absolute(u);
    AbsoluteIsUnit(lib, u);
    HalfTurnEntries(lib, u);
    HalfTurnEntries(lib, w);
    var aa, bb, cc, ab, bc, ca := w.x * w.x, w.y * w.y, w.z * w.z, w.x * w.y, w.y * w.z, w.z * w.x;
    var xx, yy, zz, xy, yz, zx := u.x * u.x, u.y * u.y, u.z * u.z, u.x * u.y, u.y * u.z, u.z * u.x;
    AbsoluteProducts(u, w, aa, bb, cc, ab, bc, ca);
    SameHalfTurn(aa, bb, cc, ab, bc, ca, xx, yy, zz, xy, yz, zx);
    hide RotationExp, UnitVector, Arc.Valid, Library.Valid, HalfTurn, Absolute;
  }

  lemma AbsoluteProducts(u: Vec3, w: Vec3, aa: real, bb: real, cc: real, ab: real, bc: real, ca: real)
    requires w.x == Abs(u.x) && w.y == Abs(u.y) && w.z == Abs(u.z)
    requires aa == w.x * w.x && bb == w.y * w.y && cc == w.z * w.z
    requires ab == w.x * w.y && bc == w.y * w.z && ca == w.z * w.x
    ensures aa == u.x * u.x && bb == u.y * u.y && cc == u.z * u.z
    ensures ab == u.x * u.y <==> u.x * u.y >= 0.0
    ensures bc == u.y * u.z <==> u.y * u.z >= 0.0
    ensures ca == u.z * u.x <==> u.z * u.x >= 0.0
  {
    hide Abs;
    SquareOfMagnitude(u.x, w.x);
    SquareOfMagnitude(u.y, w.y);
    SquareOfMagnitude(u.z, w.z);
    ProductOfMagnitudes(u.x, u.y, u.x * u.y, w.x, w.y, ab);
    ProductOfMagnitudes(u.y, u.z, u.y * u.z, w.y, w.z, bc);
    ProductOfMagnitudes(u.z, u.x, u.z * u.x, w.z, w.x, ca);
  }

  lemma SquareOfMagnitude(x: real, a: real)
    requires a == Abs(x)
    ensures a * a == x * x
  {
  }

  lemma ProductOfMagnitudes(x: real, y: real, p: real, a: real, b: real, q: real)
    requires p == x * y && a == Abs(x) && b == Abs(y) && q == a * b
    ensures q >= 0.0 && (q == p <==> p >= 0.0)
  {
    if x == 0.0 || y == 0.0 {
      assert p == 0.0 && q == 0.0;
    } else {
      PositiveProduct(a, b, q);
      assert q == p || q == -p;
    }
  }

  // ---------------------------------------------------------------------------------------------
  // Just below half a turn
  // ---------------------------------------------------------------------------------------------

  predicate NearFact(c: real, x: real, xx: real, n: real, w: real, ww: real)
    requires n != 0.0
  {
    ww == (1.0 + c) * 0.5 + (1.0 - c) * 0.5 * xx && (w / n == x <==> 3.0 * xx == 1.0)
  }

  /** One entry of the axis found just below half a turn, against the true one. */
  lemma NearEntry(lib: Library, c: real, s: real, x: real, xx: real, diagonal: real, n: real, nn: real, w: real, ww: real, diff: real)
    requires lib.Valid() && s > 0.0 && -1.0 < c <= 1.0 && n > 0.0 && nn == n * n && nn == 2.0 + c
    requires xx == x * x && diagonal == c + (1.0 - c) * xx
    requires diff == (2.0 * s) * x && w == AxisEntry(lib, diagonal, diff) && ww == w * w
    ensures NearFact(c, x, xx, n, w, ww)
  {
    hide AxisEntry, Library.Valid;
    var square, p := (diagonal + 1.0) * 0.5, xx * nn;
    SquareIsZero(x, xx);
    NonnegativeProduct(1.0 - c, xx, (1.0 - c) * xx);
    HalfProduct(c, xx, diagonal, square);
    EntryOfSquare(lib, square, diagonal, s, x, w, ww, diff);
    NearScalars(c, xx, square, p);
    RatioIsRoot(w, n, x, xx, square, nn, p);
  }

  lemma HalfProduct(c: real, xx: real, diagonal: real, square: real)
    requires diagonal == c + (1.0 - c) * xx && square == (diagonal + 1.0) * 0.5 && (1.0 - c) * xx >= 0.0 && c > -1.0
    ensures square == (1.0 + c) * 0.5 + (1.0 - c) * 0.5 * xx && square > 0.0
  {
  }

  lemma EntryOfSquare(lib: Library, square: real, diagonal: real, s: real, x: real, w: real, ww: real, diff: real)
    requires lib.Valid() && square == (diagonal + 1.0) * 0.5 && square > 0.0 && s > 0.0
    requires diff == (2.0 * s) * x && w == AxisEntry(lib, diagonal, diff) && ww == w * w
    ensures ww == square && (if x >= 0.0 then w >= 0.0 else w <= 0.0)
  {
    assert lib.RootLaw(square);
    var root := lib.sqrt(square);
    SignOfProduct(2.0 * s, x, diff);
    SquareOfMagnitude(root, Abs(root));
    assert (-root) * (-root) == root * root;
  }

  lemma SignOfProduct(a: real, x: real, p: real)
    requires a > 0.0 && p == a * x
    ensures p >= 0.0 <==> x >= 0.0
  {
    if x < 0.0 {
      PositiveProduct(a, -x, -p);
    } else {
      NonnegativeProduct(a, x, p);
    }
  }

  /** A quotient with the sign of x is x exactly when the squares agree. */
  lemma RatioIsRoot(w: real, n: real, x: real, xx: real, ww: real, nn: real, p2: real)
    requires n > 0.0 && xx == x * x && ww == w * w && nn == n * n && p2 == xx * nn
    requires if x >= 0.0 then w >= 0.0 else w <= 0.0
    ensures w / n == x <==> ww == p2
  {
    var p := x * n;
    SignOfProduct(n, x, n * x);
    SquareOfProduct(x, n, p, xx, nn);
    assert w / n == x <==> w == p;
    if ww == p * p {
      SameSquare(w, p);
    }
  }

  lemma SameSquare(a: real, b: real)
    requires a * a == b * b && ((a >= 0.0 && b >= 0.0) || (a <= 0.0 && b <= 0.0))
    ensures a == b
  {
    if a != b {
      assert (a - b) * (a + b) == 0.0;
      ZeroFactor(a - b, a + b);
    }
  }

  lemma ZeroFactor(d: real, t: real)
    requires d * t == 0.0 && d != 0.0
    ensures t == 0.0
  {
    assert t == (d * t) / d;
  }

  lemma NearScalars(c: real, xx: real, square: real, p2: real)
    requires -1.0 < c && square == (1.0 + c) * 0.5 + (1.0 - c) * 0.5 * xx && p2 == xx * (2.0 + c)
    ensures square == p2 <==> 3.0 * xx == 1.0
  {
    var d, t := 1.0 + c, 3.0 * xx - 1.0;
    assert xx * (2.0 + c) - square == 0.5 * (d * t);
    if d * t == 0.0 {
      ZeroFactor(d, t);
    }
  }

  /** The axis before normalising: its square is two plus the cosine. */
  lemma NearAxis(c: real, u: Vec3, a: Vec3, n: real, xx: real, yy: real, zz: real, aa: real, bb: real, cc: real)
    requires n != 0.0 && xx + yy + zz == 1.0 && aa == a.x * a.x && bb == a.y * a.y && cc == a.z * a.z
    requires NearFact(c, u.x, xx, n, a.x, aa) && NearFact(c, u.y, yy, n, a.y, bb) && NearFact(c, u.z, zz, n, a.z, cc)
    ensures Dot(a, a) == 2.0 + c
    ensures Over(a, n) == u <==> 3.0 * xx == 1.0 && 3.0 * yy == 1.0 && 3.0 * zz == 1.0
  {
    SumScalars((1.0 - c) * 0.5, xx, yy, zz);
  }

  lemma SumScalars(h: real, xx: real, yy: real, zz: real)
    requires xx + yy + zz == 1.0
    ensures h * xx + h * yy + h * zz == h
  {
    assert h * xx + h * yy + h * zz == h * (xx + yy + zz);
  }

  /** Within 1e-6 below half a turn the axis is read off the diagonal, which is exact if and only if all
      three components have the same magnitude. */
  lemma NearHalfTurnIsApproximate(arc: Arc, u: Vec3, angle: real)
    requires arc.Valid() && UnitVector(arc.lib, u) && arc.lib.pi - NEAR_HALF_TURN < angle < arc.lib.pi
    ensures Log(arc, RotationExp(arc.lib, u, angle)) == Times(angle, u)
      <==> 3.0 * (u.x * u.x) == 1.0 && 3.0 * (u.y * u.y) == 1.0 && 3.0 * (u.z * u.z) == 1.0
  {
    var lib, m := arc.lib, RotationExp(arc.lib, u, angle);
    var c, s, a, n := lib.cos(angle), lib.sin(angle), HalfTurnAxis(lib, m), Norm(lib, HalfTurnAxis(lib, m));
    AngleIsFound(arc, u, angle);
    NearCosine(arc, angle);
    NearNorm(lib, u, angle, c, s, a, n);
    hide RotationExp, AngleOf, HalfTurnAxis, Norm, Arc.Valid, Library.Valid, UnitVector;
    SameMultiple(angle, Over(a, n), u);
  }

  lemma NearCosine(arc: Arc, angle: real)
    requires arc.Valid() && 0.0 < angle < arc.lib.pi
    ensures -1.0 < arc.lib.cos(angle) <= 1.0 && arc.lib.sin(angle) > 0.0
  {
    Pythagoras(arc.lib, angle);
    CosineIsBounded(arc.lib.cos(angle), arc.lib.sin(angle));
    assert arc.HalfTurnLaw(angle) && arc.HalfTurnLaw(arc.lib.pi);
  }

  lemma SameMultiple(t: real, v: Vec3, u: Vec3)
    requires t > 0.0
    ensures Times(t, v) == Times(t, u) <==> v == u
  {
    TimesOver(t, v);
    TimesOver(t, u);
    hide Times, Over;
  }

  lemma NearNorm(lib: Library, u: Vec3, angle: real, c: real, s: real, a: Vec3, n: real)
    requires lib.Valid() && UnitVector(lib, u) && c == lib.cos(angle) && s == lib.sin(angle) && -1.0 < c <= 1.0 && s > 0.0
    requires a == HalfTurnAxis(lib, RotationExp(lib, u, angle)) && n == Norm(lib, a)
    ensures n >= 1.0
    ensures Over(a, n) == u <==> 3.0 * (u.x * u.x) == 1.0 && 3.0 * (u.y * u.y) == 1.0 && 3.0 * (u.z * u.z) == 1.0
  {
    var m, nn, root := RotationExp(lib, u, angle), 2.0 + c, lib.sqrt(2.0 + c);
    var xx, yy, zz := u.x * u.x, u.y * u.y, u.z * u.z;
    UnitRodrigues(lib, u, angle);
    RodriguesDifferences(s, 1.0 - c, u);
    RodriguesDiagonal(s, 1.0 - c, u);
    RootIsAboveOne(lib, nn, root);
    hide RotationExp, SkewPolynomial, AxisEntry, Library.Valid;
    NearEntries(lib, u, c, s, a, root, nn, Vec3(m.r0.x, m.r1.y, m.r2.z), Differences(m), xx, yy, zz);
  }

  lemma NearEntries(lib: Library, u: Vec3, c: real, s: real, a: Vec3, n: real, nn: real, d: Vec3, e: Vec3,
                    xx: real, yy: real, zz: real)
    requires lib.Valid() && -1.0 < c <= 1.0 && s > 0.0 && n > 1.0 && nn == n * n && nn == 2.0 + c
    requires xx == u.x * u.x && yy == u.y * u.y && zz == u.z * u.z && xx + yy + zz == 1.0
    requires d.x == c + (1.0 - c) * xx && d.y == c + (1.0 - c) * yy && d.z == c + (1.0 - c) * zz
    requires e == Times(2.0 * s, u)
    requires a == Vec3(AxisEntry(lib, d.x, e.x), AxisEntry(lib, d.y, e.y), AxisEntry(lib, d.z, e.z))
    ensures Dot(a, a) == nn
    ensures Over(a, n) == u <==> 3.0 * xx == 1.0 && 3.0 * yy == 1.0 && 3.0 * zz == 1.0
  {
    hide AxisEntry, Library.Valid, NearFact, Dot, Over;
    var aa, bb, cc := a.x * a.x, a.y * a.y, a.z * a.z;
    NearEntry(lib, c, s, u.x, xx, d.x, n, nn, a.x, aa, e.x);
    NearEntry(lib, c, s, u.y, yy, d.y, n, nn, a.y, bb, e.y);
    NearEntry(lib, c, s, u.z, zz, d.z, n, nn, a.z, cc, e.z);
    NearAxis(c, u, a, n, xx, yy, zz, aa, bb, cc);
  }

  lemma RootIsAboveOne(lib: Library, nn: real, n: real)
    requires lib.Valid() && nn > 1.0 && n == lib.sqrt(nn)
    ensures n > 1.0 && nn == n * n
  {
    assert lib.RootLaw(nn);
    if n <= 1.0 {
      NonnegativeProduct(n, 1.0 - n, n - nn);
    }
  }
}
