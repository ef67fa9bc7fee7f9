/**
 Which way rotations turn: the matrices, the quaternions and the roll, pitch and yaw of the source agree on
 one right-handed convention (math3d.py, urdf_model.py).
 */
module RotationConventions {
  import opened Prelude
  import opened Geometry
  import opened Twists
  import opened TwistTheorems
  import opened RotationLog
  import opened Quaternions
  import opened UrdfChain

  /** The matrix of a turn with sine s and cosine 1 - v about the axis (x, y, z). */
  function TurnMatrix(s: real, v: real, x: real, y: real, z: real): Mat3 {
    Mat3(Vec3(1.0 - v * (y * y + z * z), v * (x * y) - s * z, v * (z * x) + s * y),
         Vec3(v * (x * y) + s * z, 1.0 - v * (z * z + x * x), v * (y * z) - s * x),
         Vec3(v * (z * x) - s * y, v * (y * z) + s * x, 1.0 - v * (x * x + y * y)))
  }

  lemma TurnEntries(lib: Library, u: Vec3, angle: real, s: real, v: real)
    requires lib.Valid() && UnitVector(lib, u) && s == lib.sin(angle) && v == 1.0 - lib.cos(angle)
    ensures RotationExp(lib, u, angle) == TurnMatrix(s, v, u.x, u.y, u.z)
  {
    UnitRodrigues(lib, u, angle);
    PolynomialTurns(s, v, u);
    hide RotationExp, SkewPolynomial, TurnMatrix;
  }

  lemma PolynomialTurns(s: real, v: real, u: Vec3)
    ensures SkewPolynomial(1.0, s, v, u) == TurnMatrix(s, v, u.x, u.y, u.z)
  {
    var xx, yy, zz, xy, yz, zx := u.x * u.x, u.y * u.y, u.z * u.z, u.x * u.y, u.y * u.z, u.z * u.x;
    PolynomialProducts(s, v, u, xx, yy, zz, xy, yz, zx);
    TurnProducts(s, v, u.x, u.y, u.z, xx, yy, zz, xy, yz, zx);
    hide SkewPolynomial, TurnMatrix, FromProducts;
  }

  /** The same with the products given. */
  function FromProducts(s: real, v: real, x: real, y: real, z: real, xx: real, yy: real, zz: real, xy: real, yz: real, zx: real): Mat3 {
    Mat3(Vec3(1.0 - v * (yy + zz), v * xy - s * z, v * zx + s * y),
         Vec3(v * xy + s * z, 1.0 - v * (zz + xx), v * yz - s * x),
         Vec3(v * zx - s * y, v * yz + s * x, 1.0 - v * (xx + yy)))
  }

  lemma PolynomialProducts(s: real, v: real, u: Vec3, xx: real, yy: real, zz: real, xy: real, yz: real, zx: real)
    requires xx == u.x * u.x && yy == u.y * u.y && zz == u.z * u.z && xy == u.x * u.y && yz == u.y * u.z && zx == u.z * u.x
    ensures SkewPolynomial(1.0, s, v, u) == FromProducts(s, v, u.x, u.y, u.z, xx, yy, zz, xy, yz, zx)
  {
    PolynomialEntries(s, v, u, xx, yy, zz, xy, yz, zx);
    hide SkewPolynomial;
  }

  lemma TurnProducts(s: real, v: real, x: real, y: real, z: real, xx: real, yy: real, zz: real, xy: real, yz: real, zx: real)
    requires xx == x * x && yy == y * y && zz == z * z && xy == x * y && yz == y * z && zx == z * x
    ensures TurnMatrix(s, v, x, y, z) == FromProducts(s, v, x, y, z, xx, yy, zz, xy, yz, zx)
  {
  }

  lemma AxesAreUnit(lib: Library)
    requires lib.Valid()
    ensures UnitVector(lib, E0) && UnitVector(lib, E1) && UnitVector(lib, E2)
  {
    assert lib.RootLaw(1.0);
    RootOf(lib, 1.0, 1.0);
  }

  /** A turn about z takes x towards y, one about x takes y towards z, and one about y takes z towards x. */
  lemma TurnsAreRightHanded(lib: Library, angle: real)
    requires lib.Valid()
    ensures Apply(RotationExp(lib, E2, angle), E0) == Vec3(lib.cos(angle), lib.sin(angle), 0.0)
    ensures Apply(RotationExp(lib, E0, angle), E1) == Vec3(0.0, lib.cos(angle), lib.sin(angle))
    ensures Apply(RotationExp(lib, E1, angle), E2) == Vec3(lib.sin(angle), 0.0, lib.cos(angle))
  {
    AxesAreUnit(lib);
    RotationTurns(lib, E2, angle, E0);
    RotationTurns(lib, E0, angle, E1);
    RotationTurns(lib, E1, angle, E2);
    hide RotationExp, Apply, Library.Valid;
  }

  lemma AxisTurns(lib: Library, angle: real)
    requires lib.Valid()
    ensures RotationX(lib, angle) == RotationExp(lib, E0, angle)
    ensures RotationY(lib, angle) == RotationExp(lib, E1, angle)
    ensures RotationZ(lib, angle) == RotationExp(lib, E2, angle)
  {
    AxesAreUnit(lib);
    var s, v := lib.sin(angle), 1.0 - lib.cos(angle);
    TurnEntries(lib, E0, angle, s, v);
    TurnEntries(lib, E1, angle, s, v);
    TurnEntries(lib, E2, angle, s, v);
    hide RotationExp, Library.Valid, UnitVector;
  }

  /** Roll, pitch and yaw are turns about the fixed axes x, y and z, in this order. */
  lemma RpyIsThreeTurns(lib: Library, rpy: Vec3, v: Vec3)
    requires lib.Valid()
    ensures Apply(RpyToMatrix(lib, rpy), v)
         == Apply(RotationExp(lib, E2, rpy.z), Apply(RotationExp(lib, E1, rpy.y), Apply(RotationExp(lib, E0, rpy.x), v)))
  {
    AxisTurns(lib, rpy.x);
    AxisTurns(lib, rpy.y);
    AxisTurns(lib, rpy.z);
    var x, y, z := RotationX(lib, rpy.x), RotationY(lib, rpy.y), RotationZ(lib, rpy.z);
    hide RotationExp, Mul, Apply, RotationX, RotationY, RotationZ;
    ApplyMul(Mul(z, y), x, v);
    ApplyMul(z, y, Apply(x, v));
  }

  /** The quaternion (u sin(a / 2), cos(a / 2)) gives the turn by a about the unit axis u. */
  lemma QuaternionTurns(lib: Library, u: Vec3, half: real, q: Quaternion)
    requires lib.Valid() && UnitVector(lib, u)
    requires q == Quaternion(lib.sin(half) * u.x, lib.sin(half) * u.y, lib.sin(half) * u.z, lib.cos(half))
    ensures UnitToMatrix(q) == RotationExp(lib, u, half + half)
  {
    var s, c := lib.sin(half), lib.cos(half);
    DoubleAngle(lib, half, s, c);
    HalfTurned(lib, u, half + half, q, s, c, 2.0 * (s * s), 2.0 * (s * c));
  }

  lemma HalfTurned(lib: Library, u: Vec3, angle: real, q: Quaternion, s: real, c: real, v: real, t: real)
    requires lib.Valid() && UnitVector(lib, u) && v == 2.0 * (s * s) && t == 2.0 * (s * c)
    requires lib.sin(angle) == t && lib.cos(angle) == 1.0 - v
    requires q == Quaternion(s * u.x, s * u.y, s * u.z, c)
    ensures UnitToMatrix(q) == RotationExp(lib, u, angle)
  {
    TurnEntries(lib, u, angle, t, v);
    SameTurn(q, s, c, u.x, u.y, u.z, v, t);
    hide UnitToMatrix, TurnMatrix, RotationExp;
  }

  lemma DoubleAngle(lib: Library, half: real, s: real, c: real)
    requires lib.Valid() && s == lib.sin(half) && c == lib.cos(half)
    ensures lib.sin(half + half) == 2.0 * (s * c) && lib.cos(half + half) == 1.0 - 2.0 * (s * s)
  {
    assert lib.SumLaw(half, half) && lib.CircleLaw(half);
  }

  lemma OnDiagonal(a: real, b: real, s: real, x: real, y: real, v: real)
    requires a == s * x && b == s * y && v == 2.0 * (s * s)
    ensures 1.0 - 2.0 * (a * a + b * b) == 1.0 - v * (x * x + y * y)
  {
    assert a * a + b * b == s * s * (x * x + y * y);
  }

  lemma OffDiagonal(a: real, b: real, d: real, s: real, c: real, x: real, y: real, z: real, v: real, t: real)
    requires a == s * x && b == s * y && d == s * z && v == 2.0 * (s * s) && t == 2.0 * (s * c)
    ensures 2.0 * (a * b - d * c) == v * (x * y) - t * z && 2.0 * (a * b + d * c) == v * (x * y) + t * z
  {
    assert a * b == s * s * (x * y);
    assert d * c == s * c * z;
  }

  lemma SameTurn(q: Quaternion, s: real, c: real, x: real, y: real, z: real, v: real, t: real)
    requires q == Quaternion(s * x, s * y, s * z, c) && v == 2.0 * (s * s) && t == 2.0 * (s * c)
    ensures UnitToMatrix(q) == TurnMatrix(t, v, x, y, z)
  {
    OnDiagonal(q.y, q.z, s, y, z, v);
    OnDiagonal(q.x, q.z, s, x, z, v);
    OnDiagonal(q.x, q.y, s, x, y, v);
    OffDiagonal(q.x, q.y, q.z, s, c, x, y, z, v, t);
    OffDiagonal(q.x, q.z, q.y, s, c, x, z, y, v, t);
    OffDiagonal(q.y, q.z, q.x, s, c, y, z, x, v, t);
    SwappedProducts(v, x, y, z);
  }

  lemma SwappedProducts(v: real, x: real, y: real, z: real)
    ensures v * (x * z) == v * (z * x) && v * (x * x + z * z) == v * (z * z + x * x)
  {
  }
}
