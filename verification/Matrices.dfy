/** Homogeneous 4x4 matrices, as inspect_model.py multiplies them and models.py checks them. */
module Matrices {
  import opened Geometry

  datatype Row4 = Row4(a: real, b: real, c: real, d: real)

  datatype Matrix4 = Matrix4(r0: Row4, r1: Row4, r2: Row4, r3: Row4)

  const IDENTITY_MATRIX := Matrix4(Row4(1.0, 0.0, 0.0, 0.0), Row4(0.0, 1.0, 0.0, 0.0),
                                   Row4(0.0, 0.0, 1.0, 0.0), Row4(0.0, 0.0, 0.0, 1.0))

  function MultiplyRow(l: Row4, m: Matrix4): Row4 {
    Row4(l.a * m.r0.a + l.b * m.r1.a + l.c * m.r2.a + l.d * m.r3.a,
         l.a * m.r0.b + l.b * m.r1.b + l.c * m.r2.b + l.d * m.r3.b,
         l.a * m.r0.c + l.b * m.r1.c + l.c * m.r2.c + l.d * m.r3.c,
         l.a * m.r0.d + l.b * m.r1.d + l.c * m.r2.d + l.d * m.r3.d)
  }

  /** The general product: sums over four indices. */
  function Multiply(l: Matrix4, r: Matrix4): Matrix4 {
    Matrix4(MultiplyRow(l.r0, r), MultiplyRow(l.r1, r), MultiplyRow(l.r2, r), MultiplyRow(l.r3, r))
  }

  function WithLast(r: Vec3, last: real): Row4 {
    Row4(r.x, r.y, r.z, last)
  }

  /** The homogeneous matrix of a transform. */
  function Homogeneous(t: Pose): Matrix4 {
    Matrix4(WithLast(t.rotation.r0, t.translation.x), WithLast(t.rotation.r1, t.translation.y),
            WithLast(t.rotation.r2, t.translation.z), Row4(0.0, 0.0, 0.0, 1.0))
  }

  lemma RowTimesHomogeneous(r: Vec3, last: real, b: Pose)
    ensures MultiplyRow(WithLast(r, last), Homogeneous(b))
         == WithLast(Comb(r.x, b.rotation.r0, r.y, b.rotation.r1, r.z, b.rotation.r2), Dot(r, b.translation) + last)
  {
  }

  lemma BottomTimesHomogeneous(b: Pose)
    ensures MultiplyRow(Row4(0.0, 0.0, 0.0, 1.0), Homogeneous(b)) == Row4(0.0, 0.0, 0.0, 1.0)
  {
  }

  /** The four-index product of homogeneous matrices is composition of transforms. */
  lemma MultiplyIsCompose(a: Pose, b: Pose)
    ensures Multiply(Homogeneous(a), Homogeneous(b)) == Homogeneous(Compose(a, b))
    ensures IDENTITY_MATRIX == Homogeneous(IDENTITY)
  {
    RowTimesHomogeneous(a.rotation.r0, a.translation.x, b);
    RowTimesHomogeneous(a.rotation.r1, a.translation.y, b);
    RowTimesHomogeneous(a.rotation.r2, a.translation.z, b);
    BottomTimesHomogeneous(b);
    hide MultiplyRow, Comb, Dot;
  }

  // ---------------------------------------------------------------------------------------------
  // The guard on SE(3)
  // ---------------------------------------------------------------------------------------------

  predicate Close(a: real, b: real, tolerance: real) {
    -tolerance <= a - b <= tolerance
  }

  function RotationBlock(m: Matrix4): Mat3 {
    Mat3(Vec3(m.r0.a, m.r0.b, m.r0.c), Vec3(m.r1.a, m.r1.b, m.r1.c), Vec3(m.r2.a, m.r2.b, m.r2.c))
  }

  const BOTTOM_TOLERANCE := 0.000000000001
  const ROTATION_TOLERANCE := 0.000000001

  /** The guard of RigidTransform.from_matrix: the bottom row, orthonormal columns, determinant one. */
  predicate GuardAccepts(m: Matrix4) {
    var r := RotationBlock(m);
    var (a, b, c) := (Column0(r), Column1(r), Column2(r));
    && Close(m.r3.a, 0.0, BOTTOM_TOLERANCE) && Close(m.r3.b, 0.0, BOTTOM_TOLERANCE)
    && Close(m.r3.c, 0.0, BOTTOM_TOLERANCE) && Close(m.r3.d, 1.0, BOTTOM_TOLERANCE)
    && Close(Dot(a, a), 1.0, ROTATION_TOLERANCE) && Close(Dot(b, b), 1.0, ROTATION_TOLERANCE)
    && Close(Dot(c, c), 1.0, ROTATION_TOLERANCE) && Close(Dot(a, b), 0.0, ROTATION_TOLERANCE)
    && Close(Dot(b, c), 0.0, ROTATION_TOLERANCE) && Close(Dot(c, a), 0.0, ROTATION_TOLERANCE)
    && Close(Det(r), 1.0, ROTATION_TOLERANCE)
  }

  /** A rigid transform passes the guard exactly, so the guard never rejects one. */
  lemma RotationsPassTheGuard(t: Pose)
    requires IsRotation(t.rotation)
    ensures GuardAccepts(Homogeneous(t))
  {
    assert RotationBlock(Homogeneous(t)) == t.rotation;
    hide Dot, Det, RotationBlock;
  }
}
