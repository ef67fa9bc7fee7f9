/**
 Three-vectors, 3x3 matrices and rigid transforms over the reals: the linear algebra under math3d.py.
 A matrix is given by its rows, as the source lays it out.
 */
module Geometry {
  import opened Prelude

  datatype Vec3 = Vec3(x: real, y: real, z: real)

  const ORIGIN := Vec3(0.0, 0.0, 0.0)
  const E0 := Vec3(1.0, 0.0, 0.0)
  const E1 := Vec3(0.0, 1.0, 0.0)
  const E2 := Vec3(0.0, 0.0, 1.0)

  function Dot(u: Vec3, v: Vec3): real {
    u.x * v.x + u.y * v.y + u.z * v.z
  }

  function Cross(u: Vec3, v: Vec3): Vec3 {
    Vec3(u.y * v.z - u.z * v.y, u.z * v.x - u.x * v.z, u.x * v.y - u.y * v.x)
  }

  function Plus(u: Vec3, v: Vec3): Vec3 {
    Vec3(u.x + v.x, u.y + v.y, u.z + v.z)
  }

  function Less(u: Vec3, v: Vec3): Vec3 {
    Vec3(u.x - v.x, u.y - v.y, u.z - v.z)
  }

  function Times(a: real, v: Vec3): Vec3 {
    Vec3(a * v.x, a * v.y, a * v.z)
  }

  /** The combination a u + b v + c w. */
  function Comb(a: real, u: Vec3, b: real, v: Vec3, c: real, w: Vec3): Vec3 {
    Vec3(a * u.x + b * v.x + c * w.x, a * u.y + b * v.y + c * w.y, a * u.z + b * v.z + c * w.z)
  }

  datatype Mat3 = Mat3(r0: Vec3, r1: Vec3, r2: Vec3)

  const IDENTITY3 := Mat3(E0, E1, E2)

  function Apply(m: Mat3, v: Vec3): Vec3 {
    Vec3(Dot(m.r0, v), Dot(m.r1, v), Dot(m.r2, v))
  }

  function Mul(m: Mat3, n: Mat3): Mat3 {
    Mat3(Comb(m.r0.x, n.r0, m.r0.y, n.r1, m.r0.z, n.r2),
         Comb(m.r1.x, n.r0, m.r1.y, n.r1, m.r1.z, n.r2),
         Comb(m.r2.x, n.r0, m.r2.y, n.r1, m.r2.z, n.r2))
  }

  /** The matrix a I + b m + c n. */
  function MatComb(a: real, b: real, m: Mat3, c: real, n: Mat3): Mat3 {
    Mat3(Comb(a, E0, b, m.r0, c, n.r0), Comb(a, E1, b, m.r1, c, n.r1), Comb(a, E2, b, m.r2, c, n.r2))
  }

  function Column0(m: Mat3): Vec3 { Vec3(m.r0.x, m.r1.x, m.r2.x) }

  function Column1(m: Mat3): Vec3 { Vec3(m.r0.y, m.r1.y, m.r2.y) }

  function Column2(m: Mat3): Vec3 { Vec3(m.r0.z, m.r1.z, m.r2.z) }

  function Det9(a: real, b: real, c: real, d: real, e: real, f: real, g: real, h: real, i: real): real {
    a * (e * i - f * h) - b * (d * i - f * g) + c * (d * h - e * g)
  }

  function Det(m: Mat3): real {
    Det9(m.r0.x, m.r0.y, m.r0.z, m.r1.x, m.r1.y, m.r1.z, m.r2.x, m.r2.y, m.r2.z)
  }

  /** SO(3): the transpose is the inverse, and the determinant is one. */
  predicate IsRotation(m: Mat3) {
    var (a, b, c) := (Column0(m), Column1(m), Column2(m));
    && Dot(a, a) == 1.0 && Dot(b, b) == 1.0 && Dot(c, c) == 1.0
    && Dot(a, b) == 0.0 && Dot(b, c) == 0.0 && Dot(c, a) == 0.0
    && Det(m) == 1.0
  }

  /** A homogeneous transform: its rotation block and its translation column. */
  datatype Pose = Pose(rotation: Mat3, translation: Vec3)

  const IDENTITY := Pose(IDENTITY3, ORIGIN)

  function Compose(a: Pose, b: Pose): Pose {
    Pose(Mul(a.rotation, b.rotation), Plus(Apply(a.rotation, b.translation), a.translation))
  }

  /** The image of a point. */
  function Move(t: Pose, p: Vec3): Vec3 {
    Plus(Apply(t.rotation, p), t.translation)
  }

  // ---------------------------------------------------------------------------------------------
  // Linearity
  // ---------------------------------------------------------------------------------------------

  lemma DotScalars(ux: real, uy: real, uz: real, a: real, p: Vec3, b: real, q: Vec3, c: real, r: Vec3, t: Vec3)
    requires t.x == a * p.x + b * q.x + c * r.x && t.y == a * p.y + b * q.y + c * r.y && t.z == a * p.z + b * q.z + c * r.z
    ensures ux * t.x + uy * t.y + uz * t.z
         == a * (ux * p.x + uy * p.y + uz * p.z) + b * (ux * q.x + uy * q.y + uz * q.z) + c * (ux * r.x + uy * r.y + uz * r.z)
  {
  }

  lemma DotLinear(u: Vec3, a: real, p: Vec3, b: real, q: Vec3, c: real, r: Vec3)
    ensures Dot(u, Comb(a, p, b, q, c, r)) == a * Dot(u, p) + b * Dot(u, q) + c * Dot(u, r)
    ensures Dot(Comb(a, p, b, q, c, r), u) == a * Dot(p, u) + b * Dot(q, u) + c * Dot(r, u)
  {
    DotScalars(u.x, u.y, u.z, a, p, b, q, c, r, Comb(a, p, b, q, c, r));
    DotCommutes(u, Comb(a, p, b, q, c, r));
    DotCommutes(u, p);
    DotCommutes(u, q);
    DotCommutes(u, r);
  }

  lemma DotCommutes(u: Vec3, v: Vec3)
    ensures Dot(u, v) == Dot(v, u)
  {
  }

  lemma ApplyLinear(m: Mat3, a: real, p: Vec3, b: real, q: Vec3, c: real, r: Vec3)
    ensures Apply(m, Comb(a, p, b, q, c, r)) == Comb(a, Apply(m, p), b, Apply(m, q), c, Apply(m, r))
  {
    hide Dot;
    DotLinear(m.r0, a, p, b, q, c, r);
    DotLinear(m.r1, a, p, b, q, c, r);
    DotLinear(m.r2, a, p, b, q, c, r);
  }

  lemma ApplyMul(m: Mat3, n: Mat3, v: Vec3)
    ensures Apply(Mul(m, n), v) == Apply(m, Apply(n, v))
  {
    DotLinear(v, m.r0.x, n.r0, m.r0.y, n.r1, m.r0.z, n.r2);
    DotLinear(v, m.r1.x, n.r0, m.r1.y, n.r1, m.r1.z, n.r2);
    DotLinear(v, m.r2.x, n.r0, m.r2.y, n.r1, m.r2.z, n.r2);
    MulRows(m, n, v);
  }

  lemma MulRows(m: Mat3, n: Mat3, v: Vec3)
    requires forall r | r in {m.r0, m.r1, m.r2} ::
               Dot(Comb(r.x, n.r0, r.y, n.r1, r.z, n.r2), v) == r.x * Dot(n.r0, v) + r.y * Dot(n.r1, v) + r.z * Dot(n.r2, v)
    ensures Apply(Mul(m, n), v) == Apply(m, Apply(n, v))
  {
    hide Comb;
    assert forall r: Vec3 :: Dot(r, Apply(n, v)) == r.x * Dot(n.r0, v) + r.y * Dot(n.r1, v) + r.z * Dot(n.r2, v);
    hide Dot;
  }

  /** A matrix is determined by what it does to the basis. */
  lemma SameOnBasis(m: Mat3, n: Mat3)
    requires Apply(m, E0) == Apply(n, E0) && Apply(m, E1) == Apply(n, E1) && Apply(m, E2) == Apply(n, E2)
    ensures m == n
  {
    OnBasis(m);
    OnBasis(n);
  }

  lemma OnBasis(m: Mat3)
    ensures Apply(m, E0) == Column0(m) && Apply(m, E1) == Column1(m) && Apply(m, E2) == Column2(m)
  {
  }

  lemma ApplyIdentity(v: Vec3)
    ensures Apply(IDENTITY3, v) == v
  {
  }

  lemma ApplyPlus(m: Mat3, p: Vec3, q: Vec3)
    ensures Apply(m, Plus(p, q)) == Plus(Apply(m, p), Apply(m, q))
  {
    PlusIsComb(p, q);
    PlusIsComb(Apply(m, p), Apply(m, q));
    hide Plus, Apply, Comb;
    ApplyLinear(m, 1.0, p, 1.0, q, 0.0, ORIGIN);
    CombOfZero(1.0, Apply(m, p), 1.0, Apply(m, q), Apply(m, ORIGIN));
  }

  lemma PlusIsComb(p: Vec3, q: Vec3)
    ensures Plus(p, q) == Comb(1.0, p, 1.0, q, 0.0, ORIGIN)
  {
  }

  lemma CombOfZero(a: real, p: Vec3, b: real, q: Vec3, r: Vec3)
    ensures Comb(a, p, b, q, 0.0, r) == Comb(a, p, b, q, 0.0, ORIGIN)
  {
  }

  lemma PlusAssociates(p: Vec3, q: Vec3, r: Vec3)
    ensures Plus(Plus(p, q), r) == Plus(p, Plus(q, r))
  {
  }

  // ---------------------------------------------------------------------------------------------
  // The group of transforms
  // ---------------------------------------------------------------------------------------------

  lemma MulAssociates(l: Mat3, m: Mat3, n: Mat3)
    ensures Mul(Mul(l, m), n) == Mul(l, Mul(m, n))
  {
    hide Mul, Apply;
    forall v: Vec3
      ensures Apply(Mul(Mul(l, m), n), v) == Apply(Mul(l, Mul(m, n)), v)
    {
      ApplyMul(Mul(l, m), n, v);
      ApplyMul(l, m, Apply(n, v));
      ApplyMul(l, Mul(m, n), v);
      ApplyMul(m, n, v);
    }
    SameOnBasis(Mul(Mul(l, m), n), Mul(l, Mul(m, n)));
  }

  lemma MulIdentity(m: Mat3)
    ensures Mul(IDENTITY3, m) == m && Mul(m, IDENTITY3) == m
  {
  }

  lemma ComposeAssociates(a: Pose, b: Pose, c: Pose)
    ensures Compose(Compose(a, b), c) == Compose(a, Compose(b, c))
  {
    hide Mul, Apply, Plus;
    MulAssociates(a.rotation, b.rotation, c.rotation);
    ApplyMul(a.rotation, b.rotation, c.translation);
    ApplyPlus(a.rotation, Apply(b.rotation, c.translation), b.translation);
    PlusAssociates(Apply(a.rotation, Apply(b.rotation, c.translation)), Apply(a.rotation, b.translation), a.translation);
  }

  lemma ComposeIdentity(a: Pose)
    ensures Compose(IDENTITY, a) == a && Compose(a, IDENTITY) == a
  {
    MulIdentity(a.rotation);
    ApplyIdentity(a.translation);
  }

  // ---------------------------------------------------------------------------------------------
  // Rotations
  // ---------------------------------------------------------------------------------------------

  lemma ApplyByColumns(m: Mat3, v: Vec3)
    ensures Apply(m, v) == Comb(v.x, Column0(m), v.y, Column1(m), v.z, Column2(m))
  {
  }

  /** A rotation keeps inner products. */
  lemma RotationKeepsDot(m: Mat3, u: Vec3, v: Vec3)
    requires IsRotation(m)
    ensures Dot(Apply(m, u), Apply(m, v)) == Dot(u, v)
  {
    var a, b, c := Column0(m), Column1(m), Column2(m);
    ApplyByColumns(m, u);
    ApplyByColumns(m, v);
    assert Dot(a, a) == 1.0 && Dot(b, b) == 1.0 && Dot(c, c) == 1.0;
    assert Dot(a, b) == 0.0 && Dot(b, c) == 0.0 && Dot(c, a) == 0.0;
    DotCommutes(a, b);
    DotCommutes(b, c);
    DotCommutes(c, a);
    hide Dot, Comb, Apply, Column0, Column1, Column2, IsRotation;
    DotLinear(Apply(m, u), v.x, a, v.y, b, v.z, c);
    DotLinear(a, u.x, a, u.y, b, u.z, c);
    DotLinear(b, u.x, a, u.y, b, u.z, c);
    DotLinear(c, u.x, a, u.y, b, u.z, c);
    DotIsSum(u, v, Dot(Apply(m, u), a), Dot(Apply(m, u), b), Dot(Apply(m, u), c));
  }

  lemma DotIsSum(u: Vec3, v: Vec3, p: real, q: real, r: real)
    requires p == u.x && q == u.y && r == u.z
    ensures v.x * p + v.y * q + v.z * r == Dot(u, v)
  {
  }

  lemma Lagrange(a: Vec3, b: Vec3)
    ensures Dot(Cross(a, b), Cross(a, b)) == Dot(a, a) * Dot(b, b) - Dot(a, b) * Dot(a, b)
  {
    LagrangeScalars(a.x, a.y, a.z, b.x, b.y, b.z);
  }

  lemma LagrangeScalars(a: real, b: real, c: real, d: real, e: real, f: real)
    ensures (b * f - c * e) * (b * f - c * e) + (c * d - a * f) * (c * d - a * f) + (a * e - b * d) * (a * e - b * d)
         == (a * a + b * b + c * c) * (d * d + e * e + f * f) - (a * d + b * e + c * f) * (a * d + b * e + c * f)
  {
  }

  lemma SquareIsZero(d: real, s: real)
    requires s == d * d
    ensures s >= 0.0 && (s == 0.0 ==> d == 0.0)
  {
    if d < 0.0 {
      PositiveProduct(-d, -d, s);
    } else if d > 0.0 {
      PositiveProduct(d, d, s);
    }
  }

  lemma NoDistance(u: Vec3, v: Vec3)
    requires Dot(u, u) == 1.0 && Dot(v, v) == 1.0 && Dot(u, v) == 1.0
    ensures u == v
  {
    var d := Less(u, v);
    DistanceSquared(u.x, u.y, u.z, v.x, v.y, v.z, d.x, d.y, d.z);
    SquareIsZero(d.x, d.x * d.x);
    SquareIsZero(d.y, d.y * d.y);
    SquareIsZero(d.z, d.z * d.z);
  }

  lemma DistanceSquared(a: real, b: real, c: real, d: real, e: real, f: real, p: real, q: real, r: real)
    requires p == a - d && q == b - e && r == c - f
    requires a * a + b * b + c * c == 1.0 && d * d + e * e + f * f == 1.0 && a * d + b * e + c * f == 1.0
    ensures p * p + q * q + r * r == 0.0
  {
  }

  lemma DetIsTripleProduct(m: Mat3)
    ensures Det(m) == Dot(Cross(Column0(m), Column1(m)), Column2(m))
  {
  }

  /** The columns of a rotation form a right-handed frame. */
  lemma RightHanded(m: Mat3)
    requires IsRotation(m)
    ensures Cross(Column0(m), Column1(m)) == Column2(m)
    ensures Cross(Column1(m), Column2(m)) == Column0(m)
    ensures Cross(Column2(m), Column0(m)) == Column1(m)
  {
    var a, b, c := Column0(m), Column1(m), Column2(m);
    assert Dot(a, a) == 1.0 && Dot(b, b) == 1.0 && Dot(c, c) == 1.0;
    assert Dot(a, b) == 0.0 && Dot(b, c) == 0.0 && Dot(c, a) == 0.0;
    assert Dot(Cross(a, b), c) == 1.0 by { DetIsTripleProduct(m); }
    hide Dot, Cross, Column0, Column1, Column2, IsRotation;
    Cyclic(a, b, c);
    Cyclic(b, c, a);
    Lagrange(a, b);
    Lagrange(b, c);
    Lagrange(c, a);
    NoDistance(Cross(a, b), c);
    NoDistance(Cross(b, c), a);
    NoDistance(Cross(c, a), b);
  }

  lemma Cyclic(a: Vec3, b: Vec3, c: Vec3)
    ensures Dot(Cross(a, b), c) == Dot(Cross(b, c), a)
  {
  }

  lemma CrossScalars(u: real, v: real, a: real, b: real, c: real, py: real, pz: real, qy: real, qz: real, ry: real, rz: real,
                     ty: real, tz: real, mp: real, mq: real, mr: real)
    requires ty == a * py + b * qy + c * ry && tz == a * pz + b * qz + c * rz
    requires mp == u * pz - v * py && mq == u * qz - v * qy && mr == u * rz - v * ry
    ensures u * tz - v * ty == a * mp + b * mq + c * mr
  {
  }

  lemma CrossLinearX(u: Vec3, a: real, p: Vec3, b: real, q: Vec3, c: real, r: Vec3)
    ensures Cross(u, Comb(a, p, b, q, c, r)).x == Comb(a, Cross(u, p), b, Cross(u, q), c, Cross(u, r)).x
  {
    var t, mp, mq, mr := Comb(a, p, b, q, c, r), Cross(u, p), Cross(u, q), Cross(u, r);
    CrossScalars(u.y, u.z, a, b, c, p.y, p.z, q.y, q.z, r.y, r.z, t.y, t.z, mp.x, mq.x, mr.x);
  }

  lemma CrossLinearY(u: Vec3, a: real, p: Vec3, b: real, q: Vec3, c: real, r: Vec3)
    ensures Cross(u, Comb(a, p, b, q, c, r)).y == Comb(a, Cross(u, p), b, Cross(u, q), c, Cross(u, r)).y
  {
    var t, mp, mq, mr := Comb(a, p, b, q, c, r), Cross(u, p), Cross(u, q), Cross(u, r);
    CrossScalars(u.z, u.x, a, b, c, p.z, p.x, q.z, q.x, r.z, r.x, t.z, t.x, mp.y, mq.y, mr.y);
  }

  lemma CrossLinearZ(u: Vec3, a: real, p: Vec3, b: real, q: Vec3, c: real, r: Vec3)
    ensures Cross(u, Comb(a, p, b, q, c, r)).z == Comb(a, Cross(u, p), b, Cross(u, q), c, Cross(u, r)).z
  {
    var t, mp, mq, mr := Comb(a, p, b, q, c, r), Cross(u, p), Cross(u, q), Cross(u, r);
    CrossScalars(u.x, u.y, a, b, c, p.x, p.y, q.x, q.y, r.x, r.y, t.x, t.y, mp.z, mq.z, mr.z);
  }

  lemma CrossLinear(u: Vec3, a: real, p: Vec3, b: real, q: Vec3, c: real, r: Vec3)
    ensures Cross(u, Comb(a, p, b, q, c, r)) == Comb(a, Cross(u, p), b, Cross(u, q), c, Cross(u, r))
  {
    hide Cross, Comb;
    CrossLinearX(u, a, p, b, q, c, r);
    CrossLinearY(u, a, p, b, q, c, r);
    CrossLinearZ(u, a, p, b, q, c, r);
  }

  function Minus(v: Vec3): Vec3 {
    Vec3(-v.x, -v.y, -v.z)
  }

  lemma CrossAnticommutes(u: Vec3, v: Vec3)
    ensures Cross(u, v) == Minus(Cross(v, u)) && Cross(u, u) == ORIGIN
  {
    assert u.x * u.y == u.y * u.x && u.y * u.z == u.z * u.y && u.z * u.x == u.x * u.z;
  }

  /** The expansion of a cross product over three vectors whose cross products are known. */
  lemma CrossOfCombs(a: Vec3, b: Vec3, c: Vec3, u: Vec3, v: Vec3)
    requires Cross(a, b) == c && Cross(b, c) == a && Cross(c, a) == b
    ensures var w := Cross(u, v);
      Cross(Comb(u.x, a, u.y, b, u.z, c), Comb(v.x, a, v.y, b, v.z, c)) == Comb(w.x, a, w.y, b, w.z, c)
  {
    var p, w := Comb(u.x, a, u.y, b, u.z, c), Cross(u, v);
    assert w.x == u.y * v.z - u.z * v.y && w.y == u.z * v.x - u.x * v.z && w.z == u.x * v.y - u.y * v.x;
    CrossAnticommutes(a, b);
    CrossAnticommutes(b, c);
    CrossAnticommutes(c, a);
    CrossAnticommutes(p, a);
    CrossAnticommutes(p, b);
    CrossAnticommutes(p, c);
    hide Cross, Comb, Minus;
    CrossLinear(p, v.x, a, v.y, b, v.z, c);
    CrossLinear(a, u.x, a, u.y, b, u.z, c);
    CrossLinear(b, u.x, a, u.y, b, u.z, c);
    CrossLinear(c, u.x, a, u.y, b, u.z, c);
    Expansion(a, b, c, u, v, w);
  }

  lemma Expansion(a: Vec3, b: Vec3, c: Vec3, u: Vec3, v: Vec3, w: Vec3)
    requires w.x == u.y * v.z - u.z * v.y && w.y == u.z * v.x - u.x * v.z && w.z == u.x * v.y - u.y * v.x
    ensures Comb(v.x, Minus(Comb(u.x, ORIGIN, u.y, c, u.z, Minus(b))),
                 v.y, Minus(Comb(u.x, Minus(c), u.y, ORIGIN, u.z, a)),
                 v.z, Minus(Comb(u.x, b, u.y, Minus(a), u.z, ORIGIN)))
         == Comb(w.x, a, w.y, b, w.z, c)
  {
    var l, m, n := Minus(Comb(u.x, ORIGIN, u.y, c, u.z, Minus(b))), Minus(Comb(u.x, Minus(c), u.y, ORIGIN, u.z, a)),
                   Minus(Comb(u.x, b, u.y, Minus(a), u.z, ORIGIN));
    InnerCombs(a, b, c, u);
    hide Minus;
    ExpansionAt(a, b, c, u, v, w, l, m, n);
  }

  lemma InnerCombs(a: Vec3, b: Vec3, c: Vec3, u: Vec3)
    ensures Minus(Comb(u.x, ORIGIN, u.y, c, u.z, Minus(b))) == Difference(u.z, b, u.y, c)
    ensures Minus(Comb(u.x, Minus(c), u.y, ORIGIN, u.z, a)) == Difference(u.x, c, u.z, a)
    ensures Minus(Comb(u.x, b, u.y, Minus(a), u.z, ORIGIN)) == Difference(u.y, a, u.x, b)
  {
  }

  function Difference(p: real, a: Vec3, q: real, b: Vec3): Vec3 {
    Vec3(p * a.x - q * b.x, p * a.y - q * b.y, p * a.z - q * b.z)
  }

  lemma ExpansionAt(a: Vec3, b: Vec3, c: Vec3, u: Vec3, v: Vec3, w: Vec3, l: Vec3, m: Vec3, n: Vec3)
    requires w.x == u.y * v.z - u.z * v.y && w.y == u.z * v.x - u.x * v.z && w.z == u.x * v.y - u.y * v.x
    requires l == Difference(u.z, b, u.y, c) && m == Difference(u.x, c, u.z, a) && n == Difference(u.y, a, u.x, b)
    ensures Comb(v.x, l, v.y, m, v.z, n) == Comb(w.x, a, w.y, b, w.z, c)
  {
    ExpansionScalars(a.x, b.x, c.x, u, v, w, l.x, m.x, n.x);
    ExpansionScalars(a.y, b.y, c.y, u, v, w, l.y, m.y, n.y);
    ExpansionScalars(a.z, b.z, c.z, u, v, w, l.z, m.z, n.z);
  }

  lemma ExpansionScalars(a: real, b: real, c: real, u: Vec3, v: Vec3, w: Vec3, l: real, m: real, n: real)
    requires w.x == u.y * v.z - u.z * v.y && w.y == u.z * v.x - u.x * v.z && w.z == u.x * v.y - u.y * v.x
    requires l == u.z * b - u.y * c && m == u.x * c - u.z * a && n == u.y * a - u.x * b
    ensures v.x * l + v.y * m + v.z * n == w.x * a + w.y * b + w.z * c
  {
    ExpansionProducts(a, b, c, u.x, u.y, u.z, v.x, v.y, v.z, l, m, n, w.x, w.y, w.z);
  }

  lemma ExpansionProducts(a: real, b: real, c: real, ux: real, uy: real, uz: real, vx: real, vy: real, vz: real,
                          l: real, m: real, n: real, x: real, y: real, z: real)
    requires x == uy * vz - uz * vy && y == uz * vx - ux * vz && z == ux * vy - uy * vx
    requires l == uz * b - uy * c && m == ux * c - uz * a && n == uy * a - ux * b
    ensures vx * l + vy * m + vz * n == x * a + y * b + z * c
  {
  }

  /** A rotation keeps cross products. */
  lemma RotationKeepsCross(m: Mat3, u: Vec3, v: Vec3)
    requires IsRotation(m)
    ensures Apply(m, Cross(u, v)) == Cross(Apply(m, u), Apply(m, v))
  {
    RightHanded(m);
    var w := Cross(u, v);
    ApplyByColumns(m, u);
    ApplyByColumns(m, v);
    ApplyByColumns(m, w);
    CrossOfCombs(Column0(m), Column1(m), Column2(m), u, v);
    hide Comb, Apply, Cross, Column0, Column1, Column2;
  }

  lemma ProductOfRotations(m: Mat3, n: Mat3)
    requires IsRotation(m) && IsRotation(n)
    ensures IsRotation(Mul(m, n))
  {
    var a, b, c, p := Column0(n), Column1(n), Column2(n), Mul(m, n);
    OnBasis(n);
    OnBasis(p);
    ApplyMul(m, n, E0);
    ApplyMul(m, n, E1);
    ApplyMul(m, n, E2);
    DetIsTripleProduct(n);
    DetIsTripleProduct(p);
    hide Apply, Dot, Cross, Mul, Column0, Column1, Column2, Det;
    RotationKeepsCross(m, a, b);
    RotationKeepsDot(m, Cross(a, b), c);
    RotationKeepsDot(m, a, a);
    RotationKeepsDot(m, b, b);
    RotationKeepsDot(m, c, c);
    RotationKeepsDot(m, a, b);
    RotationKeepsDot(m, b, c);
    RotationKeepsDot(m, c, a);
  }

  /** SE(3) is closed under composition. */
  lemma ProductOfPoses(a: Pose, b: Pose)
    requires IsRotation(a.rotation) && IsRotation(b.rotation)
    ensures IsRotation(Compose(a, b).rotation)
  {
    hide IsRotation, Mul, Apply, Plus;
    ProductOfRotations(a.rotation, b.rotation);
  }
}
