/** What twist exponentials promise: a one-parameter group of rigid motions that the adjoint conjugates. */
module TwistTheorems {
  import opened Geometry
  import opened Twists

  // ---------------------------------------------------------------------------------------------
  // Trigonometry
  // ---------------------------------------------------------------------------------------------

  lemma Pythagoras(lib: Library, a: real)
    requires lib.Valid()
    ensures lib.sin(a) * lib.sin(a) + lib.cos(a) * lib.cos(a) == 1.0
  {
    assert lib.CircleLaw(a);
  }

  lemma AngleSum(lib: Library, a: real, b: real)
    requires lib.Valid()
    ensures lib.sin(a + b) == lib.sin(a) * lib.cos(b) + lib.cos(a) * lib.sin(b)
    ensures lib.cos(a + b) == lib.cos(a) * lib.cos(b) - lib.sin(a) * lib.sin(b)
  {
    assert lib.SumLaw(a, b);
  }

  // ---------------------------------------------------------------------------------------------
  // Rotations
  // ---------------------------------------------------------------------------------------------

  ghost predicate UnitVector(lib: Library, u: Vec3) {
    Dot(u, u) == 1.0 && Norm(lib, u) == 1.0
  }

  lemma RotationTurns(lib: Library, u: Vec3, angle: real, v: Vec3)
    requires lib.Valid() && UnitVector(lib, u)
    ensures Apply(RotationExp(lib, u, angle), v) == Turn(1.0, lib.sin(angle), 1.0 - lib.cos(angle), u, v)
  {
    assert Over(u, 1.0) == u;
    hide Apply, SkewPolynomial, Turn;
    SkewPolynomialTurns(1.0, lib.sin(angle), 1.0 - lib.cos(angle), u, v);
  }

  lemma TurnsCompose(s: real, c: real, t: real, d: real, st: real, cd: real, u: Vec3, v: Vec3)
    requires Dot(u, u) == 1.0 && st == s * d + c * t && cd == c * d - s * t
    ensures Turn(1.0, s, 1.0 - c, u, Turn(1.0, t, 1.0 - d, u, v)) == Turn(1.0, st, 1.0 - cd, u, v)
  {
    hide Turn, Dot;
    RotationScalars(s, c, t, d);
    TurnTwice(1.0, s, 1.0 - c, 1.0, t, 1.0 - d, 1.0, st, 1.0 - cd, u, v);
  }

  /** Rotating by b and then by a about the same axis is rotating by a + b. */
  lemma RotationsAdd(lib: Library, u: Vec3, a: real, b: real)
    requires lib.Valid() && UnitVector(lib, u)
    ensures Mul(RotationExp(lib, u, a), RotationExp(lib, u, b)) == RotationExp(lib, u, a + b)
  {
    var m, n, p := RotationExp(lib, u, a), RotationExp(lib, u, b), RotationExp(lib, u, a + b);
    AngleSum(lib, a, b);
    hide RotationExp, Turn, Apply, Mul, Library.Valid, Dot, Norm;
    forall v: Vec3
      ensures Apply(Mul(m, n), v) == Apply(p, v)
    {
      ApplyMul(m, n, v);
      RotationTurns(lib, u, a, Apply(n, v));
      RotationTurns(lib, u, b, v);
      RotationTurns(lib, u, a + b, v);
      TurnsCompose(lib.sin(a), lib.cos(a), lib.sin(b), lib.cos(b), lib.sin(a + b), lib.cos(a + b), u, v);
    }
    SameOnBasis(Mul(m, n), p);
  }

  lemma RotationScalars(s: real, c: real, t: real, d: real)
    ensures s * d + c * t == 1.0 * t + s * 1.0 - s * (1.0 - d) - (1.0 - c) * t
    ensures 1.0 - (c * d - s * t) == 1.0 * (1.0 - d) + s * t + (1.0 - c) * 1.0 - (1.0 - c) * (1.0 - d)
  {
  }

  /** The determinant of p I + g u u' + b K. */
  lemma DetScalars(p: real, g: real, b: real, x: real, y: real, z: real, n: real)
    requires n == x * x + y * y + z * z
    ensures Det9(p + g * x * x, g * x * y - b * z, g * x * z + b * y,
                 g * x * y + b * z, p + g * y * y, g * y * z - b * x,
                 g * x * z - b * y, g * y * z + b * x, p + g * z * z)
         == (p + g * n) * (p * p + b * b * n)
  {
  }

  /** Every value of Rodrigues' formula is in SO(3), whatever the axis. */
  lemma RotationExpIsRotation(lib: Library, axis: Vec3, angle: real)
    requires lib.Valid()
    ensures IsRotation(RotationExp(lib, axis, angle))
  {
    hide SkewPolynomial, Dot;
    if Norm(lib, axis) >= AXIS_EPSILON {
      UnitAxis(lib, axis);
      var u := Over(axis, Norm(lib, axis));
      assert RotationExp(lib, axis, angle) == RotationExp(lib, u, angle);
      hide RotationExp, IsRotation;
      UnitRotation(lib, u, angle);
    } else {
      IdentityIsRotation();
    }
  }

  lemma IdentityIsRotation()
    ensures IsRotation(IDENTITY3)
  {
  }

  lemma UnitRotation(lib: Library, u: Vec3, angle: real)
    requires lib.Valid() && UnitVector(lib, u)
    ensures IsRotation(RotationExp(lib, u, angle))
  {
    var m := RotationExp(lib, u, angle);
    OnBasis(m);
    RotationDet(lib, u, angle);
    hide Apply, RotationExp, Column0, Column1, Column2, Det;
    TurnKeepsDot(lib, u, angle, E0, E0);
    TurnKeepsDot(lib, u, angle, E1, E1);
    TurnKeepsDot(lib, u, angle, E2, E2);
    TurnKeepsDot(lib, u, angle, E0, E1);
    TurnKeepsDot(lib, u, angle, E1, E2);
    TurnKeepsDot(lib, u, angle, E2, E0);
  }

  // The rows of c I + g u u' + s K.

  predicate IsRow0(r: Vec3, c: real, g: real, s: real, x: real, y: real, z: real) {
    r.x == c + g * x * x && r.y == g * x * y - s * z && r.z == g * x * z + s * y
  }

  predicate IsRow1(r: Vec3, c: real, g: real, s: real, x: real, y: real, z: real) {
    r.x == g * x * y + s * z && r.y == c + g * y * y && r.z == g * y * z - s * x
  }

  predicate IsRow2(r: Vec3, c: real, g: real, s: real, x: real, y: real, z: real) {
    r.x == g * x * z - s * y && r.y == g * y * z + s * x && r.z == c + g * z * z
  }

  predicate HasEntries(m: Mat3, c: real, g: real, s: real, x: real, y: real, z: real) {
    IsRow0(m.r0, c, g, s, x, y, z) && IsRow1(m.r1, c, g, s, x, y, z) && IsRow2(m.r2, c, g, s, x, y, z)
  }

  lemma UnitDet(c: real, g: real, s: real, x: real, y: real, z: real, m: Mat3)
    requires x * x + y * y + z * z == 1.0 && g == 1.0 - c && s * s + c * c == 1.0
    requires HasEntries(m, c, g, s, x, y, z)
    ensures Det(m) == 1.0
  {
    hide Det9;
    DetScalars(c, g, s, x, y, z, 1.0);
    assert c + g * 1.0 == 1.0 && c * c + s * s * 1.0 == 1.0;
  }

  lemma RotationDet(lib: Library, u: Vec3, angle: real)
    requires lib.Valid() && UnitVector(lib, u)
    ensures Det(RotationExp(lib, u, angle)) == 1.0
  {
    Pythagoras(lib, angle);
    assert Over(u, 1.0) == u;
    hide Det, SkewPolynomial, Dot;
    RodriguesDet(lib.sin(angle), lib.cos(angle), 1.0 - lib.cos(angle), u);
  }

  lemma RodriguesDet(s: real, c: real, g: real, u: Vec3)
    requires Dot(u, u) == 1.0 && g == 1.0 - c && s * s + c * c == 1.0
    ensures Det(SkewPolynomial(1.0, s, g, u)) == 1.0
  {
    hide Det, SkewPolynomial, HasEntries;
    RodriguesEntries(s, c, g, u);
    UnitDet(c, g, s, u.x, u.y, u.z, SkewPolynomial(1.0, s, g, u));
  }

  lemma RodriguesRow0(s: real, c: real, g: real, u: Vec3)
    requires Dot(u, u) == 1.0 && g == 1.0 - c
    ensures IsRow0(SkewPolynomial(1.0, s, g, u).r0, c, g, s, u.x, u.y, u.z)
  {
  }

  lemma RodriguesRow1(s: real, c: real, g: real, u: Vec3)
    requires Dot(u, u) == 1.0 && g == 1.0 - c
    ensures IsRow1(SkewPolynomial(1.0, s, g, u).r1, c, g, s, u.x, u.y, u.z)
  {
  }

  lemma RodriguesRow2(s: real, c: real, g: real, u: Vec3)
    requires Dot(u, u) == 1.0 && g == 1.0 - c
    ensures IsRow2(SkewPolynomial(1.0, s, g, u).r2, c, g, s, u.x, u.y, u.z)
  {
  }

  lemma RodriguesEntries(s: real, c: real, g: real, u: Vec3)
    requires Dot(u, u) == 1.0 && g == 1.0 - c
    ensures HasEntries(SkewPolynomial(1.0, s, g, u), c, g, s, u.x, u.y, u.z)
  {
    RodriguesRow0(s, c, g, u);
    RodriguesRow1(s, c, g, u);
    RodriguesRow2(s, c, g, u);
    hide SkewPolynomial, Dot, IsRow0, IsRow1, IsRow2;
  }

  /** Moving a turn across an inner product reverses it. */
  lemma TurnTransposes(a: real, b: real, c: real, u: Vec3, v: Vec3, w: Vec3)
    ensures Dot(Turn(a, b, c, u, v), w) == Dot(v, Turn(a, -b, c, u, w))
  {
    var k, l := Cross(u, v), Cross(u, w);
    CrossTransposes(u, v, w);
    CrossTransposes(u, k, w);
    CrossTransposes(u, v, l);
    hide Dot, Cross, Comb;
    DotLinear(w, a, v, b, k, c, Cross(u, k));
    DotLinear(v, a, w, -b, l, c, Cross(u, l));
  }

  lemma CrossTransposes(u: Vec3, v: Vec3, w: Vec3)
    ensures Dot(Cross(u, v), w) == -Dot(v, Cross(u, w))
  {
  }

  lemma TurnKeepsDot(lib: Library, u: Vec3, angle: real, v: Vec3, w: Vec3)
    requires lib.Valid() && UnitVector(lib, u)
    ensures var m := RotationExp(lib, u, angle); Dot(Apply(m, v), Apply(m, w)) == Dot(v, w)
  {
    var s, c := lib.sin(angle), lib.cos(angle);
    Pythagoras(lib, angle);
    RotationTurns(lib, u, angle, v);
    RotationTurns(lib, u, angle, w);
    hide RotationExp, Turn, Dot, Apply, Library.Valid;
    var g, t := 1.0 - c, -s;
    TurnTransposes(1.0, s, g, u, v, Turn(1.0, s, g, u, w));
    BackAndForth(s, c, g, t);
    TurnTwice(1.0, t, g, 1.0, s, g, 1.0, 0.0, 0.0, u, w);
    TurnByNothing(u, w);
  }

  lemma BackAndForth(s: real, c: real, g: real, t: real)
    requires s * s + c * c == 1.0 && g == 1.0 - c && t == -s
    ensures 1.0 == 1.0 * 1.0
    ensures 0.0 == 1.0 * s + t * 1.0 - t * g - g * s
    ensures 0.0 == 1.0 * g + t * s + g * 1.0 - g * g
  {
    var ss, gs := s * s, g * s;
    assert t * s == -ss && t * g == -gs;
    assert g * g == 1.0 - 2.0 * c + c * c;
  }

  lemma TurnByNothing(u: Vec3, w: Vec3)
    ensures Turn(1.0, 0.0, 0.0, u, w) == w
  {
  }

  // ---------------------------------------------------------------------------------------------
  // The one-parameter group
  // ---------------------------------------------------------------------------------------------

  lemma ExpParts(lib: Library, s: Screw, q: real, u: Vec3, v: Vec3, theta: real)
    requires lib.Valid() && Norm(lib, s.angular) >= AXIS_EPSILON && theta == Angle(q, Norm(lib, s.angular))
    requires u == Over(s.angular, Norm(lib, s.angular)) && v == Over(s.linear, Norm(lib, s.angular))
    ensures UnitVector(lib, u) && TwistExp(lib, s, q) == UnitTwistExp(lib, u, theta, v)
  {
    UnitAxis(lib, s.angular);
    hide UnitTwistExp, Norm, Dot, Over, Angle;
  }

  lemma UnitTwistTurns(lib: Library, u: Vec3, theta: real, v: Vec3)
    ensures UnitTwistExp(lib, u, theta, v)
         == Pose(RotationExp(lib, u, theta), Turn(theta, 1.0 - lib.cos(theta), theta - lib.sin(theta), u, v))
  {
    hide SkewPolynomial, Apply, RotationExp, Turn;
    SkewPolynomialTurns(theta, 1.0 - lib.cos(theta), theta - lib.sin(theta), u, v);
  }

  lemma TurnPlus(a: real, b: real, c: real, d: real, e: real, f: real, p: real, q: real, r: real, u: Vec3, v: Vec3)
    requires p == a + d && q == b + e && r == c + f
    ensures Plus(Turn(a, b, c, u, v), Turn(d, e, f, u, v)) == Turn(p, q, r, u, v)
  {
    hide Turn, Cross, Comb, Plus;
    CombPlus(a, b, c, d, e, f, v, Cross(u, v), Cross(u, Cross(u, v)));
    assert Turn(a, b, c, u, v) == Comb(a, v, b, Cross(u, v), c, Cross(u, Cross(u, v))) by { TurnIs(a, b, c, u, v); }
    assert Turn(d, e, f, u, v) == Comb(d, v, e, Cross(u, v), f, Cross(u, Cross(u, v))) by { TurnIs(d, e, f, u, v); }
    assert Turn(p, q, r, u, v) == Comb(p, v, q, Cross(u, v), r, Cross(u, Cross(u, v))) by { TurnIs(p, q, r, u, v); }
  }

  lemma TurnIs(a: real, b: real, c: real, u: Vec3, v: Vec3)
    ensures Turn(a, b, c, u, v) == Comb(a, v, b, Cross(u, v), c, Cross(u, Cross(u, v)))
  {
  }

  lemma CombPlus(a: real, b: real, c: real, d: real, e: real, f: real, v: Vec3, k: Vec3, kk: Vec3)
    ensures Plus(Comb(a, v, b, k, c, kk), Comb(d, v, e, k, f, kk)) == Comb(a + d, v, b + e, k, c + f, kk)
  {
  }

  lemma TranslationScalars(s: real, c: real, t: real, d: real, x: real, y: real)
    ensures (1.0 * (1.0 - d) + s * y - s * (y - t) - (1.0 - c) * (1.0 - d)) + (1.0 - c) == 1.0 - (c * d - s * t)
    ensures (1.0 * (y - t) + s * (1.0 - d) + (1.0 - c) * y - (1.0 - c) * (y - t)) + (x - s) == (x + y) - (s * d + c * t)
  {
  }

  lemma TranslationsAdd(lib: Library, u: Vec3, a: real, b: real, w: Vec3)
    requires lib.Valid() && UnitVector(lib, u)
    ensures Plus(Apply(RotationExp(lib, u, a), Turn(b, 1.0 - lib.cos(b), b - lib.sin(b), u, w)),
                 Turn(a, 1.0 - lib.cos(a), a - lib.sin(a), u, w))
         == Turn(a + b, 1.0 - lib.cos(a + b), a + b - lib.sin(a + b), u, w)
  {
    AngleSum(lib, a, b);
    hide RotationExp, Turn, Apply, Plus, Dot, Norm;
    RotationTurns(lib, u, a, Turn(b, 1.0 - lib.cos(b), b - lib.sin(b), u, w));
    TurnsSum(lib.sin(a), lib.cos(a), lib.sin(b), lib.cos(b), lib.sin(a + b), lib.cos(a + b), a, b, u, w);
  }

  lemma TurnsSum(s: real, c: real, t: real, d: real, st: real, cd: real, a: real, b: real, u: Vec3, w: Vec3)
    requires Dot(u, u) == 1.0 && st == s * d + c * t && cd == c * d - s * t
    ensures Plus(Turn(1.0, s, 1.0 - c, u, Turn(b, 1.0 - d, b - t, u, w)), Turn(a, 1.0 - c, a - s, u, w))
         == Turn(a + b, 1.0 - cd, a + b - st, u, w)
  {
    hide Turn, Plus, Dot;
    var q := 1.0 * (1.0 - d) + s * b - s * (b - t) - (1.0 - c) * (1.0 - d);
    var r := 1.0 * (b - t) + s * (1.0 - d) + (1.0 - c) * b - (1.0 - c) * (b - t);
    TurnTwice(1.0, s, 1.0 - c, b, 1.0 - d, b - t, b, q, r, u, w);
    TranslationScalars(s, c, t, d, a, b);
    TurnPlus(b, q, r, a, 1.0 - c, a - s, a + b, 1.0 - cd, a + b - st, u, w);
  }

  lemma UnitTwistsAdd(lib: Library, u: Vec3, x: real, y: real, v: Vec3)
    requires lib.Valid() && UnitVector(lib, u)
    ensures Compose(UnitTwistExp(lib, u, x, v), UnitTwistExp(lib, u, y, v)) == UnitTwistExp(lib, u, x + y, v)
  {
    hide UnitTwistExp, RotationExp, Turn, Mul, Apply, Plus, Dot, Norm;
    UnitTwistTurns(lib, u, x, v);
    UnitTwistTurns(lib, u, y, v);
    UnitTwistTurns(lib, u, x + y, v);
    RotationsAdd(lib, u, x, y);
    TranslationsAdd(lib, u, x, y, v);
  }

  /** exp(S a) exp(S b) = exp(S (a + b)), for every screw. */
  lemma TwistsAdd(lib: Library, s: Screw, a: real, b: real)
    requires lib.Valid()
    ensures Compose(TwistExp(lib, s, a), TwistExp(lib, s, b)) == TwistExp(lib, s, a + b)
  {
    var n := Norm(lib, s.angular);
    if n < AXIS_EPSILON {
      SlidesAdd(s.linear, a, b);
    } else {
      hide Compose, TwistExp, UnitTwistExp, Dot, Norm, Over;
      var u, v, x, y := Over(s.angular, n), Over(s.linear, n), Angle(a, n), Angle(b, n);
      assert Angle(a + b, n) == x + y;
      ExpParts(lib, s, a, u, v, x);
      ExpParts(lib, s, b, u, v, y);
      ExpParts(lib, s, a + b, u, v, x + y);
      UnitTwistsAdd(lib, u, x, y, v);
    }
  }

  lemma SlidesAdd(v: Vec3, a: real, b: real)
    ensures Compose(Pose(IDENTITY3, Times(a, v)), Pose(IDENTITY3, Times(b, v))) == Pose(IDENTITY3, Times(a + b, v))
  {
    MulIdentity(IDENTITY3);
    ApplyIdentity(Times(b, v));
    hide Mul, Apply;
  }

  /** exp(S 0) is the identity. */
  lemma TwistAtZero(lib: Library, s: Screw)
    requires lib.Valid()
    ensures TwistExp(lib, s, 0.0) == IDENTITY
  {
    var n := Norm(lib, s.angular);
    if n >= AXIS_EPSILON {
      var u, v := Over(s.angular, n), Over(s.linear, n);
      assert Angle(0.0, n) == 0.0;
      ExpParts(lib, s, 0.0, u, v, 0.0);
      hide Norm, Dot, TwistExp;
      UnitTwistAtZero(lib, u, v);
    } else {
      assert Times(0.0, s.linear) == ORIGIN;
    }
  }

  lemma UnitTwistAtZero(lib: Library, u: Vec3, v: Vec3)
    requires lib.Valid() && UnitVector(lib, u)
    ensures UnitTwistExp(lib, u, 0.0, v) == IDENTITY
  {
    assert Over(u, 1.0) == u;
    UnitTwistTurns(lib, u, 0.0, v);
    NoRotation(u);
    NoTurn(u, v);
    hide UnitTwistExp, SkewPolynomial, Turn, Dot;
  }

  lemma NoRotation(u: Vec3)
    ensures SkewPolynomial(1.0, 0.0, 0.0, u) == IDENTITY3
  {
    hide Mul, Skew;
  }

  lemma NoTurn(u: Vec3, v: Vec3)
    ensures Turn(0.0, 0.0, 0.0, u, v) == ORIGIN
  {
    hide Cross;
  }

  /** Every twist exponential is a rigid motion. */
  lemma TwistIsRigid(lib: Library, s: Screw, q: real)
    requires lib.Valid()
    ensures IsRotation(TwistExp(lib, s, q).rotation)
  {
    hide IsRotation, RotationExp, SkewPolynomial, Apply, Dot, Norm, Angle;
    IdentityIsRotation();
    if Norm(lib, s.angular) >= AXIS_EPSILON {
      RotationExpIsRotation(lib, Over(s.angular, Norm(lib, s.angular)), Angle(q, Norm(lib, s.angular)));
    }
  }

  // ---------------------------------------------------------------------------------------------
  // The adjoint
  // ---------------------------------------------------------------------------------------------

  /** The screw carried along by a transform: adjoint times screw. */
  function Carried(t: Pose, s: Screw): Screw {
    Apply6(Adjoint(t), s)
  }

  /** The carried axis is the rotated axis, and the carried moment is the rotated moment plus the
      moment of the rotated axis through the new origin. */
  lemma CarriedScrew(t: Pose, s: Screw)
    ensures var w := Apply(t.rotation, s.angular);
      Carried(t, s) == Screw(w, Plus(Cross(t.translation, w), Apply(t.rotation, s.linear)))
  {
    ApplyMul(Skew(t.translation), t.rotation, s.angular);
    SkewIsCross(t.translation, Apply(t.rotation, s.angular));
    ApplyZero(s.linear);
    hide Mul, Skew, Cross, Apply;
  }

  lemma ApplyZero(v: Vec3)
    ensures Apply(ZERO3, v) == ORIGIN
  {
  }

  /** A screw whose axis is either absent or long enough to count; the chains below have no others. */
  ghost predicate Proper(lib: Library, s: Screw) {
    s.angular == ORIGIN || Norm(lib, s.angular) >= AXIS_EPSILON
  }

  lemma ApplyOver(m: Mat3, v: Vec3, n: real)
    requires n != 0.0
    ensures Apply(m, Over(v, n)) == Over(Apply(m, v), n)
  {
    DotOver(m.r0, v, n);
    DotOver(m.r1, v, n);
    DotOver(m.r2, v, n);
    hide Dot;
  }

  lemma DotOver(u: Vec3, v: Vec3, n: real)
    requires n != 0.0
    ensures Dot(u, Over(v, n)) == Dot(u, v) / n
  {
    var w, d := Over(v, n), Dot(u, Over(v, n));
    assert v.x == w.x * n && v.y == w.y * n && v.z == w.z * n;
    ScaledDot(u.x, u.y, u.z, w.x, w.y, w.z, v.x, v.y, v.z, n, d);
    assert Dot(u, v) == d * n;
    hide Dot, Over;
  }

  lemma ScaledDot(a: real, b: real, c: real, x: real, y: real, z: real, p: real, q: real, r: real, n: real, d: real)
    requires p == x * n && q == y * n && r == z * n && d == a * x + b * y + c * z
    ensures a * p + b * q + c * r == d * n
  {
  }

  /** A rotation carries a turn about u to the turn about the rotated u. */
  lemma RotatedTurn(m: Mat3, a: real, b: real, c: real, u: Vec3, v: Vec3)
    requires IsRotation(m)
    ensures Apply(m, Turn(a, b, c, u, v)) == Turn(a, b, c, Apply(m, u), Apply(m, v))
  {
    hide IsRotation, Apply, Cross, Comb;
    ApplyLinear(m, a, v, b, Cross(u, v), c, Cross(u, Cross(u, v)));
    RotationKeepsCross(m, u, v);
    RotationKeepsCross(m, u, Cross(u, v));
  }

  lemma RotatedUnit(lib: Library, m: Mat3, u: Vec3)
    requires IsRotation(m) && UnitVector(lib, u)
    ensures UnitVector(lib, Apply(m, u))
  {
    hide IsRotation, Apply, Dot;
    RotationKeepsDot(m, u, u);
  }

  lemma RotationsConjugate(lib: Library, m: Mat3, u: Vec3, angle: real)
    requires lib.Valid() && IsRotation(m) && UnitVector(lib, u)
    ensures Mul(m, RotationExp(lib, u, angle)) == Mul(RotationExp(lib, Apply(m, u), angle), m)
  {
    hide IsRotation, RotationExp, Turn, Mul, Apply, UnitVector;
    var e, f, s, g := RotationExp(lib, u, angle), RotationExp(lib, Apply(m, u), angle), lib.sin(angle), 1.0 - lib.cos(angle);
    RotatedUnit(lib, m, u);
    forall v: Vec3
      ensures Apply(Mul(m, e), v) == Apply(Mul(f, m), v)
    {
      ApplyMul(m, e, v);
      ApplyMul(f, m, v);
      RotationTurns(lib, u, angle, v);
      RotationTurns(lib, Apply(m, u), angle, Apply(m, v));
      RotatedTurn(m, 1.0, s, g, u, v);
    }
    SameOnBasis(Mul(m, e), Mul(f, m));
  }

  /** Turning p and adding the translation of a screw through p gives p back. */
  lemma PointOnAxis(theta: real, s: real, g: real, h: real, u: Vec3, p: Vec3)
    requires Dot(u, u) == 1.0 && h == theta - s
    ensures Plus(Turn(1.0, s, g, u, p), Turn(theta, g, h, u, Cross(p, u))) == p
  {
    var k := Cross(u, p);
    var kk := Cross(u, k);
    CrossAnticommutes(p, u);
    CrossIsPerpendicular(u, p);
    DoubleCross(u, k);
    CrossMinus(u, k);
    CrossMinus(u, kk);
    hide Cross, Dot;
    assert Cross(u, Minus(k)) == Minus(kk) && Cross(u, Minus(kk)) == k;
  }

  lemma TurnAdds(a: real, b: real, c: real, u: Vec3, v: Vec3, w: Vec3)
    ensures Turn(a, b, c, u, Plus(v, w)) == Plus(Turn(a, b, c, u, v), Turn(a, b, c, u, w))
  {
    CrossPlus(u, v, w);
    CrossPlus(u, Cross(u, v), Cross(u, w));
    hide Cross, Comb, Plus;
    CombAdds(a, v, w, b, Cross(u, v), Cross(u, w), c, Cross(u, Cross(u, v)), Cross(u, Cross(u, w)));
  }

  lemma CombAdds(a: real, p: Vec3, q: Vec3, b: real, r: Vec3, s: Vec3, c: real, t: Vec3, u: Vec3)
    ensures Comb(a, Plus(p, q), b, Plus(r, s), c, Plus(t, u)) == Plus(Comb(a, p, b, r, c, t), Comb(a, q, b, s, c, u))
  {
    hide Comb;
    var l, m, n := Plus(p, q), Plus(r, s), Plus(t, u);
    CombAddsX(a, p, q, l, b, r, s, m, c, t, u, n);
    CombAddsY(a, p, q, l, b, r, s, m, c, t, u, n);
    CombAddsZ(a, p, q, l, b, r, s, m, c, t, u, n);
  }

  lemma CombAddsX(a: real, p: Vec3, q: Vec3, l: Vec3, b: real, r: Vec3, s: Vec3, m: Vec3, c: real, t: Vec3, u: Vec3, n: Vec3)
    requires l.x == p.x + q.x && m.x == r.x + s.x && n.x == t.x + u.x
    ensures Comb(a, l, b, m, c, n).x == Comb(a, p, b, r, c, t).x + Comb(a, q, b, s, c, u).x
  {
    AddScalars(a, p.x, q.x, b, r.x, s.x, c, t.x, u.x, l.x, m.x, n.x);
  }

  lemma CombAddsY(a: real, p: Vec3, q: Vec3, l: Vec3, b: real, r: Vec3, s: Vec3, m: Vec3, c: real, t: Vec3, u: Vec3, n: Vec3)
    requires l.y == p.y + q.y && m.y == r.y + s.y && n.y == t.y + u.y
    ensures Comb(a, l, b, m, c, n).y == Comb(a, p, b, r, c, t).y + Comb(a, q, b, s, c, u).y
  {
    AddScalars(a, p.y, q.y, b, r.y, s.y, c, t.y, u.y, l.y, m.y, n.y);
  }

  lemma CombAddsZ(a: real, p: Vec3, q: Vec3, l: Vec3, b: real, r: Vec3, s: Vec3, m: Vec3, c: real, t: Vec3, u: Vec3, n: Vec3)
    requires l.z == p.z + q.z && m.z == r.z + s.z && n.z == t.z + u.z
    ensures Comb(a, l, b, m, c, n).z == Comb(a, p, b, r, c, t).z + Comb(a, q, b, s, c, u).z
  {
    AddScalars(a, p.z, q.z, b, r.z, s.z, c, t.z, u.z, l.z, m.z, n.z);
  }

  lemma AddScalars(a: real, p: real, q: real, b: real, r: real, s: real, c: real, t: real, u: real, l: real, m: real, n: real)
    requires l == p + q && m == r + s && n == t + u
    ensures a * l + b * m + c * n == (a * p + b * r + c * t) + (a * q + b * s + c * u)
  {
  }

  lemma CrossPlus(u: Vec3, v: Vec3, w: Vec3)
    ensures Cross(u, Plus(v, w)) == Plus(Cross(u, v), Cross(u, w))
  {
  }

  lemma CrossOver(p: Vec3, w: Vec3, v: Vec3, n: real)
    requires n != 0.0
    ensures Over(Plus(Cross(p, w), v), n) == Plus(Cross(p, Over(w, n)), Over(v, n))
  {
    hide Over, Plus, Cross, Apply;
    OverPlus(Cross(p, w), v, n);
    SkewIsCross(p, w);
    SkewIsCross(p, Over(w, n));
    ApplyOver(Skew(p), w, n);
  }

  lemma OverPlus(v: Vec3, w: Vec3, n: real)
    requires n != 0.0
    ensures Over(Plus(v, w), n) == Plus(Over(v, n), Over(w, n))
  {
  }

  /** The translation of the carried exponential makes up for turning the frame's own origin. */
  lemma TranslationsConjugate(lib: Library, t: Pose, u: Vec3, theta: real, v: Vec3)
    requires lib.Valid() && IsRotation(t.rotation) && UnitVector(lib, u)
    ensures var (s, g) := (lib.sin(theta), 1.0 - lib.cos(theta));
      var (w, p) := (Apply(t.rotation, u), t.translation);
      Plus(Apply(t.rotation, Turn(theta, g, theta - s, u, v)), p)
      == Plus(Apply(RotationExp(lib, w, theta), p), Turn(theta, g, theta - s, w, Plus(Cross(p, w), Apply(t.rotation, v))))
  {
    var s, g, w, p := lib.sin(theta), 1.0 - lib.cos(theta), Apply(t.rotation, u), t.translation;
    RotatedUnit(lib, t.rotation, u);
    hide Turn, Cross, Plus, Apply, RotationExp, IsRotation, Norm, Dot;
    RotationTurns(lib, w, theta, p);
    RotatedTurn(t.rotation, theta, g, theta - s, u, v);
    TurnAdds(theta, g, theta - s, w, Cross(p, w), Apply(t.rotation, v));
    PointOnAxis(theta, s, g, theta - s, w, p);
    PlusRotates(Turn(1.0, s, g, w, p), Turn(theta, g, theta - s, w, Cross(p, w)),
                Turn(theta, g, theta - s, w, Apply(t.rotation, v)));
  }

  lemma PlusRotates(a: Vec3, b: Vec3, c: Vec3)
    ensures Plus(a, Plus(b, c)) == Plus(c, Plus(a, b))
  {
  }

  lemma UnitTwistsConjugate(lib: Library, t: Pose, u: Vec3, theta: real, v: Vec3)
    requires lib.Valid() && IsRotation(t.rotation) && UnitVector(lib, u)
    ensures var w := Apply(t.rotation, u);
      Compose(t, UnitTwistExp(lib, u, theta, v))
      == Compose(UnitTwistExp(lib, w, theta, Plus(Cross(t.translation, w), Apply(t.rotation, v))), t)
  {
    hide Turn, Cross, Plus, Apply, RotationExp, IsRotation, Norm, Dot, UnitTwistExp, Mul;
    var w := Apply(t.rotation, u);
    UnitTwistTurns(lib, u, theta, v);
    UnitTwistTurns(lib, w, theta, Plus(Cross(t.translation, w), Apply(t.rotation, v)));
    RotationsConjugate(lib, t.rotation, u, theta);
    TranslationsConjugate(lib, t, u, theta, v);
  }

  lemma ApplyOrigin(m: Mat3)
    ensures Apply(m, ORIGIN) == ORIGIN
  {
  }

  lemma ApplyTimes(m: Mat3, a: real, v: Vec3)
    ensures Apply(m, Times(a, v)) == Times(a, Apply(m, v))
  {
    DotTimes(m.r0, a, v);
    DotTimes(m.r1, a, v);
    DotTimes(m.r2, a, v);
    hide Dot;
  }

  lemma DotTimes(u: Vec3, a: real, v: Vec3)
    ensures Dot(u, Times(a, v)) == a * Dot(u, v)
  {
    var w := Times(a, v);
    ScaledDot(u.x, u.y, u.z, v.x, v.y, v.z, w.x, w.y, w.z, a, Dot(u, v));
  }

  lemma SlidesConjugate(t: Pose, v: Vec3, a: real)
    ensures Compose(t, Pose(IDENTITY3, Times(a, v))) == Compose(Pose(IDENTITY3, Times(a, Apply(t.rotation, v))), t)
  {
    MulIdentity(t.rotation);
    ApplyIdentity(t.translation);
    ApplyTimes(t.rotation, a, v);
    hide Mul, Apply;
  }

  /** T exp(S a) = exp(Ad(T) S a) T: moving along a screw and then by T is moving by T and then along
      the carried screw. */
  lemma AdjointConjugates(lib: Library, t: Pose, s: Screw, a: real)
    requires lib.Valid() && IsRotation(t.rotation) && Proper(lib, s)
    ensures Compose(t, TwistExp(lib, s, a)) == Compose(TwistExp(lib, Carried(t, s), a), t)
    ensures Proper(lib, Carried(t, s))
  {
    var w := Apply(t.rotation, s.angular);
    var moment := Plus(Cross(t.translation, w), Apply(t.rotation, s.linear));
    CarriedScrew(t, s);
    RotationKeepsDot(t.rotation, s.angular, s.angular);
    assert Norm(lib, w) == Norm(lib, s.angular);
    hide Carried, IsRotation;
    if Norm(lib, s.angular) >= AXIS_EPSILON {
      var n := Norm(lib, s.angular);
      var u, v, theta := Over(s.angular, n), Over(s.linear, n), Angle(a, n);
      hide Norm, Dot, Compose, Angle, UnitTwistExp, TwistExp, Over, Plus, Cross, Apply;
      ExpParts(lib, s, a, u, v, theta);
      ExpParts(lib, Screw(w, moment), a, Over(w, n), Over(moment, n), theta);
      ApplyOver(t.rotation, s.angular, n);
      ApplyOver(t.rotation, s.linear, n);
      CrossOver(t.translation, w, Apply(t.rotation, s.linear), n);
      UnitTwistsConjugate(lib, t, u, theta, v);
    } else {
      assert w == ORIGIN && moment == Apply(t.rotation, s.linear) by { ApplyOrigin(t.rotation); }
      hide Norm, Dot, Compose, Plus, Cross, Apply;
      SlidesConjugate(t, s.linear, a);
    }
  }
}
