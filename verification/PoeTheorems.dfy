/** What the product of exponentials computes: the pose of the chain, rigid, with its true Jacobian. */
module PoeTheorems {
  import opened Prelude
  import opened Geometry
  import opened Matrices
  import opened Twists
  import opened TwistTheorems
  import opened UrdfChain
  import opened Poe

  // ---------------------------------------------------------------------------------------------
  // SE(3)
  // ---------------------------------------------------------------------------------------------

  lemma {:induction false} ProductIsRigid(lib: Library, screws: seq<Screw>, q: seq<real>, k: nat)
    requires lib.Valid() && k <= |screws| && k <= |q|
    ensures IsRotation(Product(lib, screws, q, k).rotation)
  {
    hide IsRotation, Compose, TwistExp;
    if k == 0 {
      IdentityIsRotation();
    } else {
      ProductIsRigid(lib, screws, q, k - 1);
      TwistIsRigid(lib, screws[k - 1], q[k - 1]);
      ProductOfPoses(Product(lib, screws, q, k - 1), TwistExp(lib, screws[k - 1], q[k - 1]));
    }
  }

  lemma {:induction false} PlacedIsRigid(chain: seq<UrdfJoint>, k: nat)
    requires k <= |chain| && forall j | j in chain :: IsRotation(j.origin.rotation)
    ensures IsRotation(Placed(chain, k).rotation)
  {
    hide IsRotation, Compose;
    if k == 0 {
      IdentityIsRotation();
    } else {
      PlacedIsRigid(chain, k - 1);
      ProductOfPoses(Placed(chain, k - 1), chain[k - 1].origin);
    }
  }

  /** Forward kinematics of a parsed chain is always a rigid transform, so the guard on its matrix
      never rejects it. */
  lemma {:induction false} FkIsRigid(lib: Library, chain: seq<UrdfJoint>, q: seq<real>)
    requires lib.Valid() && Usable(lib, chain, |chain|) && Count(chain, |chain|) == DOF && |q| == DOF
    requires forall j | j in chain :: IsRotation(j.origin.rotation)
    ensures var pose := FkPose(lib, Screws(lib, chain, |chain|), Placed(chain, |chain|), q);
      IsRotation(pose.rotation) && GuardAccepts(Homogeneous(pose))
  {
    var screws, home := Screws(lib, chain, |chain|), Placed(chain, |chain|);
    ProductIsRigid(lib, screws, q, DOF);
    PlacedIsRigid(chain, |chain|);
    hide IsRotation, Compose, Usable, GuardAccepts, Homogeneous;
    ProductOfPoses(Product(lib, screws, q, DOF), home);
    RotationsPassTheGuard(FkPose(lib, screws, home, q));
  }

  /** At zero every exponential is the identity, so the pose is the home transform. */
  lemma {:induction false} ProductAtZero(lib: Library, screws: seq<Screw>, q: seq<real>, k: nat)
    requires lib.Valid() && k <= |screws| && k <= |q| && forall i | 0 <= i < k :: q[i] == 0.0
    ensures Product(lib, screws, q, k) == IDENTITY
  {
    hide Compose, TwistExp;
    if k > 0 {
      ProductAtZero(lib, screws, q, k - 1);
      TwistAtZero(lib, screws[k - 1]);
      ComposeIdentity(IDENTITY);
    }
  }

  lemma FkAtZeroIsHome(lib: Library, screws: seq<Screw>, home: Pose, q: seq<real>)
    requires lib.Valid() && |screws| == DOF && |q| == DOF && forall i | 0 <= i < DOF :: q[i] == 0.0
    ensures FkPose(lib, screws, home, q) == home
  {
    hide Compose;
    ProductAtZero(lib, screws, q, DOF);
    ComposeIdentity(home);
  }

  // ---------------------------------------------------------------------------------------------
  // The product of exponentials is the pose of the chain
  // ---------------------------------------------------------------------------------------------

  /** What a joint does to the frame below it, from the URDF: turn about or slide along its own axis. */
  function Motion(lib: Library, j: UrdfJoint, q: real): Pose
    requires j.kind == Prismatic ==> Norm(lib, j.axis) != 0.0
  {
    match j.kind
    case Revolute => Pose(RotationExp(lib, j.axis, q), ORIGIN)
    case Continuous => Pose(RotationExp(lib, j.axis, q), ORIGIN)
    case Prismatic => Pose(IDENTITY3, Times(q, Over(j.axis, Norm(lib, j.axis))))
    case _ => IDENTITY
  }

  predicate HasAxis(lib: Library, j: UrdfJoint) {
    Actuated(j) ==> Norm(lib, j.axis) >= AXIS_EPSILON
  }

  /** Forward kinematics by the definition of a chain: origin, motion, origin, motion, ... */
  function ChainPose(lib: Library, chain: seq<UrdfJoint>, q: seq<real>, k: nat): Pose
    requires k <= |chain| && Count(chain, k) <= |q| && forall j | j in chain[..k] :: HasAxis(lib, j)
  {
    if k == 0 then IDENTITY
    else
      var j := chain[k - 1];
      assert chain[..k][k - 1] == j && HasAxis(lib, j);
      assert forall i | i in chain[..k - 1] :: i in chain[..k];
      var placed := Compose(ChainPose(lib, chain, q, k - 1), j.origin);
      if Actuated(j) then Compose(placed, Motion(lib, j, q[Count(chain, k - 1)])) else placed
  }

  /** The screw of a joint in its own frame. */
  function LocalScrew(lib: Library, j: UrdfJoint): Screw
    requires Norm(lib, j.axis) >= AXIS_EPSILON
  {
    var unit := Over(j.axis, Norm(lib, j.axis));
    if j.kind == Prismatic then Screw(ORIGIN, unit) else Screw(unit, ORIGIN)
  }

  lemma NormOfOrigin(lib: Library)
    requires lib.Valid()
    ensures Norm(lib, ORIGIN) == 0.0
  {
    assert lib.RootLaw(0.0);
    SquareIsZero(lib.sqrt(0.0), 0.0);
  }

  lemma TurnIsTwist(lib: Library, u: Vec3, q: real)
    requires lib.Valid() && UnitVector(lib, u)
    ensures TwistExp(lib, Screw(u, ORIGIN), q) == Pose(RotationExp(lib, u, q), ORIGIN)
  {
    assert Over(u, 1.0) == u && Over(ORIGIN, 1.0) == ORIGIN && Angle(q, 1.0) == q;
    hide RotationExp, SkewPolynomial, Angle, Over, Apply, Norm;
    ApplyOrigin(SkewPolynomial(q, 1.0 - lib.cos(q), q - lib.sin(q), u));
  }

  lemma SameRotation(lib: Library, axis: Vec3, u: Vec3, q: real)
    requires lib.Valid() && Norm(lib, axis) >= AXIS_EPSILON && u == Over(axis, Norm(lib, axis))
    ensures UnitVector(lib, u) && RotationExp(lib, axis, q) == RotationExp(lib, u, q)
  {
    hide SkewPolynomial, Dot, Norm;
    UnitAxis(lib, axis);
  }

  /** A joint's motion is the exponential of its local screw. */
  lemma MotionIsTwist(lib: Library, j: UrdfJoint, q: real)
    requires lib.Valid() && Actuated(j) && Norm(lib, j.axis) >= AXIS_EPSILON
    ensures Motion(lib, j, q) == TwistExp(lib, LocalScrew(lib, j), q)
    ensures Proper(lib, LocalScrew(lib, j))
  {
    if j.kind == Prismatic {
      NormOfOrigin(lib);
      hide Norm, RotationExp, UnitTwistExp;
    } else {
      var u := Over(j.axis, Norm(lib, j.axis));
      hide Norm, RotationExp, TwistExp, Dot;
      SameRotation(lib, j.axis, u, q);
      TurnIsTwist(lib, u, q);
    }
  }

  /** The screw that the chain builder computes is the local screw carried by the joint's frame. */
  lemma ScrewIsCarried(lib: Library, frame: Pose, j: UrdfJoint)
    requires lib.Valid() && Actuated(j) && JointError(lib, frame, j).None? && IsRotation(frame.rotation)
    ensures Norm(lib, j.axis) >= AXIS_EPSILON
    ensures JointScrew(lib, frame, j) == Carried(frame, LocalScrew(lib, j))
  {
    var n := Norm(lib, j.axis);
    RotationKeepsDot(frame.rotation, j.axis, j.axis);
    assert Norm(lib, Apply(frame.rotation, j.axis)) == n;
    ApplyOver(frame.rotation, j.axis, n);
    CarriedScrew(frame, LocalScrew(lib, j));
    ApplyOrigin(frame.rotation);
    var w := Apply(frame.rotation, Over(j.axis, n));
    CrossAnticommutes(frame.translation, w);
    assert Cross(frame.translation, ORIGIN) == ORIGIN;
    PlusOrigin(Cross(frame.translation, w));
    PlusOrigin(w);
    hide Carried, Apply, Norm, IsRotation, Over, Cross, Plus, Minus, Dot;
  }

  lemma PlusOrigin(v: Vec3)
    ensures Plus(v, ORIGIN) == v && Plus(ORIGIN, v) == v
  {
  }

  /** Placing a joint and then moving it is moving along its space screw and then placing it. */
  lemma PlaceThenMove(lib: Library, frame: Pose, j: UrdfJoint, q: real)
    requires lib.Valid() && Actuated(j) && JointError(lib, frame, j).None? && IsRotation(frame.rotation)
    ensures HasAxis(lib, j)
    ensures Compose(frame, Motion(lib, j, q)) == Compose(TwistExp(lib, JointScrew(lib, frame, j), q), frame)
  {
    ScrewIsCarried(lib, frame, j);
    hide JointScrew, JointError, IsRotation, Compose, TwistExp, Carried, LocalScrew, Motion, Norm;
    MotionIsTwist(lib, j, q);
    AdjointConjugates(lib, frame, LocalScrew(lib, j), q);
  }

  lemma {:induction false} UsableHaveAxes(lib: Library, chain: seq<UrdfJoint>, k: nat)
    requires lib.Valid() && k <= |chain| && Usable(lib, chain, k) && forall j | j in chain :: IsRotation(j.origin.rotation)
    ensures forall j | j in chain[..k] :: HasAxis(lib, j)
  {
    hide JointError, IsRotation, HasAxis, Placed;
    forall j | j in chain[..k]
      ensures HasAxis(lib, j)
    {
      var i :| 0 <= i < k && chain[i] == j;
      PlacedIsRigid(chain, i + 1);
      if Actuated(j) {
        ScrewIsCarried(lib, Placed(chain, i + 1), j);
      }
      AxisGiven(lib, j);
    }
  }

  lemma AxisGiven(lib: Library, j: UrdfJoint)
    requires Actuated(j) ==> Norm(lib, j.axis) >= AXIS_EPSILON
    ensures HasAxis(lib, j)
  {
  }

  /** For all joint values, the exponentials of the space screws times the home transform are the
      product of the chain's own origins and joint motions. */
  lemma {:induction false} PoeIsChain(lib: Library, chain: seq<UrdfJoint>, q: seq<real>, k: nat)
    requires lib.Valid() && k <= |chain| && Usable(lib, chain, k) && forall j | j in chain :: IsRotation(j.origin.rotation)
    requires Count(chain, k) <= |q|
    ensures forall j | j in chain[..k] :: HasAxis(lib, j)
    ensures ChainPose(lib, chain, q, k) == Compose(Product(lib, Screws(lib, chain, k), q, Count(chain, k)), Placed(chain, k))
    decreases k
  {
    UsableHaveAxes(lib, chain, k);
    hide Compose, IsRotation, HasAxis, JointError, Motion;
    if k == 0 {
      ComposeIdentity(IDENTITY);
    } else {
      PoeIsChain(lib, chain, q, k - 1);
      var j, c := chain[k - 1], Count(chain, k - 1);
      var before, placed := Product(lib, Screws(lib, chain, k - 1), q, c), Placed(chain, k - 1);
      ComposeAssociates(before, placed, j.origin);
      assert Placed(chain, k) == Compose(placed, j.origin);
      PlacedIsRigid(chain, k);
      assert JointError(lib, Placed(chain, k - 1 + 1), chain[k - 1]).None?;
      if Actuated(j) {
        ChainStep(lib, chain, q, k, before);
      }
    }
  }

  lemma ChainStep(lib: Library, chain: seq<UrdfJoint>, q: seq<real>, k: nat, before: Pose)
    requires lib.Valid() && 0 < k <= |chain| && Usable(lib, chain, k) && Actuated(chain[k - 1])
    requires IsRotation(Placed(chain, k).rotation) && Count(chain, k) <= |q| && JointError(lib, Placed(chain, k), chain[k - 1]).None?
    requires before == Product(lib, Screws(lib, chain, k - 1), q, Count(chain, k - 1))
    ensures HasAxis(lib, chain[k - 1])
    ensures Compose(Compose(before, Placed(chain, k)), Motion(lib, chain[k - 1], q[Count(chain, k - 1)]))
         == Compose(Product(lib, Screws(lib, chain, k), q, Count(chain, k)), Placed(chain, k))
  {
    hide Compose, IsRotation, JointError, Motion, JointScrew, TwistExp, Placed, Screws, HasAxis, Usable;
    var j, c, frame := chain[k - 1], Count(chain, k - 1), Placed(chain, k);
    LastScrew(lib, chain, k);
    var screws, shorter := Screws(lib, chain, k), Screws(lib, chain, k - 1);
    PlaceThenMove(lib, frame, j, q[c]);
    AxisOf(lib, j);
    ProductOfPrefix(lib, shorter, screws, q, c);
    ComposeAssociates(before, frame, Motion(lib, j, q[c]));
    ComposeAssociates(before, TwistExp(lib, screws[c], q[c]), frame);
  }

  lemma AxisOf(lib: Library, j: UrdfJoint)
    requires Actuated(j) && HasAxis(lib, j)
    ensures Norm(lib, j.axis) >= AXIS_EPSILON
  {
  }

  lemma LastScrew(lib: Library, chain: seq<UrdfJoint>, k: nat)
    requires 0 < k <= |chain| && Usable(lib, chain, k) && Actuated(chain[k - 1])
    requires JointError(lib, Placed(chain, k), chain[k - 1]).None?
    ensures Usable(lib, chain, k - 1)
    ensures Screws(lib, chain, k) == Screws(lib, chain, k - 1) + [JointScrew(lib, Placed(chain, k), chain[k - 1])]
  {
  }

  lemma {:induction false} ProductOfPrefix(lib: Library, shorter: seq<Screw>, screws: seq<Screw>, q: seq<real>, k: nat)
    requires k <= |shorter| && k <= |q| && shorter <= screws
    ensures Product(lib, shorter, q, k) == Product(lib, screws, q, k)
  {
    hide Compose, TwistExp;
    if k > 0 {
      ProductOfPrefix(lib, shorter, screws, q, k - 1);
    }
  }

  // ---------------------------------------------------------------------------------------------
  // The Jacobian
  // ---------------------------------------------------------------------------------------------

  /** Column j for a revolute joint with axis w through the point p: the carried axis, and its moment
      about the end point. */
  lemma {:induction false} RevoluteColumn(lib: Library, screws: seq<Screw>, home: Pose, q: seq<real>, j: nat, w: Vec3, p: Vec3)
    requires lib.Valid() && |screws| == DOF && |q| == DOF && j < DOF && screws[j] == Screw(w, Minus(Cross(w, p)))
    ensures var (before, end) := (Product(lib, screws, q, j), FkPose(lib, screws, home, q).translation);
      var axis := Apply(before.rotation, w);
      GeometricColumn(Carried(before, screws[j]), end) == Screw(axis, Cross(axis, Less(end, Move(before, p))))
  {
    ProductIsRigid(lib, screws, q, j);
    hide Product, FkPose, IsRotation, Carried;
    var before, end := Product(lib, screws, q, j), FkPose(lib, screws, home, q).translation;
    var axis, r := Apply(before.rotation, w), Apply(before.rotation, p);
    CarriedScrew(before, screws[j]);
    RotationKeepsCross(before.rotation, w, p);
    ApplyMinus(before.rotation, Cross(w, p));
    hide Apply;
    MomentAboutEnd(axis, r, before.translation, end);
  }

  lemma ApplyMinus(m: Mat3, v: Vec3)
    ensures Apply(m, Minus(v)) == Minus(Apply(m, v))
  {
  }

  lemma MomentAboutEnd(w: Vec3, r: Vec3, p: Vec3, end: Vec3)
    ensures Plus(Plus(Cross(p, w), Minus(Cross(w, r))), Cross(w, end)) == Cross(w, Less(end, Plus(r, p)))
  {
    MomentEntry(w.y, w.z, r.y, r.z, p.y, p.z, end.y, end.z);
    MomentEntry(w.z, w.x, r.z, r.x, p.z, p.x, end.z, end.x);
    MomentEntry(w.x, w.y, r.x, r.y, p.x, p.y, end.x, end.y);
  }

  lemma MomentEntry(a: real, b: real, r: real, s: real, p: real, q: real, e: real, f: real)
    ensures ((p * b - q * a) + -(a * s - b * r)) + (a * f - b * e) == a * (f - (s + q)) - b * (e - (r + p))
  {
  }

  /** Column j for a prismatic joint along v: no rotation, and the carried axis. */
  lemma {:induction false} PrismaticColumn(lib: Library, screws: seq<Screw>, home: Pose, q: seq<real>, j: nat, v: Vec3)
    requires |screws| == DOF && |q| == DOF && j < DOF && screws[j] == Screw(ORIGIN, v)
    ensures var (before, end) := (Product(lib, screws, q, j), FkPose(lib, screws, home, q).translation);
      GeometricColumn(Carried(before, screws[j]), end) == Screw(ORIGIN, Apply(before.rotation, v))
  {
    hide Product, FkPose, Carried;
    var before, end := Product(lib, screws, q, j), FkPose(lib, screws, home, q).translation;
    CarriedScrew(before, screws[j]);
    ApplyOrigin(before.rotation);
    hide Apply;
    PlusOrigin(Apply(before.rotation, v));
    assert Cross(before.translation, ORIGIN) == ORIGIN && Cross(ORIGIN, end) == ORIGIN;
  }

  lemma {:induction false} ScrewOfJoint(lib: Library, chain: seq<UrdfJoint>, k: nat, n: nat)
    requires 0 < k <= n <= |chain| && Usable(lib, chain, n) && Actuated(chain[k - 1])
    ensures Count(chain, k - 1) < Count(chain, n)
    ensures JointError(lib, Placed(chain, k), chain[k - 1]).None?
    ensures Screws(lib, chain, n)[Count(chain, k - 1)] == JointScrew(lib, Placed(chain, k), chain[k - 1])
    decreases n
  {
    hide JointError, JointScrew, Placed;
    assert JointError(lib, Placed(chain, k - 1 + 1), chain[k - 1]).None?;
    if k < n {
      ScrewOfJoint(lib, chain, k, n - 1);
    }
  }

  /** The frame of an actuated joint, just above its own motion, at these joint values. */
  function JointFrame(lib: Library, chain: seq<UrdfJoint>, q: seq<real>, k: nat): Pose
    requires 0 < k <= |chain| && Count(chain, k - 1) <= |q| && forall j | j in chain[..k - 1] :: HasAxis(lib, j)
  {
    Compose(ChainPose(lib, chain, q, k - 1), chain[k - 1].origin)
  }

  /** The column of a joint in terms of the frame that carries it. */
  function ColumnIn(frame: Pose, unit: Vec3, kind: JointKind, end: Vec3): Screw {
    var axis := Apply(frame.rotation, unit);
    if kind == Prismatic then Screw(ORIGIN, axis) else Screw(axis, Cross(axis, Less(end, frame.translation)))
  }

  lemma {:induction false} ColumnOfScrew(lib: Library, screws: seq<Screw>, home: Pose, q: seq<real>, c: nat, placed: Pose, j: UrdfJoint)
    requires lib.Valid() && |screws| == DOF && |q| == DOF && c < DOF
    requires Actuated(j) && JointError(lib, placed, j).None? && IsRotation(placed.rotation)
    requires screws[c] == JointScrew(lib, placed, j)
    ensures Norm(lib, j.axis) >= AXIS_EPSILON
    ensures var (before, end) := (Product(lib, screws, q, c), FkPose(lib, screws, home, q).translation);
      GeometricColumn(Carried(before, screws[c]), end)
      == ColumnIn(Compose(before, placed), Over(j.axis, Norm(lib, j.axis)), j.kind, end)
  {
    hide Compose, Product, FkPose, Carried, GeometricColumn, Apply, Norm, Cross, Minus, Less, Move, IsRotation, Over, JointError;
    ScrewIsCarried(lib, placed, j);
    AxisInFrame(lib, Product(lib, screws, q, c), placed, j);
    var axis := Apply(placed.rotation, j.axis);
    var unit := Over(axis, Norm(lib, axis));
    if j.kind == Prismatic {
      PrismaticColumn(lib, screws, home, q, c, unit);
    } else {
      RevoluteColumn(lib, screws, home, q, c, unit, placed.translation);
    }
  }

  lemma FrameOfJoint(lib: Library, chain: seq<UrdfJoint>, q: seq<real>, k: nat, n: nat)
    requires lib.Valid() && 0 < k <= n <= |chain| && Usable(lib, chain, n)
    requires forall j | j in chain :: IsRotation(j.origin.rotation)
    requires Count(chain, k - 1) <= Count(chain, n) <= |q|
    ensures forall j | j in chain[..k - 1] :: HasAxis(lib, j)
    ensures JointFrame(lib, chain, q, k)
         == Compose(Product(lib, Screws(lib, chain, n), q, Count(chain, k - 1)), Placed(chain, k))
  {
    hide Compose, Screws, IsRotation, JointError, HasAxis, ChainPose, Product;
    PoeIsChain(lib, chain, q, k - 1);
    ScrewsExtend(lib, chain, k - 1, n);
    var c, screws := Count(chain, k - 1), Screws(lib, chain, n);
    ProductOfPrefix(lib, Screws(lib, chain, k - 1), screws, q, c);
    ComposeAssociates(Product(lib, screws, q, c), Placed(chain, k - 1), chain[k - 1].origin);
  }

  /** In the terms of the URDF: the column of a revolute joint is its axis in its present frame and the
      moment of that axis about the end link; that of a prismatic joint is only its axis, linear. */
  lemma {:induction false} ColumnOfJoint(lib: Library, chain: seq<UrdfJoint>, q: seq<real>, k: nat)
    requires lib.Valid() && 0 < k <= |chain| && Usable(lib, chain, |chain|) && Actuated(chain[k - 1])
    requires forall j | j in chain :: IsRotation(j.origin.rotation)
    requires Count(chain, |chain|) == DOF && |q| == DOF
    ensures Count(chain, k - 1) < DOF && Norm(lib, chain[k - 1].axis) >= AXIS_EPSILON
    ensures (forall j | j in chain[..k - 1] :: HasAxis(lib, j)) && (forall j | j in chain[..|chain|] :: HasAxis(lib, j))
    ensures var (screws, c, j) := (Screws(lib, chain, |chain|), Count(chain, k - 1), chain[k - 1]);
      GeometricColumn(Carried(Product(lib, screws, q, c), screws[c]), FkPose(lib, screws, Placed(chain, |chain|), q).translation)
      == ColumnIn(JointFrame(lib, chain, q, k), Over(j.axis, Norm(lib, j.axis)), j.kind,
                  ChainPose(lib, chain, q, |chain|).translation)
  {
    hide Compose, Product, Carried, GeometricColumn, Placed, ChainPose, JointFrame, Norm, Over, ColumnIn, IsRotation,
      Usable, JointError, JointScrew, Screws, HasAxis, Count;
    ScrewOfJoint(lib, chain, k, |chain|);
    PlacedIsRigid(chain, k);
    FrameOfJoint(lib, chain, q, k, |chain|);
    PoeIsChain(lib, chain, q, |chain|);
    ColumnOfScrew(lib, Screws(lib, chain, |chain|), Placed(chain, |chain|), q, Count(chain, k - 1), Placed(chain, k),
                  chain[k - 1]);
  }

  /** The unit axis seen through both frames, and the point the frame is placed at. */
  lemma AxisInFrame(lib: Library, before: Pose, placed: Pose, j: UrdfJoint)
    requires lib.Valid() && IsRotation(placed.rotation) && Norm(lib, j.axis) >= AXIS_EPSILON
    ensures var axis := Apply(placed.rotation, j.axis);
      && Norm(lib, axis) == Norm(lib, j.axis)
      && Apply(before.rotation, Over(axis, Norm(lib, axis)))
         == Apply(Compose(before, placed).rotation, Over(j.axis, Norm(lib, j.axis)))
      && Move(before, placed.translation) == Compose(before, placed).translation
  {
    var n := Norm(lib, j.axis);
    RotationKeepsDot(placed.rotation, j.axis, j.axis);
    assert Norm(lib, Apply(placed.rotation, j.axis)) == n;
    ApplyOver(placed.rotation, j.axis, n);
    ApplyMul(before.rotation, placed.rotation, Over(j.axis, n));
    hide Apply, Over, Norm, Mul;
  }

  lemma {:induction false} ScrewsExtend(lib: Library, chain: seq<UrdfJoint>, k: nat, n: nat)
    requires k <= n <= |chain| && Usable(lib, chain, n)
    ensures Screws(lib, chain, k) <= Screws(lib, chain, n)
    decreases n
  {
    if k < n {
      ScrewsExtend(lib, chain, k, n - 1);
    }
  }

  lemma JointScrewIsProper(lib: Library, frame: Pose, j: UrdfJoint)
    requires lib.Valid() && Actuated(j) && JointError(lib, frame, j).None? && IsRotation(frame.rotation)
    ensures Proper(lib, JointScrew(lib, frame, j))
  {
    ScrewIsCarried(lib, frame, j);
    hide JointScrew, Motion, TwistExp, Proper, IsRotation, Carried, LocalScrew, Norm, Compose;
    MotionIsTwist(lib, j, 0.0);
    AdjointConjugates(lib, frame, LocalScrew(lib, j), 0.0);
  }

  /** The screws of a chain have an axis of full length or none. */
  lemma {:induction false} ScrewsAreProper(lib: Library, chain: seq<UrdfJoint>, k: nat)
    requires lib.Valid() && k <= |chain| && Usable(lib, chain, k) && forall j | j in chain :: IsRotation(j.origin.rotation)
    ensures forall s | s in Screws(lib, chain, k) :: Proper(lib, s)
  {
    hide IsRotation, JointScrew, Proper, JointError;
    if k > 0 {
      ScrewsAreProper(lib, chain, k - 1);
      assert JointError(lib, Placed(chain, k - 1 + 1), chain[k - 1]).None?;
      PlacedIsRigid(chain, k);
      if Actuated(chain[k - 1]) {
        hide Placed;
        JointScrewIsProper(lib, Placed(chain, k), chain[k - 1]);
      }
    }
  }

  /** Moving joint j alone by a moves the end link by the exponential of column j of the space
      Jacobian: the Jacobian describes the motion exactly, not only to first order. */
  lemma {:induction false} JointMotion(lib: Library, screws: seq<Screw>, home: Pose, q: seq<real>, j: nat, a: real)
    requires lib.Valid() && |screws| == DOF && |q| == DOF && j < DOF && Proper(lib, screws[j])
    ensures FkPose(lib, screws, home, q[j := q[j] + a])
         == Compose(TwistExp(lib, Carried(Product(lib, screws, q, j), screws[j]), a), FkPose(lib, screws, home, q))
  {
    hide Compose, TwistExp, Carried, Proper;
    var moved, before := q[j := q[j] + a], Product(lib, screws, q, j);
    var column, e := TwistExp(lib, Carried(before, screws[j]), a), TwistExp(lib, screws[j], q[j]);
    SameProduct(lib, screws, q, moved, j);
    TwistsAdd(lib, screws[j], a, q[j]);
    assert a + q[j] == moved[j];
    ProductIsRigid(lib, screws, q, j);
    AdjointConjugates(lib, before, screws[j], a);
    ComposeAssociates(before, TwistExp(lib, screws[j], a), e);
    ComposeAssociates(column, before, e);
    SameFactorsAfter(lib, screws, q, moved, column, j + 1, DOF);
    ComposeAssociates(column, Product(lib, screws, q, DOF), home);
  }

  /** A factor in front of the first i exponentials stays in front when the later ones agree. */
  lemma {:induction false} SameFactorsAfter(lib: Library, screws: seq<Screw>, q: seq<real>, moved: seq<real>, column: Pose,
                                            i: nat, k: nat)
    requires i <= k <= |screws| && k <= |q| && k <= |moved| && q[i..k] == moved[i..k]
    requires Product(lib, screws, moved, i) == Compose(column, Product(lib, screws, q, i))
    ensures Product(lib, screws, moved, k) == Compose(column, Product(lib, screws, q, k))
    decreases k
  {
    hide Compose, TwistExp;
    if i < k {
      assert q[i..k - 1] == q[i..k][..k - 1 - i] && moved[i..k - 1] == moved[i..k][..k - 1 - i];
      assert q[k - 1] == q[i..k][k - 1 - i] && moved[k - 1] == moved[i..k][k - 1 - i];
      SameFactorsAfter(lib, screws, q, moved, column, i, k - 1);
      ComposeAssociates(column, Product(lib, screws, q, k - 1), TwistExp(lib, screws[k - 1], q[k - 1]));
    }
  }

  lemma {:induction false} SameProduct(lib: Library, screws: seq<Screw>, q: seq<real>, r: seq<real>, k: nat)
    requires k <= |screws| && k <= |q| && k <= |r| && q[..k] == r[..k]
    ensures Product(lib, screws, q, k) == Product(lib, screws, r, k)
  {
    hide Compose, TwistExp;
    if k > 0 {
      assert q[..k - 1] == q[..k][..k - 1] && r[..k - 1] == r[..k][..k - 1];
      assert q[k - 1] == q[..k][k - 1] && r[k - 1] == r[..k][k - 1];
      SameProduct(lib, screws, q, r, k - 1);
    }
  }
}
