/**
 Product-of-exponentials kinematics (poe.py): screw axes and home transform of a chain, forward
 kinematics and the Jacobians.
 */
module Poe {
  import opened Prelude
  import opened Geometry
  import opened Twists
  import opened TwistTheorems
  import opened UrdfChain

  const DOF := 6

  // ---------------------------------------------------------------------------------------------
  // Screw axes of a chain
  // ---------------------------------------------------------------------------------------------

  predicate Actuated(j: UrdfJoint) {
    j.kind in {Revolute, Continuous, Prismatic}
  }

  /** The frame of joint k - 1 at zero: the product of the first k origins. */
  function Placed(chain: seq<UrdfJoint>, k: nat): Pose
    requires k <= |chain|
  {
    if k == 0 then IDENTITY else Compose(Placed(chain, k - 1), chain[k - 1].origin)
  }

  /** Why a joint in this frame cannot be used, if it cannot. */
  function JointError(lib: Library, frame: Pose, j: UrdfJoint): Option<ChainError> {
    if Actuated(j) then
      if j.limit.None? then Some(NoCanonicalLimits(j.name))
      else if Norm(lib, Apply(frame.rotation, j.axis)) < AXIS_EPSILON then Some(ZeroAxis(j.name))
      else None
    else if j.kind != Fixed then Some(UnsupportedJoint(j.name))
    else None
  }

  function JointScrew(lib: Library, frame: Pose, j: UrdfJoint): Screw
    requires Actuated(j) && JointError(lib, frame, j).None?
  {
    var axis := Apply(frame.rotation, j.axis);
    var unit := Over(axis, Norm(lib, axis));
    if j.kind == Prismatic then Screw(ORIGIN, unit)
    else Screw(unit, Minus(Cross(unit, frame.translation)))
  }

  predicate Usable(lib: Library, chain: seq<UrdfJoint>, k: nat)
    requires k <= |chain|
  {
    forall i | 0 <= i < k :: JointError(lib, Placed(chain, i + 1), chain[i]).None?
  }

  /** Screws of the actuated joints among the first k. */
  function Screws(lib: Library, chain: seq<UrdfJoint>, k: nat): (screws: seq<Screw>)
    requires k <= |chain| && Usable(lib, chain, k)
    ensures |screws| == Count(chain, k)
  {
    if k == 0 then []
    else
      var before := Screws(lib, chain, k - 1);
      if Actuated(chain[k - 1]) then before + [JointScrew(lib, Placed(chain, k), chain[k - 1])] else before
  }

  function Count(chain: seq<UrdfJoint>, k: nat): nat
    requires k <= |chain|
  {
    if k == 0 then 0 else Count(chain, k - 1) + (if Actuated(chain[k - 1]) then 1 else 0)
  }

  function ActuatedNames(chain: seq<UrdfJoint>, k: nat): (names: seq<string>)
    requires k <= |chain|
    ensures |names| == Count(chain, k)
  {
    if k == 0 then []
    else ActuatedNames(chain, k - 1) + (if Actuated(chain[k - 1]) then [chain[k - 1].name] else [])
  }

  function Limits(lib: Library, chain: seq<UrdfJoint>, k: nat): (limits: seq<(real, real)>)
    requires k <= |chain| && Usable(lib, chain, k)
    ensures |limits| == Count(chain, k)
  {
    if k == 0 then []
    else
      var before := Limits(lib, chain, k - 1);
      assert JointError(lib, Placed(chain, k - 1 + 1), chain[k - 1]).None?;
      if Actuated(chain[k - 1]) then before + [chain[k - 1].limit.value] else before
  }

  /** The product of the first k exponentials. */
  function Product(lib: Library, screws: seq<Screw>, q: seq<real>, k: nat): Pose
    requires k <= |screws| && k <= |q|
  {
    if k == 0 then IDENTITY else Compose(Product(lib, screws, q, k - 1), TwistExp(lib, screws[k - 1], q[k - 1]))
  }

  /** The pose that the six exponentials and the home transform define. */
  function FkPose(lib: Library, screws: seq<Screw>, home: Pose, q: seq<real>): Pose
    requires |screws| == DOF && |q| == DOF
  {
    Compose(Product(lib, screws, q, DOF), home)
  }

  /** The constructed kinematics never change. */
  datatype PoeKinematics = PoeKinematics(lib: Library, screws: seq<Screw>, home: Pose, limits: seq<(real, real)>)
  {
    predicate Valid() {
      |screws| == DOF && |limits| == DOF
    }

    /** Forward kinematics; None is the wrong number of joint values. */
    method FkMatrix(q: seq<real>) returns (r: Option<Pose>)
      requires Valid()
      ensures r == if |q| == DOF then Some(FkPose(lib, screws, home, q)) else None
    {
      if |q| != DOF {
        return None;
      }
      hide Compose, TwistExp;
      var transform := IDENTITY;
      for i := 0 to DOF
        invariant transform == Product(lib, screws, q, i)
      {
        transform := Compose(transform, TwistExp(lib, screws[i], q[i]));
      }
      return Some(Compose(transform, home));
    }

    /** The space Jacobian: column j is screw j carried by the exponentials before it. */
    method SpaceJacobian(q: seq<real>) returns (r: Option<seq<Screw>>)
      requires Valid()
      ensures r.Some? <==> |q| == DOF
      ensures r.Some? ==> |r.value| == DOF && forall j | 0 <= j < DOF ::
                r.value[j] == Carried(Product(lib, screws, q, j), screws[j])
    {
      if |q| != DOF {
        return None;
      }
      CarriedByIdentity(screws[0]);
      hide Compose, TwistExp, Carried;
      var columns := [screws[0]];
      var transform := IDENTITY;
      for j := 1 to DOF
        invariant transform == Product(lib, screws, q, j - 1)
        invariant |columns| == j
        invariant forall i | 0 <= i < j :: columns[i] == Carried(Product(lib, screws, q, i), screws[i])
      {
        transform := Compose(transform, TwistExp(lib, screws[j - 1], q[j - 1]));
        columns := columns + [Carried(transform, screws[j])];
      }
      return Some(columns);
    }

    /** The geometric Jacobian: angular velocity, and the velocity of the end point. */
    method ComputeJacobian(q: seq<real>) returns (r: Option<seq<Screw>>)
      requires Valid()
      ensures r.Some? <==> |q| == DOF
      ensures r.Some? ==> |r.value| == DOF && forall j | 0 <= j < DOF ::
                r.value[j] == GeometricColumn(Carried(Product(lib, screws, q, j), screws[j]),
                                              FkPose(lib, screws, home, q).translation)
    {
      hide Carried, FkPose, Compose, TwistExp;
      var space := SpaceJacobian(q);
      var fk := FkMatrix(q);
      if space.None? || fk.None? {
        return None;
      }
      var columns: seq<Screw> := [];
      for j := 0 to DOF
        invariant |columns| == j
        invariant forall i | 0 <= i < j :: columns[i] == GeometricColumn(space.value[i], fk.value.translation)
      {
        columns := columns + [GeometricColumn(space.value[j], fk.value.translation)];
      }
      return Some(columns);
    }
  }

  /** The velocity of the end point added to the spatial linear part. */
  function GeometricColumn(column: Screw, end: Vec3): Screw {
    Screw(column.angular, Plus(column.linear, Cross(column.angular, end)))
  }

  lemma CarriedByIdentity(s: Screw)
    ensures Carried(IDENTITY, s) == s
  {
    CarriedScrew(IDENTITY, s);
    ApplyIdentity(s.angular);
    ApplyIdentity(s.linear);
    hide Apply, Carried;
  }

  /** Build the kinematics of the chain from base to end. */
  method FromUrdf(lib: Library, joints: seq<UrdfJoint>, base: string, end: string, names: seq<string>)
    returns (r: Outcome<PoeKinematics>, ghost chain: seq<UrdfJoint>)
    ensures !Reaches(joints, end, base) ==> r.Error?
    ensures Reaches(joints, end, base) ==> Climbed(joints, end, base, |chain|, base) && Climbable(joints, end, chain)
    ensures r.Done? <==>
      && Reaches(joints, end, base) && Usable(lib, chain, |chain|)
      && ActuatedNames(chain, |chain|) == names && |names| == DOF
    ensures r.Done? ==>
      && r.value.Valid() && r.value.lib == lib
      && r.value.screws == Screws(lib, chain, |chain|) && r.value.home == Placed(chain, |chain|)
      && r.value.limits == Limits(lib, chain, |chain|)
    ensures r.Error? && Reaches(joints, end, base) && !Usable(lib, chain, |chain|) ==>
      exists k: nat :: k < |chain| && Usable(lib, chain, k) && JointError(lib, Placed(chain, k + 1), chain[k]) == Some(r.error)
  {
    hide Reaches, Climbed, Climbable, Compose, JointError, JointScrew;
    var resolved := ResolveChain(joints, base, end);
    if resolved.Error? {
      return Error(resolved.error), [];
    }
    chain := resolved.value;
    var path := resolved.value;
    var current := IDENTITY;
    var screws: seq<Screw>, parsed: seq<string>, limits: seq<(real, real)> := [], [], [];
    for k := 0 to |path|
      invariant current == Placed(path, k) && Usable(lib, path, k)
      invariant screws == Screws(lib, path, k) && parsed == ActuatedNames(path, k) && limits == Limits(lib, path, k)
    {
      var joint := path[k];
      var frame := Compose(current, joint.origin);
      assert frame == Placed(path, k + 1);
      var failure := JointError(lib, frame, joint);
      if failure.Some? {
        return Error(failure.value), path;
      }
      LimitGiven(lib, frame, joint);
      if Actuated(joint) {
        screws := screws + [JointScrew(lib, frame, joint)];
        parsed := parsed + [joint.name];
        limits := limits + [joint.limit.value];
      }
      current := frame;
    }
    if parsed != names {
      return Error(WrongJointNames(parsed)), path;
    }
    if |screws| != DOF {
      return Error(WrongJointCount(|screws|)), path;
    }
    return Done(PoeKinematics(lib, screws, current, limits)), path;
  }

  lemma LimitGiven(lib: Library, frame: Pose, j: UrdfJoint)
    requires JointError(lib, frame, j).None?
    ensures Actuated(j) ==> j.limit.Some?
  {
  }
}
