/** The serial chain of a URDF (poe.py): joint origins, and the walk from the end link to the base. */
module UrdfChain {
  import opened Prelude
  import opened Geometry
  import opened Twists
  import opened TwistTheorems

  // ---------------------------------------------------------------------------------------------
  // Origins
  // ---------------------------------------------------------------------------------------------

  function RotationX(lib: Library, a: real): Mat3 {
    var c, s := lib.cos(a), lib.sin(a);
    Mat3(Vec3(1.0, 0.0, 0.0), Vec3(0.0, c, -s), Vec3(0.0, s, c))
  }

  function RotationY(lib: Library, a: real): Mat3 {
    var c, s := lib.cos(a), lib.sin(a);
    Mat3(Vec3(c, 0.0, s), Vec3(0.0, 1.0, 0.0), Vec3(-s, 0.0, c))
  }

  function RotationZ(lib: Library, a: real): Mat3 {
    var c, s := lib.cos(a), lib.sin(a);
    Mat3(Vec3(c, -s, 0.0), Vec3(s, c, 0.0), Vec3(0.0, 0.0, 1.0))
  }

  /** URDF fixed-axis roll, pitch and yaw. */
  function RpyToMatrix(lib: Library, rpy: Vec3): Mat3 {
    Mul(Mul(RotationZ(lib, rpy.z), RotationY(lib, rpy.y)), RotationX(lib, rpy.x))
  }

  function TransformFromXyzRpy(lib: Library, xyz: Vec3, rpy: Vec3): Pose {
    Pose(RpyToMatrix(lib, rpy), xyz)
  }

  /** A turn about a coordinate axis is a rotation. */
  lemma PlaneRotation(c: real, s: real, m: Mat3)
    requires c * c + s * s == 1.0
    requires || m == Mat3(Vec3(1.0, 0.0, 0.0), Vec3(0.0, c, -s), Vec3(0.0, s, c))
             || m == Mat3(Vec3(c, 0.0, s), Vec3(0.0, 1.0, 0.0), Vec3(-s, 0.0, c))
             || m == Mat3(Vec3(c, -s, 0.0), Vec3(s, c, 0.0), Vec3(0.0, 0.0, 1.0))
    ensures IsRotation(m)
  {
  }

  lemma RpyIsRotation(lib: Library, rpy: Vec3)
    requires lib.Valid()
    ensures IsRotation(RpyToMatrix(lib, rpy))
  {
    hide IsRotation, Mul;
    var x, y, z := RotationX(lib, rpy.x), RotationY(lib, rpy.y), RotationZ(lib, rpy.z);
    Pythagoras(lib, rpy.x);
    PlaneRotation(lib.cos(rpy.x), lib.sin(rpy.x), x);
    Pythagoras(lib, rpy.y);
    PlaneRotation(lib.cos(rpy.y), lib.sin(rpy.y), y);
    Pythagoras(lib, rpy.z);
    PlaneRotation(lib.cos(rpy.z), lib.sin(rpy.z), z);
    ProductOfRotations(z, y);
    ProductOfRotations(Mul(z, y), x);
  }

  // ---------------------------------------------------------------------------------------------
  // Joints
  // ---------------------------------------------------------------------------------------------

  datatype JointKind = Revolute | Continuous | Prismatic | Fixed | Unsupported(name: string)

  datatype Origin = Origin(xyz: Vec3, rpy: Vec3)

  /** A joint element after its attributes have been read. */
  datatype JointElement = JointElement(name: string, kind: JointKind, parent: Option<string>, child: Option<string>,
                                       origin: Option<Origin>, axis: Vec3, limit: Option<(real, real)>)

  datatype UrdfJoint = UrdfJoint(name: string, kind: JointKind, parent: string, child: string,
                                 origin: Pose, axis: Vec3, limit: Option<(real, real)>)

  datatype ChainError =
    | IncompleteJoint | MissingLimit(joint: string) | CycleInChain | NoChain(missingParentOf: string)
    | NoCanonicalLimits(joint: string) | ZeroAxis(joint: string) | UnsupportedJoint(joint: string)
    | WrongJointNames(parsed: seq<string>) | WrongJointCount(count: nat)

  datatype Outcome<T> = Done(value: T) | Error(error: ChainError)

  predicate Incomplete(e: JointElement) {
    e.name == "" || e.parent.None? || e.child.None?
  }

  function OriginOf(lib: Library, given: Option<Origin>): (p: Pose)
    ensures lib.Valid() ==> IsRotation(p.rotation)
    ensures p.translation == if given.Some? then given.value.xyz else ORIGIN
  {
    var origin := if given.Some? then given.value else Origin(ORIGIN, ORIGIN);
    assert lib.Valid() ==> IsRotation(RpyToMatrix(lib, origin.rpy)) by {
      if lib.Valid() {
        RpyIsRotation(lib, origin.rpy);
      }
    }
    TransformFromXyzRpy(lib, origin.xyz, origin.rpy)
  }

  function ParseJoint(lib: Library, e: JointElement): (r: Outcome<UrdfJoint>)
    ensures r.Done? && lib.Valid() ==> IsRotation(r.value.origin.rotation)
    ensures r.Error? <==> Incomplete(e) || (e.kind in {Revolute, Prismatic} && e.limit.None?)
    ensures r.Error? ==> r.error == (if Incomplete(e) then IncompleteJoint else MissingLimit(e.name))
    ensures r.Done? ==> r.value.limit == (match e.kind
                                          case Revolute => e.limit
                                          case Prismatic => e.limit
                                          case Continuous => Some((-lib.pi, lib.pi))
                                          case _ => None)
    ensures r.Done? ==>
      && Some(r.value.parent) == e.parent && Some(r.value.child) == e.child
      && r.value.name == e.name && r.value.kind == e.kind && r.value.axis == e.axis
      && r.value.origin.translation == (if e.origin.Some? then e.origin.value.xyz else ORIGIN)
    ensures r.Done? && r.value.kind in {Revolute, Continuous, Prismatic} ==> r.value.limit.Some?
  {
    if Incomplete(e) then Error(IncompleteJoint)
    else if e.kind in {Revolute, Prismatic} && e.limit.None? then Error(MissingLimit(e.name))
    else
      var limit := if e.kind in {Revolute, Prismatic} then e.limit
                   else if e.kind == Continuous then Some((-lib.pi, lib.pi)) else None;
      Done(UrdfJoint(e.name, e.kind, e.parent.value, e.child.value, OriginOf(lib, e.origin), e.axis, limit))
  }

  /** The rotation of a joint's frame is that of its roll, pitch and yaw. */
  lemma ParsedRotation(lib: Library, e: JointElement)
    requires ParseJoint(lib, e).Done?
    ensures ParseJoint(lib, e).value.origin.rotation == RpyToMatrix(lib, if e.origin.Some? then e.origin.value.rpy else ORIGIN)
  {
    hide RpyToMatrix;
  }

  // ---------------------------------------------------------------------------------------------
  // The chain from the base link to the end link
  // ---------------------------------------------------------------------------------------------

  /** The joint that the table of parents holds for a link: the last one that names it as child. */
  function ParentJoint(joints: seq<UrdfJoint>, link: string): (r: Option<UrdfJoint>)
    ensures r.Some? ==> r.value in joints && r.value.child == link
    ensures r.None? ==> forall j | j in joints :: j.child != link
  {
    if joints == [] then None
    else
      var last := joints[|joints| - 1];
      if last.child == link then Some(last) else ParentJoint(joints[..|joints| - 1], link)
  }

  /** The link n joints above this one. */
  function Above(joints: seq<UrdfJoint>, link: string, n: nat): Option<string>
    decreases n
  {
    if n == 0 then Some(link)
    else
      var parent := ParentJoint(joints, link);
      if parent.None? then None else Above(joints, parent.value.parent, n - 1)
  }

  /** The n joints walked from this link upwards, topmost first. */
  function Climb(joints: seq<UrdfJoint>, link: string, n: nat): (chain: seq<UrdfJoint>)
    requires Above(joints, link, n).Some?
    ensures |chain| == n
    decreases n
  {
    if n == 0 then []
    else
      var parent := ParentJoint(joints, link).value;
      Climb(joints, parent.parent, n - 1) + [parent]
  }

  lemma {:induction false} AboveAgain(joints: seq<UrdfJoint>, link: string, m: nat, n: nat)
    requires Above(joints, link, m).Some?
    ensures Above(joints, link, m + n) == Above(joints, Above(joints, link, m).value, n)
    decreases m
  {
    if m > 0 {
      AboveAgain(joints, ParentJoint(joints, link).value.parent, m - 1, n);
    }
  }

  lemma {:induction false} ClimbOnce(joints: seq<UrdfJoint>, link: string, n: nat)
    requires Above(joints, link, n + 1).Some?
    ensures Above(joints, link, n).Some?
    ensures var top := ParentJoint(joints, Above(joints, link, n).value);
      top.Some? && Climb(joints, link, n + 1) == [top.value] + Climb(joints, link, n)
    decreases n
  {
    if n > 0 {
      ClimbOnce(joints, ParentJoint(joints, link).value.parent, n - 1);
    }
  }

  /** Climbing passes the same link twice before the base only if it never gets there. */
  lemma {:induction false} LoopNeverArrives(joints: seq<UrdfJoint>, link: string, base: string, i: nat, k: nat, n: nat)
    requires i < k && Above(joints, link, k).Some? && Above(joints, link, i) == Above(joints, link, k)
    requires forall m: nat | m <= k :: Above(joints, link, m) != Some(base)
    ensures Above(joints, link, n) != Some(base)
    decreases n
  {
    if n > k {
      AboveAgain(joints, link, k, n - k);
      AboveBefore(joints, link, i, k);
      AboveAgain(joints, link, i, n - k);
      LoopNeverArrives(joints, link, base, i, k, n - k + i);
    }
  }

  lemma {:induction false} AboveBefore(joints: seq<UrdfJoint>, link: string, i: nat, k: nat)
    requires i <= k && Above(joints, link, k).Some?
    ensures Above(joints, link, i).Some?
    decreases i
  {
    if i > 0 {
      AboveBefore(joints, ParentJoint(joints, link).value.parent, i - 1, k - 1);
    }
  }

  lemma {:induction false} LoopGoesOn(joints: seq<UrdfJoint>, link: string, i: nat, k: nat, n: nat)
    requires i < k && Above(joints, link, k).Some? && Above(joints, link, i) == Above(joints, link, k)
    ensures Above(joints, link, n).Some?
    decreases n
  {
    if n > k {
      AboveAgain(joints, link, k, n - k);
      AboveBefore(joints, link, i, k);
      AboveAgain(joints, link, i, n - k);
      LoopGoesOn(joints, link, i, k, n - k + i);
    } else {
      AboveBefore(joints, link, n, k);
    }
  }

  lemma OneUp(joints: seq<UrdfJoint>, link: string, n: nat)
    requires Above(joints, link, n).Some?
    ensures var parent := ParentJoint(joints, Above(joints, link, n).value);
      Above(joints, link, n + 1) == if parent.Some? then Some(parent.value.parent) else None
  {
    AboveAgain(joints, link, n, 1);
    var here := Above(joints, link, n).value;
    var parent := ParentJoint(joints, here);
    assert parent.Some? ==> Above(joints, parent.value.parent, 0) == Some(parent.value.parent);
    assert Above(joints, here, 1) == if parent.Some? then Some(parent.value.parent) else None;
  }

  /** A link met twice before the base: the climb goes round for ever. */
  lemma {:induction false} Looping(joints: seq<UrdfJoint>, link: string, base: string, k: nat)
    requires Above(joints, link, k).Some?
    requires exists i: nat :: i < k && Above(joints, link, i) == Above(joints, link, k)
    requires forall m: nat | m <= k :: Above(joints, link, m) != Some(base)
    ensures forall n: nat :: Above(joints, link, n) != Some(base) && Above(joints, link, n).Some?
  {
    hide Above;
    var i: nat :| i < k && Above(joints, link, i) == Above(joints, link, k);
    forall n: nat
      ensures Above(joints, link, n) != Some(base) && Above(joints, link, n).Some?
    {
      LoopNeverArrives(joints, link, base, i, k, n);
      LoopGoesOn(joints, link, i, k, n);
    }
  }

  /** A link without a parent joint before the base: the climb ends. */
  lemma DeadEnd(joints: seq<UrdfJoint>, link: string, base: string, k: nat)
    requires Above(joints, link, k + 1).None?
    requires forall m: nat | m <= k :: Above(joints, link, m) != Some(base)
    ensures forall n: nat :: Above(joints, link, n) != Some(base)
  {
    hide Above;
    forall n: nat
      ensures Above(joints, link, n) != Some(base)
    {
      if n > k && Above(joints, link, n).Some? {
        AboveBefore(joints, link, k + 1, n);
      }
    }
  }

  function Children(joints: seq<UrdfJoint>): set<string> {
    set j | j in joints :: j.child
  }

  ghost predicate Reaches(joints: seq<UrdfJoint>, end: string, base: string) {
    exists n: nat :: Above(joints, end, n) == Some(base)
  }

  /** The climb has taken n joints without meeting the base before. */
  ghost predicate Climbed(joints: seq<UrdfJoint>, end: string, base: string, n: nat, here: string) {
    Above(joints, end, n) == Some(here) && forall m: nat | m < n :: Above(joints, end, m) != Some(base)
  }

  /** These are the links of the first n joints. */
  ghost predicate Passed(joints: seq<UrdfJoint>, end: string, n: nat, visited: set<string>) {
    forall l | l in visited :: exists m: nat :: m < n && Above(joints, end, m) == Some(l)
  }

  ghost predicate Climbable(joints: seq<UrdfJoint>, end: string, chain: seq<UrdfJoint>) {
    Above(joints, end, |chain|).Some? && chain == Climb(joints, end, |chain|)
  }

  lemma StartClimb(joints: seq<UrdfJoint>, end: string, base: string)
    ensures Climbed(joints, end, base, 0, end) && Passed(joints, end, 0, {}) && Climbable(joints, end, [])
  {
  }

  lemma {:induction false} ClimbLooped(joints: seq<UrdfJoint>, end: string, base: string, n: nat, here: string, visited: set<string>)
    requires Climbed(joints, end, base, n, here) && Passed(joints, end, n, visited) && here in visited && here != base
    ensures !Reaches(joints, end, base) && forall n: nat :: Above(joints, end, n).Some?
  {
    hide Above;
    Looping(joints, end, base, n);
  }

  lemma ClimbEnded(joints: seq<UrdfJoint>, end: string, base: string, n: nat, here: string)
    requires Climbed(joints, end, base, n, here) && here != base && ParentJoint(joints, here).None?
    ensures !Reaches(joints, end, base) && Above(joints, end, n) == Some(here) && Above(joints, end, n + 1).None?
  {
    OneUp(joints, end, n);
    hide Above, ParentJoint;
    DeadEnd(joints, end, base, n);
  }

  lemma {:induction false} ClimbOn(joints: seq<UrdfJoint>, end: string, base: string, n: nat, here: string, visited: set<string>,
                chain: seq<UrdfJoint>)
    requires Climbable(joints, end, chain) && n == |chain|
    requires Climbed(joints, end, base, n, here) && Passed(joints, end, n, visited) && here != base
    requires ParentJoint(joints, here).Some?
    ensures var joint := ParentJoint(joints, here).value;
      && Climbed(joints, end, base, n + 1, joint.parent)
      && Passed(joints, end, n + 1, visited + {here})
      && Climbable(joints, end, [joint] + chain)
      && here in Children(joints)
  {
    OneUp(joints, end, n);
    hide Above, Climb;
    ClimbOnce(joints, end, n);
    assert ParentJoint(joints, here).value.child in Children(joints);
  }

  /** Walk up from the end link until the base link, with the table of parents. Every outcome says
      exactly what the graph looks like. */
  method ResolveChain(joints: seq<UrdfJoint>, base: string, end: string) returns (r: Outcome<seq<UrdfJoint>>)
    ensures r.Done? <==> Reaches(joints, end, base)
    ensures r.Done? ==>
      Climbed(joints, end, base, |r.value|, base) && Climbable(joints, end, r.value)
    ensures r.Error? ==> r.error == CycleInChain || r.error.NoChain?
    ensures r.Error? && r.error.NoChain? ==>
      exists n: nat :: Above(joints, end, n) == Some(r.error.missingParentOf) && Above(joints, end, n + 1).None?
    ensures r.Error? && r.error.CycleInChain? ==> forall n: nat :: Above(joints, end, n).Some?
  {
    StartClimb(joints, end, base);
    hide Above, Climb, ParentJoint, Passed, Climbed, Climbable, Reaches, Children;
    var chain: seq<UrdfJoint> := [];
    var current := end;
    var visited: set<string> := {};
    ghost var links := Children(joints);
    while current != base
      invariant Climbed(joints, end, base, |chain|, current)
      invariant Climbable(joints, end, chain)
      invariant Passed(joints, end, |chain|, visited) && visited <= links
      decreases |links - visited|
    {
      if current in visited {
        ClimbLooped(joints, end, base, |chain|, current, visited);
        return Error(CycleInChain);
      }
      var joint := ParentJoint(joints, current);
      if joint.None? {
        ClimbEnded(joints, end, base, |chain|, current);
        return Error(NoChain(current));
      }
      ClimbOn(joints, end, base, |chain|, current, visited, chain);
      visited := visited + {current};
      chain := [joint.value] + chain;
      current := joint.value.parent;
    }
    Arrived(joints, end, base, |chain|);
    return Done(chain);
  }

  lemma Arrived(joints: seq<UrdfJoint>, end: string, base: string, n: nat)
    requires Climbed(joints, end, base, n, base)
    ensures Reaches(joints, end, base)
  {
    hide Above;
  }
}
