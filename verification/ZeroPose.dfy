/**
 The zero pose of inspect_model.py: a breadth-first search that multiplies joint origins outwards
 from the base frame, and its agreement with the home transform of the PoE chain.
 */
module ZeroPose {
  import opened Prelude
  import opened Geometry
  import opened Matrices
  import opened Twists
  import opened UrdfChain
  import opened Poe
  import opened Descents

  function OriginMatrix(lib: Library, origin: Origin): Matrix4 {
    var cr, sr := lib.cos(origin.rpy.x), lib.sin(origin.rpy.x);
    var cp, sp := lib.cos(origin.rpy.y), lib.sin(origin.rpy.y);
    var cy, sy := lib.cos(origin.rpy.z), lib.sin(origin.rpy.z);
    Matrix4(Row4(cy * cp, cy * sp * sr - sy * cr, cy * sp * cr + sy * sr, origin.xyz.x),
            Row4(sy * cp, sy * sp * sr + cy * cr, sy * sp * cr - cy * sr, origin.xyz.y),
            Row4(-sp, cp * sr, cp * cr, origin.xyz.z),
            Row4(0.0, 0.0, 0.0, 1.0))
  }

  /** The matrix of a joint element; without an origin it is the identity. */
  function ElementMatrix(lib: Library, e: JointElement): Matrix4 {
    if e.origin.None? then IDENTITY_MATRIX else OriginMatrix(lib, e.origin.value)
  }

  /** The inspector's closed form is the product Rz Ry Rx of the kinematics, with the translation. */
  lemma OriginsAgree(lib: Library, origin: Origin)
    ensures OriginMatrix(lib, origin) == Homogeneous(TransformFromXyzRpy(lib, origin.xyz, origin.rpy))
  {
  }

  /** For every joint that parses, both readers give the same transform. */
  lemma ElementsAgree(lib: Library, e: JointElement)
    requires lib.Valid() && ParseJoint(lib, e).Done?
    ensures ElementMatrix(lib, e) == Homogeneous(ParseJoint(lib, e).value.origin)
  {
    OriginsAgree(lib, if e.origin.Some? then e.origin.value else Origin(ORIGIN, ORIGIN));
    hide OriginMatrix, Homogeneous, RpyToMatrix;
    if e.origin.None? {
      NoOrigin(lib);
    }
  }

  lemma NoOrigin(lib: Library)
    requires lib.Valid()
    ensures OriginMatrix(lib, Origin(ORIGIN, ORIGIN)) == IDENTITY_MATRIX
  {
  }

  // ---------------------------------------------------------------------------------------------
  // The breadth-first search
  // ---------------------------------------------------------------------------------------------

  function MatrixProduct(lib: Library, w: seq<JointElement>): Matrix4 {
    if w == [] then IDENTITY_MATRIX
    else Multiply(MatrixProduct(lib, w[..|w| - 1]), ElementMatrix(lib, w[|w| - 1]))
  }

  /** The matrix of a link: the product of the origins along the first descent to it. */
  ghost predicate Derived(lib: Library, elements: seq<JointElement>, base: string, link: string, m: Matrix4) {
    exists w :: IsFirst(elements, base, link, w) && m == MatrixProduct(lib, w)
  }

  /** There is at most one such matrix, so the search has one result. */
  lemma DerivedIsUnique(lib: Library, elements: seq<JointElement>, base: string, link: string, m: Matrix4, n: Matrix4)
    requires Derived(lib, elements, base, link, m) && Derived(lib, elements, base, link, n)
    ensures m == n
  {
    hide MatrixProduct, IsFirst;
    var v :| IsFirst(elements, base, link, v) && m == MatrixProduct(lib, v);
    var w :| IsFirst(elements, base, link, w) && n == MatrixProduct(lib, w);
    FirstIsUnique(elements, base, link, v, w);
  }

  function InQueue(queue: seq<string>): set<string> {
    set l | l in queue
  }

  /** Each known link has the product of the descent found to it. */
  ghost predicate Multiplied(lib: Library, transforms: map<string, Matrix4>, paths: map<string, seq<JointElement>>) {
    transforms.Keys == paths.Keys && forall l | l in paths :: transforms[l] == MatrixProduct(lib, paths[l])
  }

  /** All joints below the popped links are done. */
  ghost predicate Searching(lib: Library, elements: seq<JointElement>, base: string, queue: seq<string>,
                            transforms: map<string, Matrix4>, popped: set<string>, paths: map<string, seq<JointElement>>) {
    && Found(elements, base, paths) && Multiplied(lib, transforms, paths) && Ordered(elements, queue, paths)
    && Finished(elements, popped, paths) && transforms.Keys == popped + InQueue(queue)
  }

  lemma {:induction false} MultipliedFurther(lib: Library, head: string, e: JointElement, transforms: map<string, Matrix4>,
                                             paths: map<string, seq<JointElement>>)
    requires Multiplied(lib, transforms, paths) && head in paths && e.child.Some?
    ensures Multiplied(lib, transforms[e.child.value := Multiply(transforms[head], ElementMatrix(lib, e))],
                       paths[e.child.value := paths[head] + [e]])
  {
    hide Multiply, ElementMatrix;
    assert (paths[head] + [e])[..|paths[head]|] == paths[head];
  }

  /** The loop over the joints below the head of the queue. */
  method Expand(lib: Library, elements: seq<JointElement>, ghost base: string, head: string, queue: seq<string>,
                before: map<string, Matrix4>, ghost found: map<string, seq<JointElement>>)
    returns (longer: seq<string>, transforms: map<string, Matrix4>, ghost paths: map<string, seq<JointElement>>)
    requires head in before && Found(elements, base, found) && Multiplied(lib, before, found)
    requires Expanding(elements, head, [], queue, found)
    ensures before.Keys <= transforms.Keys && (transforms.Keys == before.Keys ==> longer == queue)
    ensures InQueue(longer) == InQueue(queue) + (transforms.Keys - before.Keys)
    ensures Found(elements, base, paths) && Multiplied(lib, transforms, paths)
    ensures Expanding(elements, head, EdgesFrom(elements, head), longer, paths)
    ensures found.Keys <= paths.Keys && forall l | l in found :: paths[l] == found[l]
  {
    hide Found, Multiply, ElementMatrix, Expanding, MatrixProduct;
    longer, transforms, paths := queue, before, found;
    var edges := EdgesFrom(elements, head);
    assert edges[..0] == [];
    for i := 0 to |edges|
      invariant before.Keys <= transforms.Keys && (transforms.Keys == before.Keys ==> longer == queue)
      invariant InQueue(longer) == InQueue(queue) + (transforms.Keys - before.Keys)
      invariant Found(elements, base, paths) && Multiplied(lib, transforms, paths)
      invariant Expanding(elements, head, edges[..i], longer, paths)
      invariant found.Keys <= paths.Keys && forall l | l in found :: paths[l] == found[l]
    {
      var e := edges[i];
      assert e in edges && edges[..i + 1] == edges[..i] + [e];
      var child := e.child.value;
      if child in transforms {
        ChildKnown(elements, head, edges[..i], e, longer, paths);
      } else {
        ChildFound(elements, base, head, i, longer, paths);
        MultipliedFurther(lib, head, e, transforms, paths);
        Enqueued(longer, child);
        longer := longer + [child];
        transforms := transforms[child := Multiply(transforms[head], ElementMatrix(lib, e))];
        paths := paths[child := paths[head] + [e]];
      }
    }
    assert edges[..|edges|] == edges;
  }

  lemma Enqueued(queue: seq<string>, link: string)
    ensures InQueue(queue + [link]) == InQueue(queue) + {link}
  {
  }

  lemma {:induction false} EndOfSearch(lib: Library, elements: seq<JointElement>, base: string, end: string,
                                       transforms: map<string, Matrix4>, paths: map<string, seq<JointElement>>)
    requires Searching(lib, elements, base, [], transforms, transforms.Keys, paths)
    ensures end in transforms ==> Derived(lib, elements, base, end, transforms[end])
    ensures end !in transforms ==> forall w :: !Descends(elements, base, end, w)
  {
    hide MatrixProduct, Descends, NotAfter, Ordered;
    forall w | Descends(elements, base, end, w)
      ensures end in paths && NotAfter(elements, paths[end], w)
    {
      FirstFound(elements, base, paths, end, w);
    }
    if end in paths {
      assert IsFirst(elements, base, end, paths[end]);
    }
  }

  lemma StartOfSearch(lib: Library, elements: seq<JointElement>, base: string)
    ensures Searching(lib, elements, base, [base], map[base := IDENTITY_MATRIX], {}, map[base := []])
  {
    assert Descends(elements, base, base, []);
    assert MatrixProduct(lib, []) == IDENTITY_MATRIX;
    assert InQueue([base]) == {base};
  }

  ghost function Unknown(all: set<string>, known: set<string>): nat {
    |all - known|
  }

  /** One pass of the outer loop: the link at the head of the queue is expanded. */
  method Round(lib: Library, elements: seq<JointElement>, ghost base: string, ghost all: set<string>, queue: seq<string>,
               before: map<string, Matrix4>, ghost popped: set<string>, ghost found: map<string, seq<JointElement>>)
    returns (longer: seq<string>, transforms: map<string, Matrix4>, ghost done: set<string>,
             ghost paths: map<string, seq<JointElement>>)
    requires queue != [] && all == {base} + ChildLinks(elements)
    requires Searching(lib, elements, base, queue, before, popped, found)
    ensures Searching(lib, elements, base, longer, transforms, done, paths)
    ensures Unknown(all, transforms.Keys) < Unknown(all, before.Keys)
            || (Unknown(all, transforms.Keys) == Unknown(all, before.Keys) && |longer| < |queue|)
  {
    HeadIsKnown(lib, elements, base, queue, before, popped, found);
    hide *;
    var head := queue[0];
    longer, transforms, paths := Expand(lib, elements, base, head, queue[1..], before, found);
    done := popped + {head};
    RoundDone(lib, elements, base, queue, before, popped, found, longer, transforms, paths);
    SearchIsBounded(lib, elements, base, longer, transforms, done, paths);
    if transforms.Keys != before.Keys {
      Progress(all, before.Keys, transforms.Keys);
    }
  }

  lemma HeadIsKnown(lib: Library, elements: seq<JointElement>, base: string, queue: seq<string>, before: map<string, Matrix4>,
                    popped: set<string>, found: map<string, seq<JointElement>>)
    requires queue != [] && Searching(lib, elements, base, queue, before, popped, found)
    ensures queue[0] in before && Found(elements, base, found) && Multiplied(lib, before, found)
    ensures Expanding(elements, queue[0], [], queue[1..], found)
  {
    hide Found, Multiplied, Finished, Expanding;
    StartExpanding(elements, queue, found);
  }

  lemma {:induction false} RoundDone(lib: Library, elements: seq<JointElement>, base: string, queue: seq<string>, before: map<string, Matrix4>,
                  popped: set<string>, found: map<string, seq<JointElement>>, longer: seq<string>,
                  transforms: map<string, Matrix4>, paths: map<string, seq<JointElement>>)
    requires queue != [] && Searching(lib, elements, base, queue, before, popped, found)
    requires Found(elements, base, paths) && Multiplied(lib, transforms, paths)
    requires Expanding(elements, queue[0], EdgesFrom(elements, queue[0]), longer, paths)
    requires found.Keys <= paths.Keys && forall l | l in found :: paths[l] == found[l]
    requires before.Keys <= transforms.Keys && InQueue(longer) == InQueue(queue[1..]) + (transforms.Keys - before.Keys)
    ensures Searching(lib, elements, base, longer, transforms, popped + {queue[0]}, paths)
  {
    FinishHead(elements, queue[0], longer, popped, found, paths);
    Dequeued(queue);
    LongerIsOrdered(elements, queue[0], longer, paths);
    hide Found, Multiplied, Finished, Expanding, Ordered, InQueue;
  }

  lemma {:induction false} LongerIsOrdered(elements: seq<JointElement>, head: string, longer: seq<string>, paths: map<string, seq<JointElement>>)
    requires Expanding(elements, head, EdgesFrom(elements, head), longer, paths)
    ensures Ordered(elements, longer, paths)
  {
    hide Ordered, SeenBelow, Pending, EdgesFrom;
  }

  /** The pose of the end frame at zero: resolved exactly when some joints lead down to it, and then the
      product of the origins along the first such descent, shortest first and then in joint order. */
  method ZeroPose(lib: Library, elements: seq<JointElement>, base: string, end: string) returns (r: Option<Matrix4>)
    ensures r.Some? ==> Derived(lib, elements, base, end, r.value)
    ensures r.None? ==> forall w :: !Descends(elements, base, end, w)
  {
    StartOfSearch(lib, elements, base);
    hide *;
    var transforms := map[base := IDENTITY_MATRIX];
    var queue := [base];
    ghost var popped: set<string> := {};
    ghost var paths: map<string, seq<JointElement>> := map[base := []];
    ghost var all := {base} + ChildLinks(elements);
    while queue != []
      invariant Searching(lib, elements, base, queue, transforms, popped, paths)
      decreases Unknown(all, transforms.Keys), |queue|
    {
      queue, transforms, popped, paths := Round(lib, elements, base, all, queue, transforms, popped, paths);
    }
    AllPopped(lib, elements, base, transforms, popped, paths);
    EndOfSearch(lib, elements, base, end, transforms, paths);
    return if end in transforms then Some(transforms[end]) else None;
  }

  lemma AllPopped(lib: Library, elements: seq<JointElement>, base: string, transforms: map<string, Matrix4>,
                  popped: set<string>, paths: map<string, seq<JointElement>>)
    requires Searching(lib, elements, base, [], transforms, popped, paths)
    ensures popped == transforms.Keys
  {
    hide Found, Multiplied, Finished, Ordered;
  }

  lemma Dequeued(queue: seq<string>)
    requires queue != []
    ensures InQueue(queue) == {queue[0]} + InQueue(queue[1..])
  {
    assert queue == [queue[0]] + queue[1..];
  }

  lemma SearchIsBounded(lib: Library, elements: seq<JointElement>, base: string, queue: seq<string>,
                        transforms: map<string, Matrix4>, popped: set<string>, paths: map<string, seq<JointElement>>)
    requires Searching(lib, elements, base, queue, transforms, popped, paths)
    ensures transforms.Keys <= {base} + ChildLinks(elements)
  {
    hide Finished, Ordered, MatrixProduct;
  }

  lemma Progress(all: set<string>, before: set<string>, after: set<string>)
    requires before < after <= all
    ensures Unknown(all, after) < Unknown(all, before)
  {
    var x :| x in after && x !in before;
    Smaller(all - after, all - before - {x});
  }

  lemma {:induction false} Smaller(a: set<string>, b: set<string>)
    requires a <= b
    ensures |a| <= |b|
    decreases a
  {
    if a != {} {
      var x :| x in a;
      Smaller(a - {x}, b - {x});
    }
  }

  // ---------------------------------------------------------------------------------------------
  // Agreement with the home transform
  // ---------------------------------------------------------------------------------------------

  ghost predicate ParsedAs(lib: Library, elements: seq<JointElement>, joints: seq<UrdfJoint>) {
    |joints| == |elements| && forall i | 0 <= i < |elements| :: ParseJoint(lib, elements[i]) == Done(joints[i])
  }

  predicate UniqueParents(joints: seq<UrdfJoint>) {
    forall i, j | 0 <= i < j < |joints| :: joints[i].child != joints[j].child
  }

  /** With unique parents, the joint of the parent table is the one that any descent uses. */
  lemma {:induction false} ParentOfChild(lib: Library, elements: seq<JointElement>, joints: seq<UrdfJoint>, e: JointElement)
    requires ParsedAs(lib, elements, joints) && UniqueParents(joints) && e in elements && e.child.Some?
    ensures ParseJoint(lib, e).Done? && ParentJoint(joints, e.child.value) == Some(ParseJoint(lib, e).value)
  {
    var i :| 0 <= i < |elements| && elements[i] == e;
    var found := ParentJoint(joints, e.child.value);
    assert joints[i] in joints && joints[i].child == e.child.value;
    var j :| 0 <= j < |joints| && joints[j] == found.value;
    assert i == j;
  }

  /** A descent is the climb of the kinematics read downwards, with the same product. */
  lemma {:induction false} DescentIsClimb(lib: Library, elements: seq<JointElement>, joints: seq<UrdfJoint>, base: string,
                                          link: string, w: seq<JointElement>)
    requires lib.Valid() && ParsedAs(lib, elements, joints) && UniqueParents(joints) && Descends(elements, base, link, w)
    ensures Climbed(joints, link, base, |w|, base)
    ensures MatrixProduct(lib, w) == Homogeneous(Placed(Climb(joints, link, |w|), |w|))
    decreases |w|
  {
    hide Climbed, Climb, Above, Placed, Multiply, ElementMatrix, Homogeneous, ParseJoint, ParentJoint, ParsedAs, UniqueParents;
    if w == [] {
      NothingClimbed(joints, base);
    } else {
      var e, rest := w[|w| - 1], w[..|w| - 1];
      ParentOfChild(lib, elements, joints, e);
      ElementsAgree(lib, e);
      var joint := ParseJoint(lib, e).value;
      ParsedLinks(lib, e);
      DescentIsClimb(lib, elements, joints, base, joint.parent, rest);
      ClimbedFromParent(joints, link, base, |w|, joint);
      ProductGrows(joints, joint.parent, |rest|, joint);
    }
  }

  lemma {:induction false} NothingClimbed(joints: seq<UrdfJoint>, base: string)
    ensures Climbed(joints, base, base, 0, base)
    ensures IDENTITY_MATRIX == Homogeneous(Placed(Climb(joints, base, 0), 0))
  {
    hide Homogeneous, Multiply, Compose, ParentJoint;
    MultiplyIsCompose(IDENTITY, IDENTITY);
  }

  lemma ParsedLinks(lib: Library, e: JointElement)
    requires ParseJoint(lib, e).Done?
    ensures e.parent == Some(ParseJoint(lib, e).value.parent)
  {
  }

  lemma {:induction false} ProductGrows(joints: seq<UrdfJoint>, parent: string, n: nat, joint: UrdfJoint)
    requires Above(joints, parent, n).Some?
    ensures Multiply(Homogeneous(Placed(Climb(joints, parent, n), n)), Homogeneous(joint.origin))
         == Homogeneous(Placed(Climb(joints, parent, n) + [joint], n + 1))
  {
    hide Multiply, Compose, Homogeneous, Climb, Above;
    var chain := Climb(joints, parent, n);
    PlacedOfPrefix(chain, [joint], n);
    MultiplyIsCompose(Placed(chain, n), joint.origin);
  }

  lemma ClimbedFromParent(joints: seq<UrdfJoint>, link: string, base: string, n: nat, joint: UrdfJoint)
    requires n > 0 && ParentJoint(joints, link) == Some(joint) && link != base
    requires Climbed(joints, joint.parent, base, n - 1, base)
    ensures Climbed(joints, link, base, n, base) && Above(joints, joint.parent, n - 1).Some?
    ensures Climb(joints, link, n) == Climb(joints, joint.parent, n - 1) + [joint]
  {
    forall m: nat | m < n
      ensures Above(joints, link, m) != Some(base)
    {
      assert m > 0 ==> Above(joints, link, m) == Above(joints, joint.parent, m - 1);
    }
  }

  lemma {:induction false} PlacedOfPrefix(chain: seq<UrdfJoint>, more: seq<UrdfJoint>, k: nat)
    requires k <= |chain|
    ensures Placed(chain + more, k) == Placed(chain, k)
  {
    hide Compose;
    if k > 0 {
      PlacedOfPrefix(chain, more, k - 1);
    }
  }

  lemma {:induction false} ClimbIsDescent(lib: Library, elements: seq<JointElement>, joints: seq<UrdfJoint>, base: string,
                                          link: string, n: nat)
    requires ParsedAs(lib, elements, joints) && Climbed(joints, link, base, n, base)
    ensures exists w :: Descends(elements, base, link, w)
    decreases n
  {
    if n == 0 {
      assert Descends(elements, base, link, []);
    } else {
      ParentClimbed(joints, base, link, n);
      hide Climbed, ParseJoint, Above, Climb;
      var joint := ParentJoint(joints, link).value;
      ClimbIsDescent(lib, elements, joints, base, joint.parent, n - 1);
      ElementOfJoint(lib, elements, joints, base, joint);
    }
  }

  lemma {:induction false} ParentClimbed(joints: seq<UrdfJoint>, base: string, link: string, n: nat)
    requires n > 0 && Climbed(joints, link, base, n, base)
    ensures link != base && ParentJoint(joints, link).Some?
    ensures Climbed(joints, ParentJoint(joints, link).value.parent, base, n - 1, base)
  {
    assert Above(joints, link, 0) == Some(link);
    var parent := ParentJoint(joints, link).value.parent;
    forall m: nat | m < n - 1
      ensures Above(joints, parent, m) != Some(base)
    {
      assert Above(joints, link, m + 1) == Above(joints, parent, m);
    }
  }

  lemma ElementOfJoint(lib: Library, elements: seq<JointElement>, joints: seq<UrdfJoint>, base: string, joint: UrdfJoint)
    requires ParsedAs(lib, elements, joints) && joint in joints && joint.child != base
    requires exists w :: Descends(elements, base, joint.parent, w)
    ensures exists w :: Descends(elements, base, joint.child, w)
  {
    var w :| Descends(elements, base, joint.parent, w);
    var i :| 0 <= i < |joints| && joints[i] == joint;
    assert ParseJoint(lib, elements[i]) == Done(joint);
    assert (w + [elements[i]])[..|w|] == w;
    assert Descends(elements, base, joint.child, w + [elements[i]]);
  }

  /** When every link has at most one parent joint, the inspector resolves the end frame exactly when
      the kinematics find their chain, and then its matrix is the home transform of that chain. */
  lemma {:induction false} ZeroPoseIsHome(lib: Library, elements: seq<JointElement>, joints: seq<UrdfJoint>, base: string, end: string,
                       pose: Option<Matrix4>, chain: seq<UrdfJoint>)
    requires lib.Valid() && ParsedAs(lib, elements, joints) && UniqueParents(joints)
    requires pose.Some? ==> Derived(lib, elements, base, end, pose.value)
    requires pose.None? ==> forall w :: !Descends(elements, base, end, w)
    ensures pose.Some? <==> Reaches(joints, end, base)
    ensures pose.Some? && Climbed(joints, end, base, |chain|, base) && Climbable(joints, end, chain) ==>
              pose.value == Homogeneous(Placed(chain, |chain|))
  {
    hide MatrixProduct, Placed, Homogeneous, Descends, Climb, Above, UniqueParents, ParsedAs;
    if pose.Some? {
      var w :| IsFirst(elements, base, end, w) && pose.value == MatrixProduct(lib, w);
      DescentIsClimb(lib, elements, joints, base, end, w);
      assert Above(joints, end, |w|) == Some(base);
    } else if Reaches(joints, end, base) {
      var n: nat :| Above(joints, end, n) == Some(base);
      var m := FirstArrival(joints, end, base, n);
      ClimbIsDescent(lib, elements, joints, base, end, m);
    }
  }

  lemma {:induction false} FirstArrival(joints: seq<UrdfJoint>, link: string, base: string, n: nat) returns (m: nat)
    requires Above(joints, link, n) == Some(base)
    ensures Climbed(joints, link, base, m, base)
    decreases n
  {
    hide Above;
    if exists i: nat :: i < n && Above(joints, link, i) == Some(base) {
      var i: nat :| i < n && Above(joints, link, i) == Some(base);
      m := FirstArrival(joints, link, base, i);
    } else {
      m := n;
    }
  }
}
