/**
 Damped-least-squares inverse kinematics (solver.py). Forward kinematics and the Jacobian are the
 callables that the source is given; the linear solve is known by the equation its result satisfies.
 */
module Ik {
  import opened Prelude
  import opened Geometry
  import opened Twists
  import opened Trajectories
  import opened RotationLog
  import opened TwistTheorems
  import opened Quaternions
  import D = DampedSystem

  datatype Settings = Settings(maxIterations: int, damping: real, maxStep: real,
                               positionTolerance: real, orientationTolerance: real)
  {
    /** What __post_init__ demands. */
    predicate Valid() {
      maxIterations >= 1 && damping > 0.0 && maxStep > 0.0 && positionTolerance > 0.0 && orientationTolerance > 0.0
    }
  }

  datatype Frames = Frames(parent: string, child: string)

  /** A vector of the task space in [angular; linear] order. */
  type Task = nat -> real

  const TASK := 6

  /** The callables the solver is given, and the library it calls: `solve` is np.linalg.solve on the
      matrix J J' + damping^2 I. */
  datatype Robot = Robot(
    arc: Arc,
    fk: JointVector -> Pose,
    jacobian: JointVector -> D.Jacobian,
    solve: (D.Jacobian, real, Task) -> Task)

  datatype Limits = Limits(lower: JointVector, upper: JointVector)
  {
    predicate Valid() {
      forall i | 0 <= i < JOINT_COUNT :: lower[i] < upper[i]
    }
  }

  function Transpose(m: Mat3): Mat3 {
    Mat3(Column0(m), Column1(m), Column2(m))
  }

  datatype Errors = Errors(position: real, orientation: real)

  function PositionError(robot: Robot, target: Pose, q: JointVector): Vec3 {
    Less(target.translation, robot.fk(q).translation)
  }

  function OrientationError(robot: Robot, target: Pose, q: JointVector): Vec3
    requires robot.arc.Valid()
  {
    Log(robot.arc, Mul(target.rotation, Transpose(robot.fk(q).rotation)))
  }

  /** The errors of a joint position. */
  function ErrorsAt(robot: Robot, target: Pose, q: JointVector): Errors
    requires robot.arc.Valid()
  {
    Errors(Norm(robot.arc.lib, PositionError(robot, target, q)), Norm(robot.arc.lib, OrientationError(robot, target, q)))
  }

  function ErrorVector(orientation: Vec3, position: Vec3): Task {
    (a: nat) =>
      if a == 0 then orientation.x else if a == 1 then orientation.y else if a == 2 then orientation.z
      else if a == 3 then position.x else if a == 4 then position.y else if a == 5 then position.z else 0.0
  }

  /** J' y, one entry a joint. */
  function TransposeTimes(j: D.Jacobian, y: Task): JointVector {
    seq(JOINT_COUNT, k requires 0 <= k < JOINT_COUNT => D.Along(j, y, k, TASK))
  }

  predicate Within(e: Errors, s: Settings) {
    e.position <= s.positionTolerance && e.orientation <= s.orientationTolerance
  }

  function Clip(x: real, lower: real, upper: real): real {
    Min(Max(x, lower), upper)
  }

  function ClipAll(q: JointVector, limits: Limits): JointVector {
    seq(JOINT_COUNT, i requires 0 <= i < JOINT_COUNT => Clip(q[i], limits.lower[i], limits.upper[i]))
  }

  predicate InBox(q: JointVector, limits: Limits) {
    forall i | 0 <= i < JOINT_COUNT :: limits.lower[i] <= q[i] <= limits.upper[i]
  }

  function AddAll(q: JointVector, d: JointVector): JointVector {
    seq(JOINT_COUNT, i requires 0 <= i < JOINT_COUNT => q[i] + d[i])
  }

  function ScaleAll(a: real, d: JointVector): JointVector {
    seq(JOINT_COUNT, i requires 0 <= i < JOINT_COUNT => d[i] * a)
  }

  function SumOfSquares(d: seq<real>): real {
    if d == [] then 0.0 else SumOfSquares(d[..|d| - 1]) + d[|d| - 1] * d[|d| - 1]
  }

  /** The step after scaling it down to the largest one allowed. */
  function BoundedDelta(lib: Library, maxStep: real, d: JointVector): JointVector
    requires maxStep > 0.0
  {
    var norm := lib.sqrt(SumOfSquares(d));
    if norm > maxStep then ScaleAll(maxStep / norm, d) else d
  }

  datatype Problem = Problem(robot: Robot, target: Pose, limits: Limits, settings: Settings)
  {
    ghost predicate Valid() {
      limits.Valid() && settings.Valid() && robot.arc.Valid()
    }

    function At(q: JointVector): Errors
      requires Valid()
    {
      ErrorsAt(robot, target, q)
    }

    function ErrorTask(q: JointVector): Task
      requires Valid()
    {
      ErrorVector(OrientationError(robot, target, q), PositionError(robot, target, q))
    }

    /** The solution of the damped system at q. */
    function Solution(q: JointVector): Task
      requires Valid()
    {
      robot.solve(robot.jacobian(q), settings.damping, ErrorTask(q))
    }

    /** The linear solve returns a solution of (J J' + damping^2 I) y = e. */
    ghost predicate SolvesAt(q: JointVector)
      requires Valid()
    {
      D.Solves(robot.jacobian(q), TASK, JOINT_COUNT, settings.damping, Solution(q), ErrorTask(q))
    }

    ghost predicate SolvesEverywhere()
      requires Valid()
    {
      forall q: JointVector :: SolvesAt(q)
    }

    function Delta(q: JointVector): JointVector
      requires Valid()
    {
      TransposeTimes(robot.jacobian(q), Solution(q))
    }

    function Next(q: JointVector): JointVector
      requires Valid()
    {
      ClipAll(AddAll(q, BoundedDelta(robot.arc.lib, settings.maxStep, Delta(q))), limits)
    }

    /** The joint position at the start of pass k. */
    function Iterate(seed: JointVector, k: nat): JointVector
      requires Valid()
    {
      if k == 0 then ClipAll(seed, limits) else Next(Iterate(seed, k - 1))
    }

    predicate Converged(q: JointVector)
      requires Valid()
    {
      Within(At(q), settings)
    }
  }

  datatype IkResult = IkResult(succeeded: bool, joints: JointVector, iterations: nat, errors: Errors)

  datatype Outcome = Solved(result: IkResult) | FrameMismatch | WrongJointCount

  lemma {:induction false} FirstIterate(p: Problem, seed: JointVector)
    requires p.Valid()
    ensures p.Iterate(seed, 0) == ClipAll(seed, p.limits)
  {
  }

  lemma NoneYet(p: Problem, seed: JointVector)
    requires p.Valid()
    ensures NoneConverged(p, seed, 0)
  {
  }

  lemma OneMore(p: Problem, seed: JointVector, k: nat)
    requires p.Valid() && NoneConverged(p, seed, k) && !p.Converged(p.Iterate(seed, k))
    ensures NoneConverged(p, seed, k + 1)
  {
  }

  lemma {:induction false} SuccessAnswers(p: Problem, seed: JointVector, k: nat, q: JointVector, errors: Errors)
    requires p.Valid() && k <= p.settings.maxIterations && NoneConverged(p, seed, k)
    requires q == p.Iterate(seed, k) && errors == p.At(q) && p.Converged(q)
    ensures Answers(p, seed, IkResult(true, q, k, errors))
  {
  }

  lemma {:induction false} FailureAnswers(p: Problem, seed: JointVector, q: JointVector, errors: Errors)
    requires p.Valid() && NoneConverged(p, seed, p.settings.maxIterations + 1)
    requires q == p.Iterate(seed, p.settings.maxIterations + 1) && errors == p.At(p.Iterate(seed, p.settings.maxIterations))
    ensures Answers(p, seed, IkResult(false, q, p.settings.maxIterations, errors))
  {
  }

  lemma NextIterate(p: Problem, seed: JointVector, k: nat)
    requires p.Valid()
    ensures p.Iterate(seed, k + 1) == p.Next(p.Iterate(seed, k))
  {
  }

  /** None of the first k iterates is within tolerance. */
  ghost predicate NoneConverged(p: Problem, seed: JointVector, k: nat)
    requires p.Valid()
  {
    forall i: nat | i < k :: !p.Converged(p.Iterate(seed, i))
  }

  /** A success is the first iterate within tolerance, with its errors; a failure is the iterate after
      the last one measured, with the errors of the one before. */
  ghost predicate Answers(p: Problem, seed: JointVector, r: IkResult)
    requires p.Valid()
  {
    var last := p.settings.maxIterations;
    && r.iterations <= last
    && (r.succeeded ==>
          && r.joints == p.Iterate(seed, r.iterations) && r.errors == p.At(r.joints) && p.Converged(r.joints)
          && NoneConverged(p, seed, r.iterations))
    && (!r.succeeded ==>
          && r.iterations == last && r.joints == p.Iterate(seed, last + 1) && r.errors == p.At(p.Iterate(seed, last))
          && NoneConverged(p, seed, last + 1))
  }

  /** The reported errors are those of the returned joints if and only if some iterate up to
      max_iterations was within tolerance or the last update did not change the errors. */
  lemma {:induction false} ReportedErrors(p: Problem, seed: JointVector, r: IkResult)
    requires p.Valid() && Answers(p, seed, r)
    ensures r.succeeded <==> exists k: nat :: k <= p.settings.maxIterations && p.Converged(p.Iterate(seed, k))
    ensures r.errors == p.At(r.joints)
      <==> (exists k: nat :: k <= p.settings.maxIterations && p.Converged(p.Iterate(seed, k)))
           || p.At(p.Iterate(seed, p.settings.maxIterations + 1)) == p.At(p.Iterate(seed, p.settings.maxIterations))
  {
    hide Problem.Valid, Problem.At, Problem.Converged, Problem.Next;
    if r.succeeded {
      var k := r.iterations;
      assert k <= p.settings.maxIterations && p.Converged(p.Iterate(seed, k));
    } else {
      forall k: nat | k <= p.settings.maxIterations
        ensures !p.Converged(p.Iterate(seed, k))
      {
      }
    }
  }

  /** Solve for the target from the seed, after the checks of frames and seed length. */
  method Solve(p: Problem, frames: Frames, expected: Frames, seed: seq<real>) returns (r: Outcome, fkCalls: nat)
    requires p.Valid()
    ensures r.FrameMismatch? <==> frames != expected
    ensures r.WrongJointCount? <==> frames == expected && |seed| != JOINT_COUNT
    ensures fkCalls <= p.settings.maxIterations + 1
    ensures r.Solved? ==> |seed| == JOINT_COUNT && Answers(p, seed, r.result) && fkCalls == r.result.iterations + 1
    ensures r.Solved? && r.result.succeeded ==> CloseToTarget(p, r.result.joints) && InBox(r.result.joints, p.limits)
  {
    if frames != expected {
      return FrameMismatch, 0;
    }
    if |seed| != JOINT_COUNT {
      return WrongJointCount, 0;
    }
    hide Answers, Problem.Valid;
    var result;
    result, fkCalls := Iterations(p, seed);
    r := Solved(result);
    AnswerIsClose(p, seed, result);
  }

  lemma AnswerIsClose(p: Problem, seed: JointVector, r: IkResult)
    requires p.Valid() && Answers(p, seed, r)
    ensures r.succeeded ==> CloseToTarget(p, r.joints) && InBox(r.joints, p.limits)
  {
    hide CloseToTarget, Problem.Converged, Problem.At, Problem.Iterate, InBox;
    if r.succeeded {
      ConvergedIsClose(p, r.joints);
      IterateIsInBox(p, seed, r.iterations);
    }
  }

  /** The loop: each pass measures once, and returns or takes one step. */
  method Iterations(p: Problem, seed: JointVector) returns (r: IkResult, fkCalls: nat)
    requires p.Valid()
    ensures Answers(p, seed, r) && fkCalls == r.iterations + 1 && fkCalls <= p.settings.maxIterations + 1
  {
    assert p.settings.maxIterations >= 1;
    hide Problem.Valid, Problem.Next, Problem.At, Problem.Iterate, Problem.Converged, ClipAll, Within, NoneConverged, Answers;
    FirstIterate(p, seed);
    NoneYet(p, seed);
    var q := ClipAll(seed, p.limits);
    fkCalls := 0;
    while true
      invariant fkCalls <= p.settings.maxIterations
      invariant q == p.Iterate(seed, fkCalls) && NoneConverged(p, seed, fkCalls)
      decreases p.settings.maxIterations - fkCalls
    {
      var iteration, errors := fkCalls, p.At(q);
      fkCalls := fkCalls + 1;
      ConvergedMeans(p, q, errors);
      if Within(errors, p.settings) {
        SuccessAnswers(p, seed, iteration, q, errors);
        return IkResult(true, q, iteration, errors), fkCalls;
      }
      OneMore(p, seed, iteration);
      NextIterate(p, seed, iteration);
      q := p.Next(q);
      if iteration == p.settings.maxIterations {
        FailureAnswers(p, seed, q, errors);
        return IkResult(false, q, iteration, errors), fkCalls;
      }
    }
  }

  lemma ConvergedMeans(p: Problem, q: JointVector, errors: Errors)
    requires p.Valid() && errors == p.At(q)
    ensures p.Converged(q) <==> Within(errors, p.settings)
  {
  }

  // ---------------------------------------------------------------------------------------------
  // Iterates
  // ---------------------------------------------------------------------------------------------

  lemma ClippedIsInBox(q: JointVector, limits: Limits)
    requires limits.Valid()
    ensures InBox(ClipAll(q, limits), limits)
  {
  }

  /** Every iterate, and so every returned joint position, lies in the joint box. */
  lemma {:induction false} IterateIsInBox(p: Problem, seed: JointVector, k: nat)
    requires p.Valid()
    ensures InBox(p.Iterate(seed, k), p.limits)
  {
    if k == 0 {
      ClippedIsInBox(seed, p.limits);
    } else {
      var q := p.Iterate(seed, k - 1);
      ClippedIsInBox(AddAll(q, BoundedDelta(p.robot.arc.lib, p.settings.maxStep, p.Delta(q))), p.limits);
    }
  }

  lemma ClippedMove(x: real, d: real, lower: real, upper: real)
    requires lower <= x <= upper
    ensures var m := Clip(x + d, lower, upper) - x; m * m <= d * d
  {
    var m := Clip(x + d, lower, upper) - x;
    if d >= 0.0 {
      assert 0.0 <= m <= d;
      Squares(m, d);
    } else {
      assert 0.0 <= -m <= -d;
      Squares(-m, -d);
      assert (-m) * (-m) == m * m && (-d) * (-d) == d * d;
    }
  }

  lemma Squares(a: real, b: real)
    requires 0.0 <= a <= b
    ensures a * a <= b * b
  {
  }

  lemma {:induction false} SumOfSquaresMonotone(a: seq<real>, b: seq<real>)
    requires |a| == |b| && forall i | 0 <= i < |a| :: a[i] * a[i] <= b[i] * b[i]
    ensures SumOfSquares(a) <= SumOfSquares(b)
  {
    if a != [] {
      SumOfSquaresMonotone(a[..|a| - 1], b[..|b| - 1]);
    }
  }

  lemma {:induction false} SumOfSquaresScales(d: seq<real>, e: seq<real>, a: real)
    requires |d| == |e| && forall i | 0 <= i < |d| :: e[i] == d[i] * a
    ensures SumOfSquares(e) == a * a * SumOfSquares(d)
  {
    if d != [] {
      var n := |d| - 1;
      SumOfSquaresScales(d[..n], e[..n], a);
      ScaledSquare(d[n], e[n], a, SumOfSquares(d[..n]));
    }
  }

  lemma ScaledSquare(d: real, e: real, a: real, s: real)
    requires e == d * a
    ensures a * a * s + e * e == a * a * (s + d * d)
  {
  }

  lemma {:induction false} SumOfSquaresIsNonnegative(d: seq<real>)
    ensures SumOfSquares(d) >= 0.0
  {
    if d != [] {
      SumOfSquaresIsNonnegative(d[..|d| - 1]);
      SquareIsZero(d[|d| - 1], d[|d| - 1] * d[|d| - 1]);
    }
  }

  lemma BoundedDeltaIsShort(lib: Library, maxStep: real, d: JointVector)
    requires lib.Valid() && maxStep > 0.0
    ensures SumOfSquares(BoundedDelta(lib, maxStep, d)) <= maxStep * maxStep
  {
    SumOfSquaresIsNonnegative(d);
    assert lib.RootLaw(SumOfSquares(d));
    var norm := lib.sqrt(SumOfSquares(d));
    if norm > maxStep {
      var a := maxStep / norm;
      SumOfSquaresScales(d, ScaleAll(a, d), a);
      ScaledToMax(a, norm, maxStep, SumOfSquares(d));
    } else {
      Squares(norm, maxStep);
    }
  }

  lemma ScaledToMax(a: real, norm: real, maxStep: real, s: real)
    requires norm > 0.0 && a == maxStep / norm && norm * norm == s
    ensures a * a * s == maxStep * maxStep
  {
    assert a * norm == maxStep;
    assert a * a * s == (a * norm) * (a * norm);
  }

  lemma {:induction false} ClippedStepIsShort(q: JointVector, d: JointVector, limits: Limits)
    requires InBox(q, limits)
    ensures SumOfSquares(Trajectories.Minus(ClipAll(AddAll(q, d), limits), q)) <= SumOfSquares(d)
  {
    var moved := Trajectories.Minus(ClipAll(AddAll(q, d), limits), q);
    forall i | 0 <= i < JOINT_COUNT
      ensures moved[i] * moved[i] <= d[i] * d[i]
    {
      ClippedMove(q[i], d[i], limits.lower[i], limits.upper[i]);
    }
    hide Clip;
    SumOfSquaresMonotone(moved, d);
  }

  /** Every update moves the joints by at most the largest step in Euclidean norm, clipping included. */
  lemma UpdateIsShort(p: Problem, seed: JointVector, k: nat)
    requires p.Valid()
    ensures SumOfSquares(Trajectories.Minus(p.Iterate(seed, k + 1), p.Iterate(seed, k))) <= p.settings.maxStep * p.settings.maxStep
  {
    hide InBox, BoundedDelta, Problem.Delta, SumOfSquares, ClipAll, AddAll, Library.Valid, Trajectories.Minus;
    IterateIsInBox(p, seed, k);
    var q := p.Iterate(seed, k);
    BoundedDeltaIsShort(p.robot.arc.lib, p.settings.maxStep, p.Delta(q));
    ClippedStepIsShort(q, BoundedDelta(p.robot.arc.lib, p.settings.maxStep, p.Delta(q)), p.limits);
  }

  // ---------------------------------------------------------------------------------------------
  // The step
  // ---------------------------------------------------------------------------------------------

  /** The step is the only one that the damped system allows: every solution gives the same. */
  lemma StepIsUnique(p: Problem, q: JointVector, y: Task)
    requires p.Valid() && p.SolvesAt(q)
    requires D.Solves(p.robot.jacobian(q), TASK, JOINT_COUNT, p.settings.damping, y, p.ErrorTask(q))
    ensures TransposeTimes(p.robot.jacobian(q), y) == p.Delta(q)
  {
    var j, x := p.robot.jacobian(q), p.Solution(q);
    D.SolutionIsUnique(j, TASK, JOINT_COUNT, p.settings.damping, y, x, p.ErrorTask(q));
    forall k: nat | k < JOINT_COUNT
      ensures D.Along(j, y, k, TASK) == D.Along(j, x, k, TASK)
    {
      SameAlong(j, y, x, k, TASK);
    }
  }

  lemma {:induction false} SameAlong(j: D.Jacobian, x: Task, y: Task, k: nat, n: nat)
    requires forall a: nat | a < n :: x(a) == y(a)
    ensures D.Along(j, x, k, n) == D.Along(j, y, k, n)
  {
    if n > 0 {
      SameAlong(j, x, y, k, n - 1);
    }
  }

  lemma NextSquare(j: D.Jacobian, y: Task, m: nat, d: seq<real>, init: seq<real>)
    requires d != [] && d[..|d| - 1] == init && d[|d| - 1] == D.Along(j, y, m, TASK)
    requires SumOfSquares(init) == D.StepSquares(j, y, m, TASK)
    ensures SumOfSquares(d) == D.StepSquares(j, y, m + 1, TASK)
  {
    hide D.Along;
  }

  lemma {:induction false} LastSquare(d: seq<real>, init: seq<real>, last: real)
    requires d != [] && d[..|d| - 1] == init && d[|d| - 1] == last
    ensures SumOfSquares(d) == SumOfSquares(init) + last * last
  {
  }

  lemma {:induction false} SquaresOfStep(j: D.Jacobian, y: Task, m: nat)
    requires m <= JOINT_COUNT
    ensures SumOfSquares(TransposeTimes(j, y)[..m]) == D.StepSquares(j, y, m, TASK)
  {
    var d := TransposeTimes(j, y);
    if m > 0 {
      hide SumOfSquares, D.Along, D.StepSquares;
      assert d[..m][..m - 1] == d[..m - 1] && d[..m][m - 1] == d[m - 1];
      SquaresOfStep(j, y, m - 1);
      NextSquare(j, y, m - 1, d[..m], d[..m - 1]);
    }
  }

  lemma SquaresOfError(o: Vec3, e: Vec3)
    ensures D.Squares(ErrorVector(o, e), TASK) == Dot(o, o) + Dot(e, e)
  {
    var t := ErrorVector(o, e);
    assert D.Squares(t, 2) == o.x * o.x + o.y * o.y;
    assert D.Squares(t, 4) == Dot(o, o) + e.x * e.x;
  }

  /** For every Jacobian, however singular, the step is at most |error| / (2 damping) long. */
  lemma DampingBoundsStep(p: Problem, q: JointVector)
    requires p.Valid() && p.SolvesAt(q)
    ensures var (o, e) := (OrientationError(p.robot, p.target, q), PositionError(p.robot, p.target, q));
      4.0 * ((p.settings.damping * p.settings.damping) * SumOfSquares(p.Delta(q))) <= Dot(o, o) + Dot(e, e)
  {
    hide SumOfSquares, Dot, OrientationError, PositionError, ErrorVector, TransposeTimes;
    var j, y, d := p.robot.jacobian(q), p.Solution(q), p.Delta(q);
    var o, e := OrientationError(p.robot, p.target, q), PositionError(p.robot, p.target, q);
    SquaresOfStep(j, y, JOINT_COUNT);
    assert d[..JOINT_COUNT] == d;
    SquaresOfError(o, e);
    D.StepIsBounded(j, TASK, JOINT_COUNT, p.settings.damping, y, p.ErrorTask(q), SumOfSquares(d), Dot(o, o) + Dot(e, e));
  }

  // ---------------------------------------------------------------------------------------------
  // What the step is for
  // ---------------------------------------------------------------------------------------------

  function Squared(x: real): real {
    x * x
  }

  /** Row a of the Jacobian times a joint step. */
  function RowTimesStep(j: D.Jacobian, a: nat, d: JointVector): real {
    j(a, 0) * d[0] + j(a, 1) * d[1] + j(a, 2) * d[2] + j(a, 3) * d[3] + j(a, 4) * d[4] + j(a, 5) * d[5]
  }

  /** How far the linear motion of the hand under the joint step d misses the target, squared, plus the
      damped square of the step: rows 0 to 2 of the Jacobian turn the hand, rows 3 to 5 move it. */
  function StepCost(p: Problem, q: JointVector, d: JointVector): real
    requires p.Valid()
  {
    var j, hand := p.robot.jacobian(q), p.robot.fk(q);
    var turn := Log(p.robot.arc, Mul(p.target.rotation, Transpose(hand.rotation)));
    var to, from := p.target.translation, hand.translation;
    Squared(RowTimesStep(j, 0, d) - turn.x) + Squared(RowTimesStep(j, 1, d) - turn.y) + Squared(RowTimesStep(j, 2, d) - turn.z)
    + Squared(RowTimesStep(j, 3, d) - (to.x - from.x)) + Squared(RowTimesStep(j, 4, d) - (to.y - from.y))
    + Squared(RowTimesStep(j, 5, d) - (to.z - from.z))
    + p.settings.damping * p.settings.damping
      * (Squared(d[0]) + Squared(d[1]) + Squared(d[2]) + Squared(d[3]) + Squared(d[4]) + Squared(d[5]))
  }

  lemma {:induction false} ImageWritten(j: D.Jacobian, f: nat -> real, d: JointVector, a: nat)
    requires forall k: nat | k < JOINT_COUNT :: f(k) == d[k]
    ensures D.Image(j, f, JOINT_COUNT, a) == RowTimesStep(j, a, d)
  {
    assert D.Image(j, f, 0, a) == 0.0;
    hide D.Image;
    OneColumn(j, f, 0, a);
    OneColumn(j, f, 1, a);
    OneColumn(j, f, 2, a);
    OneColumn(j, f, 3, a);
    OneColumn(j, f, 4, a);
    OneColumn(j, f, 5, a);
  }

  lemma OneColumn(j: D.Jacobian, f: nat -> real, m: nat, a: nat)
    ensures D.Image(j, f, m + 1, a) == D.Image(j, f, m, a) + j(a, m) * f(m)
  {
  }

  lemma {:induction false} MisfitWritten(j: D.Jacobian, f: nat -> real, d: JointVector, e: Task)
    requires forall k: nat | k < JOINT_COUNT :: f(k) == d[k]
    ensures D.Misfit(j, JOINT_COUNT, f, e, TASK)
         == Squared(RowTimesStep(j, 0, d) - e(0)) + Squared(RowTimesStep(j, 1, d) - e(1)) + Squared(RowTimesStep(j, 2, d) - e(2))
            + Squared(RowTimesStep(j, 3, d) - e(3)) + Squared(RowTimesStep(j, 4, d) - e(4)) + Squared(RowTimesStep(j, 5, d) - e(5))
  {
    forall a: nat
      ensures D.Image(j, f, JOINT_COUNT, a) == RowTimesStep(j, a, d)
    {
      ImageWritten(j, f, d, a);
    }
    hide D.Image, RowTimesStep, Squared;
    MisfitRows(j, f, e);
  }

  lemma OneRow(j: D.Jacobian, f: nat -> real, e: Task, n: nat)
    ensures D.Misfit(j, JOINT_COUNT, f, e, n + 1)
         == D.Misfit(j, JOINT_COUNT, f, e, n) + Squared(D.Image(j, f, JOINT_COUNT, n) - e(n))
  {
  }

  lemma MisfitRows(j: D.Jacobian, f: nat -> real, e: Task)
    ensures D.Misfit(j, JOINT_COUNT, f, e, TASK)
         == Squared(D.Image(j, f, JOINT_COUNT, 0) - e(0)) + Squared(D.Image(j, f, JOINT_COUNT, 1) - e(1))
            + Squared(D.Image(j, f, JOINT_COUNT, 2) - e(2)) + Squared(D.Image(j, f, JOINT_COUNT, 3) - e(3))
            + Squared(D.Image(j, f, JOINT_COUNT, 4) - e(4)) + Squared(D.Image(j, f, JOINT_COUNT, 5) - e(5))
  {
    assert D.Misfit(j, JOINT_COUNT, f, e, 0) == 0.0;
    hide D.Misfit, D.Image, Squared;
    OneRow(j, f, e, 0);
    OneRow(j, f, e, 1);
    OneRow(j, f, e, 2);
    OneRow(j, f, e, 3);
    OneRow(j, f, e, 4);
    OneRow(j, f, e, 5);
  }

  lemma SquaresWritten(f: nat -> real, d: JointVector)
    requires forall k: nat | k < JOINT_COUNT :: f(k) == d[k]
    ensures D.Squares(f, JOINT_COUNT)
         == Squared(d[0]) + Squared(d[1]) + Squared(d[2]) + Squared(d[3]) + Squared(d[4]) + Squared(d[5])
  {
    assert D.Squares(f, 2) == Squared(d[0]) + Squared(d[1]);
    assert D.Squares(f, 4) == D.Squares(f, 2) + Squared(d[2]) + Squared(d[3]);
    assert D.Squares(f, 6) == D.Squares(f, 4) + Squared(d[4]) + Squared(d[5]);
  }

  lemma CostWritten(p: Problem, q: JointVector, f: nat -> real, d: JointVector)
    requires p.Valid() && forall k: nat | k < JOINT_COUNT :: f(k) == d[k]
    ensures D.Cost(p.robot.jacobian(q), TASK, JOINT_COUNT, p.settings.damping, f, p.ErrorTask(q)) == StepCost(p, q, d)
  {
    hide D.Misfit, D.Squares, Squared, RowTimesStep, Problem.ErrorTask;
    MisfitWritten(p.robot.jacobian(q), f, d, p.ErrorTask(q));
    SquaresWritten(f, d);
    ErrorEntries(p, q);
    SameProduct(p.settings.damping, D.Squares(f, JOINT_COUNT),
                Squared(d[0]) + Squared(d[1]) + Squared(d[2]) + Squared(d[3]) + Squared(d[4]) + Squared(d[5]));
  }

  lemma SameProduct(t: real, a: real, b: real)
    requires a == b
    ensures t * t * a == t * t * b
  {
  }

  lemma ErrorEntries(p: Problem, q: JointVector)
    requires p.Valid()
    ensures var turn := Log(p.robot.arc, Mul(p.target.rotation, Transpose(p.robot.fk(q).rotation)));
      var to, from := p.target.translation, p.robot.fk(q).translation;
      var e := p.ErrorTask(q);
      && e(0) == turn.x && e(1) == turn.y && e(2) == turn.z
      && e(3) == to.x - from.x && e(4) == to.y - from.y && e(5) == to.z - from.z
  {
    hide Log, Mul, Transpose, Problem.Valid;
  }

  /** Of all joint steps the computed one costs least, and no other costs as little. */
  lemma StepMinimises(p: Problem, q: JointVector, d: JointVector)
    requires p.Valid() && p.SolvesAt(q)
    ensures StepCost(p, q, p.Delta(q)) <= StepCost(p, q, d)
    ensures StepCost(p, q, p.Delta(q)) == StepCost(p, q, d) ==> d == p.Delta(q)
  {
    var j, y := p.robot.jacobian(q), p.Solution(q);
    var f := (k: nat) => if k < JOINT_COUNT then d[k] else 0.0;
    var step := D.Step(j, y, TASK);
    var delta := p.Delta(q);
    assert forall k: nat | k < JOINT_COUNT :: step(k) == delta[k];
    assert p.settings.damping > 0.0;
    CostWritten(p, q, step, delta);
    CostWritten(p, q, f, d);
    hide D.Cost, D.Step, StepCost, Problem.Valid, Problem.Delta, Problem.ErrorTask, Problem.Solution;
    D.StepIsCheapest(j, TASK, JOINT_COUNT, p.settings.damping, y, f, p.ErrorTask(q));
    if StepCost(p, q, delta) == StepCost(p, q, d) {
      forall k: nat | k < JOINT_COUNT
        ensures d[k] == delta[k]
      {
        assert f(k) == step(k);
      }
    }
  }

  /** A rotation from which the hand is away by a turn about a unit axis gives that turn as its error. */
  lemma TurnIsTheError(p: Problem, q: JointVector, u: Vec3, angle: real)
    requires p.Valid() && IsRotation(p.robot.fk(q).rotation) && UnitVector(p.robot.arc.lib, u)
    requires SMALL_ANGLE <= angle <= p.robot.arc.lib.pi - NEAR_HALF_TURN
    requires p.target.rotation == Mul(RotationExp(p.robot.arc.lib, u, angle), p.robot.fk(q).rotation)
    ensures OrientationError(p.robot, p.target, q) == Geometry.Times(angle, u)
  {
    var turn, r := RotationExp(p.robot.arc.lib, u, angle), p.robot.fk(q).rotation;
    hide RotationExp, Mul, Transpose, Log, IsRotation;
    MulAssociates(turn, r, Transpose(r));
    RotationUndone(r);
    TimesIdentity(turn);
    LogInverts(p.robot.arc, u, angle);
  }

  lemma RotationUndone(m: Mat3)
    requires IsRotation(m)
    ensures Mul(m, Transpose(m)) == IDENTITY3
  {
    RowsOfRotation(m);
    DotCommutes(m.r0, m.r1);
    DotCommutes(m.r1, m.r2);
    DotCommutes(m.r2, m.r0);
    RowsTimesRows(m);
    hide Dot, Mul, Transpose, IsRotation;
  }

  lemma RowsTimesRows(m: Mat3)
    ensures Mul(m, Transpose(m)) == Mat3(Vec3(Dot(m.r0, m.r0), Dot(m.r1, m.r0), Dot(m.r2, m.r0)),
                                         Vec3(Dot(m.r0, m.r1), Dot(m.r1, m.r1), Dot(m.r2, m.r1)),
                                         Vec3(Dot(m.r0, m.r2), Dot(m.r1, m.r2), Dot(m.r2, m.r2)))
  {
    ApplyByColumns(m, m.r0);
    ApplyByColumns(m, m.r1);
    ApplyByColumns(m, m.r2);
    hide Dot, Comb;
  }

  lemma TimesIdentity(m: Mat3)
    ensures Mul(m, IDENTITY3) == m
  {
  }

  /** The hand is within both tolerances of the target. */
  predicate CloseToTarget(p: Problem, q: JointVector)
    requires p.Valid()
  {
    var hand := p.robot.fk(q);
    var turn := Log(p.robot.arc, Mul(p.target.rotation, Transpose(hand.rotation)));
    var to, from := p.target.translation, hand.translation;
    && Squared(to.x - from.x) + Squared(to.y - from.y) + Squared(to.z - from.z) <= Squared(p.settings.positionTolerance)
    && Squared(turn.x) + Squared(turn.y) + Squared(turn.z) <= Squared(p.settings.orientationTolerance)
  }

  lemma ConvergedIsClose(p: Problem, q: JointVector)
    requires p.Valid()
    ensures p.Converged(q) <==> CloseToTarget(p, q)
  {
    var turn, way := OrientationError(p.robot, p.target, q), PositionError(p.robot, p.target, q);
    assert p.settings.positionTolerance > 0.0 && p.settings.orientationTolerance > 0.0 && p.robot.arc.lib.Valid();
    NormWithin(p.robot.arc.lib, way, p.settings.positionTolerance);
    NormWithin(p.robot.arc.lib, turn, p.settings.orientationTolerance);
    hide Norm, Squared;
  }

  lemma NormWithin(lib: Library, v: Vec3, bound: real)
    requires lib.Valid() && bound > 0.0
    ensures Norm(lib, v) <= bound <==> Squared(v.x) + Squared(v.y) + Squared(v.z) <= Squared(bound)
  {
    var d := Dot(v, v);
    SquareIsZero(v.x, v.x * v.x);
    SquareIsZero(v.y, v.y * v.y);
    SquareIsZero(v.z, v.z * v.z);
    assert lib.RootLaw(d);
    RootWithin(lib.sqrt(d), bound, d, bound * bound);
  }

  lemma RootWithin(root: real, bound: real, d: real, b: real)
    requires root >= 0.0 && bound > 0.0 && d == root * root && b == bound * bound
    ensures root <= bound <==> d <= b
  {
    if root <= bound {
      NonnegativeProduct(bound - root, bound + root, b - d);
    } else {
      PositiveProduct(root - bound, bound + root, d - b);
    }
  }

  // ---------------------------------------------------------------------------------------------
  // A hand on three sliders
  // ---------------------------------------------------------------------------------------------

  /** Joints 0, 1 and 2 slide the hand along x, y and z. */
  function GantryJacobian(): D.Jacobian {
    (a: nat, k: nat) => if a == k + 3 && k < 3 then 1.0 else 0.0
  }

  ghost predicate IsGantry(p: Problem) {
    && IsRotation(p.target.rotation)
    && forall q: JointVector ::
         p.robot.jacobian(q) == GantryJacobian() && p.robot.fk(q) == Pose(p.target.rotation, Vec3(q[0], q[1], q[2]))
  }

  lemma NoTurnLeft(p: Problem, q: JointVector)
    requires p.Valid() && IsGantry(p)
    ensures Log(p.robot.arc, Mul(p.target.rotation, Transpose(p.robot.fk(q).rotation))) == ORIGIN
  {
    RotationUndone(p.target.rotation);
    NoTurn(p.robot.arc);
    assert Mul(IDENTITY3, Transpose(IDENTITY3)) == IDENTITY3;
    hide Log, Mul, Transpose, IsRotation;
  }

  function SixSquares(d: JointVector): real {
    Squared(d[0]) + Squared(d[1]) + Squared(d[2]) + Squared(d[3]) + Squared(d[4]) + Squared(d[5])
  }

  lemma GantryCost(p: Problem, q: JointVector, d: JointVector, t: real)
    requires p.Valid() && IsGantry(p) && t == p.settings.damping * p.settings.damping
    ensures var to := p.target.translation;
      StepCost(p, q, d) == Squared(d[0] - (to.x - q[0])) + Squared(d[1] - (to.y - q[1])) + Squared(d[2] - (to.z - q[2]))
        + t * SixSquares(d)
  {
    NoTurnLeft(p, q);
    GantryRows(d);
    hide Log, Mul, Transpose, RowTimesStep;
  }

  lemma GantryRows(d: JointVector)
    ensures forall a: nat | a < TASK ::
      RowTimesStep(GantryJacobian(), a, d) == if a == 3 then d[0] else if a == 4 then d[1] else if a == 5 then d[2] else 0.0
  {
  }

  /** Along each axis apart the damped error is the cheapest step. */
  lemma CheapestAlong(d: real, e: real, t: real, c: real)
    requires t > 0.0 && c == e / (1.0 + t)
    ensures Squared(c - e) + t * Squared(c) <= Squared(d - e) + t * Squared(d)
  {
    var h := d - c;
    assert e == c + t * c;
    SquareIsZero(h, h * h);
    NonnegativeProduct(1.0 + t, h * h, (1.0 + t) * (h * h));
    AlongScalars(c, t, h, t * c);
  }

  lemma AlongScalars(c: real, t: real, h: real, tc: real)
    requires tc == t * c
    ensures Squared(h - tc) + t * Squared(c + h) == Squared(tc) + t * Squared(c) + (1.0 + t) * (h * h)
  {
    assert t * ((c + h) * (c + h)) == t * (c * c) + 2.0 * (tc * h) + t * (h * h);
  }

  /** The step of the gantry: the error along each axis, divided by 1 + damping^2. */
  lemma GantryDelta(p: Problem, q: JointVector, t: real)
    requires p.Valid() && IsGantry(p) && p.SolvesAt(q) && t == p.settings.damping * p.settings.damping && t > 0.0
    ensures var to := p.target.translation;
      p.Delta(q) == DampedError(to.x - q[0], to.y - q[1], to.z - q[2], t)
  {
    hide StepCost, Problem.Delta, Squared, SixSquares;
    var to, d := p.target.translation, p.Delta(q);
    var c: JointVector := DampedError(to.x - q[0], to.y - q[1], to.z - q[2], t);
    StepMinimises(p, q, c);
    GantryCost(p, q, c, t);
    GantryCost(p, q, d, t);
    CheapestOfAll(to.x - q[0], to.y - q[1], to.z - q[2], t, d);
  }

  function DampedError(x: real, y: real, z: real, t: real): JointVector
    requires t > 0.0
  {
    [x / (1.0 + t), y / (1.0 + t), z / (1.0 + t), 0.0, 0.0, 0.0]
  }

  lemma CheapestOfAll(x: real, y: real, z: real, t: real, d: JointVector)
    requires t > 0.0
    ensures var c := DampedError(x, y, z, t);
      Squared(c[0] - x) + Squared(c[1] - y) + Squared(c[2] - z)
      + t * SixSquares(c) <= Squared(d[0] - x) + Squared(d[1] - y) + Squared(d[2] - z) + t * SixSquares(d)
  {
    var c := DampedError(x, y, z, t);
    CheapestAlong(d[0], x, t, c[0]);
    CheapestAlong(d[1], y, t, c[1]);
    CheapestAlong(d[2], z, t, c[2]);
    RestCosts(t, d);
    hide Squared, DampedError;
    assert c[3] == 0.0 && c[4] == 0.0 && c[5] == 0.0;
    CostOfSix(t, Squared(d[0]), Squared(d[1]), Squared(d[2]), Squared(d[3]), Squared(d[4]), Squared(d[5]));
    CostOfSix(t, Squared(c[0]), Squared(c[1]), Squared(c[2]), Squared(c[3]), Squared(c[4]), Squared(c[5]));
  }

  lemma CostOfSix(t: real, a: real, b: real, c: real, d: real, e: real, f: real)
    ensures t * (a + b + c + d + e + f) == t * a + t * b + t * c + t * d + t * e + t * f
  {
  }

  lemma RestCosts(t: real, d: JointVector)
    requires t > 0.0
    ensures t * Squared(d[3]) >= 0.0 && t * Squared(d[4]) >= 0.0 && t * Squared(d[5]) >= 0.0 && t * Squared(0.0) == 0.0
  {
    SquareIsZero(d[3], d[3] * d[3]);
    SquareIsZero(d[4], d[4] * d[4]);
    SquareIsZero(d[5], d[5] * d[5]);
    NonnegativeProduct(t, Squared(d[3]), t * Squared(d[3]));
    NonnegativeProduct(t, Squared(d[4]), t * Squared(d[4]));
    NonnegativeProduct(t, Squared(d[5]), t * Squared(d[5]));
  }

  /** One pass of the solver moves the gantry by the same share of the error along each axis, so every
      component of the error shrinks and none changes its sign, as long as no joint limit is in the way. */
  lemma GantryApproaches(p: Problem, q: JointVector) returns (share: real)
    requires p.Valid() && IsGantry(p) && p.SolvesAt(q)
    requires InBox(AddAll(q, BoundedDelta(p.robot.arc.lib, p.settings.maxStep, p.Delta(q))), p.limits)
    ensures 0.0 < share < 1.0
    ensures var to, r := p.target.translation, p.Next(q);
      && to.x - r[0] == (1.0 - share) * (to.x - q[0])
      && to.y - r[1] == (1.0 - share) * (to.y - q[1])
      && to.z - r[2] == (1.0 - share) * (to.z - q[2])
  {
    hide BoundedDelta, Problem.Delta, InBox, ClipAll, IsGantry, AddAll, Problem.SolvesAt;
    var t, d := p.settings.damping * p.settings.damping, p.Delta(q);
    PositiveProduct(p.settings.damping, p.settings.damping, t);
    GantryDelta(p, q, t);
    var a := BoundingShare(p.robot.arc.lib, p.settings.maxStep, d);
    share := a / (1.0 + t);
    ShareOf(a, 1.0 + t, share);
    var b := BoundedDelta(p.robot.arc.lib, p.settings.maxStep, d);
    NotClipped(AddAll(q, b), p.limits);
    AddedUp(q, b);
    var to := p.target.translation;
    ShareOfError(to.x - q[0], to.y - q[1], to.z - q[2], t, a, share, d, b);
  }

  lemma AddedUp(q: JointVector, b: JointVector)
    ensures forall i | 0 <= i < JOINT_COUNT :: AddAll(q, b)[i] == q[i] + b[i]
  {
  }

  lemma ShareOfError(x: real, y: real, z: real, t: real, a: real, share: real, d: JointVector, b: JointVector)
    requires t > 0.0 && share == a / (1.0 + t) && d == DampedError(x, y, z, t)
    requires b[0] == d[0] * a && b[1] == d[1] * a && b[2] == d[2] * a
    ensures x - b[0] == (1.0 - share) * x && y - b[1] == (1.0 - share) * y && z - b[2] == (1.0 - share) * z
  {
    ShareMoves(x, 1.0 + t, a, share, d[0], b[0]);
    ShareMoves(y, 1.0 + t, a, share, d[1], b[1]);
    ShareMoves(z, 1.0 + t, a, share, d[2], b[2]);
  }

  lemma BoundingShare(lib: Library, maxStep: real, d: JointVector) returns (a: real)
    requires lib.Valid() && maxStep > 0.0
    ensures 0.0 < a <= 1.0 && forall i | 0 <= i < JOINT_COUNT :: BoundedDelta(lib, maxStep, d)[i] == d[i] * a
  {
    var norm := lib.sqrt(SumOfSquares(d));
    a := if norm > maxStep then maxStep / norm else 1.0;
    if norm > maxStep {
      QuotientIsShare(maxStep, norm, a);
    }
  }

  lemma QuotientIsShare(x: real, y: real, a: real)
    requires 0.0 < x < y && a == x / y
    ensures 0.0 < a < 1.0
  {
    assert a * y == x;
    if a >= 1.0 {
      NonnegativeProduct(a - 1.0, y, (a - 1.0) * y);
    } else if a <= 0.0 {
      NonnegativeProduct(-a, y, (-a) * y);
    }
  }

  lemma ShareOf(a: real, t: real, share: real)
    requires 0.0 < a <= 1.0 && t > 1.0 && share == a / t
    ensures 0.0 < share < 1.0
  {
    QuotientIsShare(a, t, share);
  }

  lemma ShareMoves(e: real, t: real, a: real, share: real, d: real, b: real)
    requires t > 0.0 && d == e / t && b == d * a && share == a / t
    ensures e - b == (1.0 - share) * e
  {
    assert b == share * e;
  }

  lemma NotClipped(q: JointVector, limits: Limits)
    requires InBox(q, limits)
    ensures ClipAll(q, limits) == q
  {
  }

  // ---------------------------------------------------------------------------------------------
  // The errors of a failure are those of the iterate before the returned one
  // ---------------------------------------------------------------------------------------------

  const HALF: JointVector := [0.5, 0.0, 0.0, 0.0, 0.0, 0.0]
  const NEARLY: JointVector := [0.5 + 0.5 / 1.01, 0.0, 0.0, 0.0, 0.0, 0.0]
  const LOW: JointVector := [-2.0, -2.0, -2.0, -2.0, -2.0, -2.0]
  const HIGH: JointVector := [2.0, 2.0, 2.0, 2.0, 2.0, 2.0]

  /** The first joint slides along x; the others do nothing. */
  function SliderJacobian(): D.Jacobian {
    (a: nat, k: nat) => if a == 3 && k == 0 then 1.0 else 0.0
  }

  /** The solution of the damped system, which is diagonal for this Jacobian. */
  function DiagonalSolve(damping: real, e: Task): Task {
    (a: nat) =>
      var entry := (if a == 3 then 1.0 else 0.0) + damping * damping;
      if entry == 0.0 then 0.0 else e(a) / entry
  }

  /** A slider one metre from its target, with steps of at most half a metre, damping 0.1, a tolerance of
      0.1 and one iteration allowed. */
  function Slider(arc: Arc): Problem {
    Problem(Robot(arc, (q: JointVector) => Pose(IDENTITY3, Vec3(q[0], 0.0, 0.0)), q => SliderJacobian(),
                  (j, damping, e) => DiagonalSolve(damping, e)),
            Pose(IDENTITY3, Vec3(1.0, 0.0, 0.0)), Limits(LOW, HIGH), Settings(1, 0.1, 0.5, 0.1, 0.1))
  }

  lemma {:induction false} SliderGram(m: nat, a: nat, b: nat)
    ensures D.Gram(SliderJacobian(), m, a, b) == if m > 0 && a == 3 && b == 3 then 1.0 else 0.0
  {
    if m > 0 {
      SliderGram(m - 1, a, b);
    }
  }

  lemma {:induction false} SliderRow(damping: real, x: Task, a: nat, n: nat)
    ensures D.RowTimes(SliderJacobian(), JOINT_COUNT, damping, x, a, n)
         == if a < n then ((if a == 3 then 1.0 else 0.0) + damping * damping) * x(a) else 0.0
  {
    if n > 0 {
      SliderRow(damping, x, a, n - 1);
      SliderGram(JOINT_COUNT, a, n - 1);
    }
  }

  lemma QuotientTimesBack(e: real, d: real)
    requires d != 0.0
    ensures d * (e / d) == e
  {
  }

  /** The linear solve of the slider is a solution for every right side. */
  lemma SliderSolves(damping: real, e: Task)
    requires damping > 0.0
    ensures D.Solves(SliderJacobian(), TASK, JOINT_COUNT, damping, DiagonalSolve(damping, e), e)
  {
    var x := DiagonalSolve(damping, e);
    PositiveProduct(damping, damping, damping * damping);
    forall a: nat | a < TASK
      ensures D.RowTimes(SliderJacobian(), JOINT_COUNT, damping, x, a, TASK) == e(a)
    {
      SliderRow(damping, x, a, TASK);
      QuotientTimesBack(e(a), (if a == 3 then 1.0 else 0.0) + damping * damping);
    }
  }

  lemma {:induction false} SliderStepEntry(y: Task, k: nat, n: nat)
    ensures D.Along(SliderJacobian(), y, k, n) == if k == 0 && n > 3 then y(3) else 0.0
  {
    if n > 0 {
      SliderStepEntry(y, k, n - 1);
    }
  }

  lemma NoTurn(arc: Arc)
    requires arc.Valid()
    ensures Log(arc, Mul(IDENTITY3, Transpose(IDENTITY3))) == ORIGIN
  {
    assert Mul(IDENTITY3, Transpose(IDENTITY3)) == IDENTITY3;
    assert arc.HalfTurnLaw(0.0);
  }

  lemma DotAlongX(e: real, ee: real)
    requires ee == e * e
    ensures Dot(Vec3(e, 0.0, 0.0), Vec3(e, 0.0, 0.0)) == ee && Dot(ORIGIN, ORIGIN) == 0.0
  {
  }

  lemma NormAlongX(lib: Library, e: real)
    requires lib.Valid() && e >= 0.0
    ensures Norm(lib, Vec3(e, 0.0, 0.0)) == e && Norm(lib, ORIGIN) == 0.0
  {
    hide Library.Valid, Dot;
    DotAlongX(e, e * e);
    RootOf(lib, e * e, e);
    RootOf(lib, 0.0, 0.0);
  }

  lemma SliderErrors(arc: Arc, q: JointVector)
    requires arc.Valid() && Slider(arc).Valid() && q[0] <= 1.0
    ensures OrientationError(Slider(arc).robot, Slider(arc).target, q) == ORIGIN
    ensures PositionError(Slider(arc).robot, Slider(arc).target, q) == Vec3(1.0 - q[0], 0.0, 0.0)
    ensures Slider(arc).At(q) == Errors(1.0 - q[0], 0.0)
    ensures Slider(arc).Converged(q) <==> q[0] >= 0.9
  {
    hide Log, Mul, Transpose, Norm, Library.Valid;
    NoTurn(arc);
    NormAlongX(arc.lib, 1.0 - q[0]);
  }

  /** The damped step of the slider: the error divided by 1.01. */
  lemma SliderDelta(arc: Arc, q: JointVector)
    requires arc.Valid() && Slider(arc).Valid() && q[0] <= 1.0
    ensures Slider(arc).Delta(q) == [(1.0 - q[0]) / 1.01, 0.0, 0.0, 0.0, 0.0, 0.0]
  {
    hide Problem.Solution, OrientationError, PositionError, Problem.Converged, Problem.At, Arc.Valid;
    SliderErrors(arc, q);
    SliderSolution(arc, q);
    var y := Slider(arc).Solution(q);
    forall k: nat | k < JOINT_COUNT
      ensures D.Along(SliderJacobian(), y, k, TASK) == if k == 0 then y(3) else 0.0
    {
      SliderStepEntry(y, k, TASK);
    }
  }

  lemma SliderSolution(arc: Arc, q: JointVector)
    requires arc.Valid() && Slider(arc).Valid()
    requires PositionError(Slider(arc).robot, Slider(arc).target, q) == Vec3(1.0 - q[0], 0.0, 0.0)
    ensures Slider(arc).Solution(q)(3) == (1.0 - q[0]) / 1.01
  {
    hide OrientationError, PositionError;
    assert Slider(arc).ErrorTask(q)(3) == 1.0 - q[0];
  }

  lemma OneEntrySquares(x: real)
    ensures SumOfSquares([x, 0.0, 0.0, 0.0, 0.0, 0.0]) == x * x
  {
    LastSquare([x], [], x);
    LastSquare([x, 0.0], [x], 0.0);
    LastSquare([x, 0.0, 0.0], [x, 0.0], 0.0);
    LastSquare([x, 0.0, 0.0, 0.0], [x, 0.0, 0.0], 0.0);
    LastSquare([x, 0.0, 0.0, 0.0, 0.0], [x, 0.0, 0.0, 0.0], 0.0);
    LastSquare([x, 0.0, 0.0, 0.0, 0.0, 0.0], [x, 0.0, 0.0, 0.0, 0.0], 0.0);
  }

  /** Half a metre at most, and less when the damped error is less. */
  lemma SliderBounded(lib: Library, x: real)
    requires lib.Valid() && x > 0.0
    ensures BoundedDelta(lib, 0.5, [x, 0.0, 0.0, 0.0, 0.0, 0.0]) == [Min(x, 0.5), 0.0, 0.0, 0.0, 0.0, 0.0]
  {
    OneEntrySquares(x);
    RootOf(lib, x * x, x);
    hide SumOfSquares, Library.Valid;
    if x > 0.5 {
      ScaledEntry(0.5 / x, x);
    }
  }

  lemma ScaledEntry(a: real, x: real)
    requires x > 0.0 && a == 0.5 / x
    ensures ScaleAll(a, [x, 0.0, 0.0, 0.0, 0.0, 0.0]) == [0.5, 0.0, 0.0, 0.0, 0.0, 0.0]
  {
    QuotientTimesBack(0.5, x);
    var d: JointVector := [x, 0.0, 0.0, 0.0, 0.0, 0.0];
    forall i | 0 <= i < JOINT_COUNT
      ensures ScaleAll(a, d)[i] == if i == 0 then 0.5 else 0.0
    {
      assert ScaleAll(a, d)[i] == d[i] * a;
    }
  }

  lemma SliderSteps(arc: Arc, q: JointVector, r: JointVector)
    requires arc.Valid() && Slider(arc).Valid() && q[0] < 1.0
    requires forall i | 0 <= i < JOINT_COUNT :: -2.0 <= r[i] <= 2.0
    requires r[0] == q[0] + Min((1.0 - q[0]) / 1.01, 0.5) && forall i | 1 <= i < JOINT_COUNT :: r[i] == q[i]
    ensures Slider(arc).Next(q) == r
  {
    var x := (1.0 - q[0]) / 1.01;
    SliderDelta(arc, q);
    SliderBounded(arc.lib, x);
    SliderMoves(q, Min(x, 0.5), r);
    hide Problem.Delta, BoundedDelta, AddAll, ClipAll, Arc.Valid, Problem.Valid;
  }

  lemma SliderMoves(q: JointVector, x: real, r: JointVector)
    requires forall i | 0 <= i < JOINT_COUNT :: -2.0 <= r[i] <= 2.0
    requires r[0] == q[0] + x && forall i | 1 <= i < JOINT_COUNT :: r[i] == q[i]
    ensures ClipAll(AddAll(q, [x, 0.0, 0.0, 0.0, 0.0, 0.0]), Limits(LOW, HIGH)) == r
  {
    assert AddAll(q, [x, 0.0, 0.0, 0.0, 0.0, 0.0]) == r;
    assert ClipAll(r, Limits(LOW, HIGH)) == r;
  }

  lemma SliderStarts(arc: Arc)
    requires arc.Valid()
    ensures Slider(arc).Valid() && Slider(arc).settings.maxIterations == 1 && ClipAll(ZERO, Slider(arc).limits) == ZERO
    ensures Slider(arc).SolvesEverywhere()
  {
    forall q: JointVector
      ensures Slider(arc).SolvesAt(q)
    {
      SliderSolves(0.1, Slider(arc).ErrorTask(q));
    }
  }

  lemma {:induction false} TwoPasses(p: Problem, seed: JointVector, q: JointVector, r: JointVector)
    requires p.Valid() && p.settings.maxIterations == 1
    requires ClipAll(seed, p.limits) == seed && p.Next(seed) == q && p.Next(q) == r
    requires !p.Converged(seed) && !p.Converged(q)
    ensures p.Iterate(seed, p.settings.maxIterations) == q && p.Iterate(seed, p.settings.maxIterations + 1) == r
    ensures NoneConverged(p, seed, p.settings.maxIterations + 1)
  {
    hide Problem.Converged, Problem.Next, ClipAll;
    var one: nat := p.settings.maxIterations;
    assert p.Iterate(seed, one - 1) == seed;
    assert p.Iterate(seed, one) == q;
  }

  /** A run whose every step solves the damped system can fail, reporting an error of half a metre, and
      return a joint position that is within tolerance: the errors are those of the iterate before. */
  lemma FailureCanReportStaleErrors(arc: Arc) returns (p: Problem)
    requires arc.Valid()
    ensures p.Valid() && p.SolvesEverywhere() && NoneConverged(p, ZERO, p.settings.maxIterations + 1)
    ensures p.At(p.Iterate(ZERO, p.settings.maxIterations)) == Errors(0.5, 0.0)
    ensures p.Converged(p.Iterate(ZERO, p.settings.maxIterations + 1))
  {
    hide Slider, ClipAll, Problem.Valid, Problem.Next, Problem.At, Problem.Converged, Problem.Iterate,
      Problem.SolvesEverywhere, Arc.Valid;
    p := Slider(arc);
    SliderStarts(arc);
    SliderSteps(arc, ZERO, HALF);
    SliderSteps(arc, HALF, NEARLY);
    SliderErrors(arc, ZERO);
    SliderErrors(arc, HALF);
    SliderErrors(arc, NEARLY);
    TwoPasses(p, ZERO, HALF, NEARLY);
  }
}
