/**
 The complete-trajectory safety check: what one validation run reports (`Report`, a fold over the
 points), what a safe trajectory is (`Safe`, stated point by point without the fold), and the
 theorems that connect the two and draw consequences from safety.
 */
module Safety {
  import opened Prelude
  import opened Trajectories

  const SLACK := 0.000000000001

  datatype Kinematics = Kinematics(fk: JointVector -> Position, score: JointVector -> real)

  type Position = p: seq<real> | |p| == 3 witness [0.0, 0.0, 0.0]

  datatype Policy = Policy(
    jointNames: seq<string>,
    lower: JointVector,
    upper: JointVector,
    margin: real,
    maxPoints: nat,
    maxSamples: nat,
    stateTimeout: real,
    maxStep: real,
    maxVelocity: JointVector,
    maxAcceleration: JointVector,
    workspaceMinimum: Position,
    workspaceMaximum: Position,
    resampleStep: real,
    singularityEnabled: bool,
    minimumScore: real)
  {
    /** What the policy constructor enforces, and the six names of the canonical model. */
    predicate Valid() {
      && |jointNames| == JOINT_COUNT
      && maxPoints > 0 && maxSamples > 0
      && resampleStep > 0.0
    }
  }

  datatype JointState = JointState(position: JointVector, received: real) {
    function Age(now: real): real {
      Max(0.0, now - received)
    }
  }

  datatype Kind =
    | TrajectoryBudget | NonFiniteValue | StaleState | JointLimit | JointStep
    | JointVelocity | JointAcceleration | Workspace | Singularity | TrajectoryTime

  /** A measured or limiting value in a violation; the derived rates can be infinite. */
  datatype Reading = Absent | Value(v: real) | Infinity

  /** `point` and `joint` are -1 where the violation names none. */
  datatype Violation = Violation(kind: Kind, point: int, joint: int, measured: Reading, limit: Reading)

  /** A finite-difference rate; division by a zero time step yields an infinite one. */
  datatype Rate = Finite(v: JointVector) | Infinite

  // ---------------------------------------------------------------------------------------------
  // Pieces of the report
  // ---------------------------------------------------------------------------------------------

  function Lower(policy: Policy, j: nat): real
    requires j < JOINT_COUNT
  {
    policy.lower[j] + policy.margin
  }

  function Upper(policy: Policy, j: nat): real
    requires j < JOINT_COUNT
  {
    policy.upper[j] - policy.margin
  }

  function LimitViolation(policy: Policy, position: JointVector, k: nat, j: nat): seq<Violation>
    requires j < JOINT_COUNT
  {
    if position[j] < Lower(policy, j) then
      [Violation(JointLimit, k, j, Value(position[j]), Value(Lower(policy, j)))]
    else if position[j] > Upper(policy, j) then
      [Violation(JointLimit, k, j, Value(position[j]), Value(Upper(policy, j)))]
    else []
  }

  function StepViolation(policy: Policy, delta: JointVector, k: nat, j: nat): seq<Violation>
    requires j < JOINT_COUNT
  {
    if Abs(delta[j]) > policy.maxStep + SLACK then
      [Violation(JointStep, k, j, Value(Abs(delta[j])), Value(policy.maxStep))]
    else []
  }

  function PositionViolations(policy: Policy, position: JointVector, delta: JointVector, k: nat, n: nat): seq<Violation>
    requires n <= JOINT_COUNT
  {
    if n == 0 then [] else
    PositionViolations(policy, position, delta, k, n - 1)
    + LimitViolation(policy, position, k, n - 1) + StepViolation(policy, delta, k, n - 1)
  }

  function RateViolation(rate: Rate, limits: JointVector, kind: Kind, k: nat, j: nat): seq<Violation>
    requires j < JOINT_COUNT
  {
    match rate
    case Infinite =>
      [Violation(NonFiniteValue, k, j, Absent, Absent), Violation(kind, k, j, Infinity, Value(limits[j]))]
    case Finite(v) =>
      if Abs(v[j]) > limits[j] + SLACK then [Violation(kind, k, j, Value(Abs(v[j])), Value(limits[j]))] else []
  }

  function RateViolations(rate: Rate, limits: JointVector, kind: Kind, k: nat, n: nat): seq<Violation>
    requires n <= JOINT_COUNT
  {
    if n == 0 then []
    else RateViolations(rate, limits, kind, k, n - 1) + RateViolation(rate, limits, kind, k, n - 1)
  }

  function ProvidedViolations(provided: Option<JointVector>, limits: JointVector, kind: Kind, k: nat): seq<Violation> {
    match provided
    case None => []
    case Some(v) => RateViolations(Finite(v), limits, kind, k, JOINT_COUNT)
  }

  function DerivedVelocity(delta: JointVector, dt: real): Rate {
    if dt > 0.0 then Finite(DividedBy(delta, dt))
    else if MaxAbs(delta) <= SLACK then Finite(ZERO)
    else Infinite
  }

  function DerivedAcceleration(velocity: Rate, previous: Rate, dt: real): Rate {
    if velocity.Infinite? || previous.Infinite? then Infinite
    else if dt > 0.0 then Finite(DividedBy(Minus(velocity.v, previous.v), dt))
    else if MaxAbs(Minus(velocity.v, previous.v)) <= SLACK then Finite(ZERO)
    else Infinite
  }

  function SampleCount(policy: Policy, start: JointVector, end: JointVector): (n: nat)
    requires policy.Valid()
    ensures n >= 1
  {
    var n := Ceil(MaxAbs(Minus(end, start)) / policy.resampleStep);
    if n < 1 then 1 else n
  }

  function AxisViolation(policy: Policy, p: Position, k: nat, axis: nat): seq<Violation>
    requires axis < 3
  {
    if p[axis] < policy.workspaceMinimum[axis] then
      [Violation(Workspace, k, -1, Value(p[axis]), Value(policy.workspaceMinimum[axis]))]
    else if p[axis] > policy.workspaceMaximum[axis] then
      [Violation(Workspace, k, -1, Value(p[axis]), Value(policy.workspaceMaximum[axis]))]
    else []
  }

  function AxisViolations(policy: Policy, p: Position, k: nat, n: nat): seq<Violation>
    requires n <= 3
  {
    if n == 0 then [] else AxisViolations(policy, p, k, n - 1) + AxisViolation(policy, p, k, n - 1)
  }

  /** One resampled configuration: the workspace box, and only inside it the singularity score. */
  function SampleViolations(policy: Policy, kin: Kinematics, q: JointVector, k: nat): seq<Violation> {
    var outside := AxisViolations(policy, kin.fk(q), k, 3);
    if outside == [] && policy.singularityEnabled && kin.score(q) < policy.minimumScore then
      [Violation(Singularity, -1, -1, Absent, Value(policy.minimumScore))]
    else outside
  }

  /** The i-th of count samples of the straight path from start to end. */
  function Sample(start: JointVector, end: JointVector, i: nat, count: nat): JointVector
    requires count >= 1
  {
    Along(start, end, i as real / count as real)
  }

  function SegmentViolations(policy: Policy, kin: Kinematics, start: JointVector, end: JointVector,
                             count: nat, k: nat, n: nat): seq<Violation>
    requires count >= 1
  {
    if n == 0 then [] else
    SegmentViolations(policy, kin, start, end, count, k, n - 1)
    + SampleViolations(policy, kin, Sample(start, end, n, count), k)
  }

  // ---------------------------------------------------------------------------------------------
  // The report of a whole run
  // ---------------------------------------------------------------------------------------------

  /** The variables the point loop carries: last accepted position, time and velocity, the report
      so far, and the number of forward-kinematics calls made. */
  datatype Walk = Walk(position: JointVector, time: real, velocity: Rate, violations: seq<Violation>, fkCalls: nat)

  predicate TimeIsValid(w: Walk, k: nat, point: TrajectoryPoint) {
    0.0 <= point.time && !(k > 0 && point.time <= w.time)
  }

  function TimeViolation(w: Walk, k: nat, point: TrajectoryPoint): seq<Violation> {
    if TimeIsValid(w, k, point) then [] else [Violation(TrajectoryTime, -1, -1, Absent, Absent)]
  }

  function StepTime(w: Walk, k: nat, point: TrajectoryPoint): real {
    if TimeIsValid(w, k, point) then point.time - w.time else 0.0
  }

  function PointViolations(policy: Policy, kin: Kinematics, w: Walk, k: nat, point: TrajectoryPoint): seq<Violation>
    requires policy.Valid()
  {
    var delta := Minus(point.position, w.position);
    var dt := StepTime(w, k, point);
    var velocity := DerivedVelocity(delta, dt);
    var acceleration := DerivedAcceleration(velocity, w.velocity, dt);
    var count := SampleCount(policy, w.position, point.position);
    TimeViolation(w, k, point)
    + PositionViolations(policy, point.position, delta, k, JOINT_COUNT)
    + ProvidedViolations(point.velocity, policy.maxVelocity, JointVelocity, k)
    + RateViolations(velocity, policy.maxVelocity, JointVelocity, k, JOINT_COUNT)
    + ProvidedViolations(point.acceleration, policy.maxAcceleration, JointAcceleration, k)
    + RateViolations(acceleration, policy.maxAcceleration, JointAcceleration, k, JOINT_COUNT)
    + SegmentViolations(policy, kin, w.position, point.position, count, k, count)
  }

  function Advance(policy: Policy, kin: Kinematics, w: Walk, k: nat, point: TrajectoryPoint): Walk
    requires policy.Valid()
  {
    var violations := w.violations + PointViolations(policy, kin, w, k, point);
    var fkCalls := w.fkCalls + SampleCount(policy, w.position, point.position);
    if TimeIsValid(w, k, point) then
      Walk(point.position, point.time,
           DerivedVelocity(Minus(point.position, w.position), point.time - w.time), violations, fkCalls)
    else w.(violations := violations, fkCalls := fkCalls)
  }

  function WalkTo(policy: Policy, kin: Kinematics, measured: JointVector, early: seq<Violation>,
                  points: seq<TrajectoryPoint>, k: nat): Walk
    requires policy.Valid() && k <= |points|
  {
    if k == 0 then Walk(measured, 0.0, Finite(ZERO), early, 0)
    else Advance(policy, kin, WalkTo(policy, kin, measured, early, points, k - 1), k - 1, points[k - 1])
  }

  function StaleViolations(policy: Policy, state: JointState, now: real): seq<Violation> {
    if state.Age(now) > policy.stateTimeout then
      [Violation(StaleState, -1, -1, Value(state.Age(now)), Value(policy.stateTimeout))]
    else []
  }

  /** The samples of consecutive segments, added up without any budget guard. */
  function TotalSamples(policy: Policy, from: JointVector, points: seq<TrajectoryPoint>): nat
    requires policy.Valid()
  {
    if points == [] then 0
    else
      var last := |points| - 1;
      TotalSamples(policy, from, points[..last])
      + SampleCount(policy, PreviousPosition(from, points, last), points[last].position)
  }

  function PreviousPosition(measured: JointVector, points: seq<TrajectoryPoint>, k: nat): JointVector
    requires k <= |points|
  {
    if k == 0 then measured else points[k - 1].position
  }

  function PreviousTime(points: seq<TrajectoryPoint>, k: nat): real
    requires k <= |points|
  {
    if k == 0 then 0.0 else points[k - 1].time
  }

  // ---------------------------------------------------------------------------------------------
  // What a safe trajectory is
  // ---------------------------------------------------------------------------------------------

  function VelocityAt(measured: JointVector, points: seq<TrajectoryPoint>, k: nat): Rate
    requires k < |points|
  {
    DerivedVelocity(Minus(points[k].position, PreviousPosition(measured, points, k)),
                    points[k].time - PreviousTime(points, k))
  }

  function PreviousVelocity(measured: JointVector, points: seq<TrajectoryPoint>, k: nat): Rate
    requires k <= |points|
  {
    if k == 0 then Finite(ZERO) else VelocityAt(measured, points, k - 1)
  }

  function AccelerationAt(measured: JointVector, points: seq<TrajectoryPoint>, k: nat): Rate
    requires k < |points|
  {
    DerivedAcceleration(VelocityAt(measured, points, k), PreviousVelocity(measured, points, k),
                        points[k].time - PreviousTime(points, k))
  }

  predicate TimeOk(points: seq<TrajectoryPoint>, k: nat)
    requires k < |points|
  {
    0.0 <= points[k].time && (k > 0 ==> points[k - 1].time < points[k].time)
  }

  predicate InsideLimits(policy: Policy, q: JointVector) {
    forall j | 0 <= j < JOINT_COUNT :: Lower(policy, j) <= q[j] <= Upper(policy, j)
  }

  predicate StepFits(policy: Policy, delta: JointVector) {
    forall j | 0 <= j < JOINT_COUNT :: Abs(delta[j]) <= policy.maxStep + SLACK
  }

  predicate RateFits(rate: Rate, limits: JointVector) {
    rate.Finite? && forall j | 0 <= j < JOINT_COUNT :: Abs(rate.v[j]) <= limits[j] + SLACK
  }

  predicate ProvidedFits(provided: Option<JointVector>, limits: JointVector) {
    provided.Some? ==> RateFits(Finite(provided.value), limits)
  }

  predicate SampleFits(policy: Policy, kin: Kinematics, q: JointVector) {
    && (forall axis | 0 <= axis < 3 ::
          policy.workspaceMinimum[axis] <= kin.fk(q)[axis] <= policy.workspaceMaximum[axis])
    && (policy.singularityEnabled ==> kin.score(q) >= policy.minimumScore)
  }

  predicate SegmentFits(policy: Policy, kin: Kinematics, start: JointVector, end: JointVector)
    requires policy.Valid()
  {
    var count := SampleCount(policy, start, end);
    forall i | 1 <= i <= count :: SampleFits(policy, kin, Sample(start, end, i, count))
  }

  /** The checks that involve no forward kinematics, at point k. */
  predicate MotionFits(policy: Policy, measured: JointVector, points: seq<TrajectoryPoint>, k: nat)
    requires k < |points|
  {
    && InsideLimits(policy, points[k].position)
    && StepFits(policy, Minus(points[k].position, PreviousPosition(measured, points, k)))
    && ProvidedFits(points[k].velocity, policy.maxVelocity)
    && RateFits(VelocityAt(measured, points, k), policy.maxVelocity)
    && ProvidedFits(points[k].acceleration, policy.maxAcceleration)
    && RateFits(AccelerationAt(measured, points, k), policy.maxAcceleration)
  }

  predicate SafeAt(policy: Policy, kin: Kinematics, measured: JointVector, points: seq<TrajectoryPoint>, k: nat)
    requires policy.Valid() && k < |points|
  {
    && TimeOk(points, k)
    && MotionFits(policy, measured, points, k)
    && SegmentFits(policy, kin, PreviousPosition(measured, points, k), points[k].position)
  }

  /** A point list that is safe to run from the measured position. */
  predicate Safe(policy: Policy, kin: Kinematics, measured: JointVector, points: seq<TrajectoryPoint>)
    requires policy.Valid()
  {
    && |points| <= policy.maxPoints
    && TotalSamples(policy, measured, points) <= policy.maxSamples
    && forall k | 0 <= k < |points| :: SafeAt(policy, kin, measured, points, k)
  }
}
