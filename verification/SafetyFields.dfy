/**
 What a clean report means in the fields of the policy: every limit, margin, tolerance and budget written
 out, without the functions that the validator and its report share.
 */
module SafetyFields {
  import opened Prelude
  import opened Trajectories
  import opened Safety
  import opened SafetyTheorems

  // ---------------------------------------------------------------------------------------------
  // The demands of a policy
  // ---------------------------------------------------------------------------------------------

  /** Where joint j is before point k. */
  function Before(measured: JointVector, points: seq<TrajectoryPoint>, k: nat, j: nat): real
    requires k < |points| && j < JOINT_COUNT
  {
    if k == 0 then measured[j] else points[k - 1].position[j]
  }

  function Elapsed(points: seq<TrajectoryPoint>, k: nat): real
    requires k < |points|
  {
    if k == 0 then points[0].time else points[k].time - points[k - 1].time
  }

  /** The speed of joint j on the way to point k; zero without elapsed time. */
  function Speed(measured: JointVector, points: seq<TrajectoryPoint>, k: nat, j: nat): real
    requires k < |points| && j < JOINT_COUNT
  {
    if Elapsed(points, k) > 0.0 then (points[k].position[j] - Before(measured, points, k, j)) / Elapsed(points, k) else 0.0
  }

  function SpeedBefore(measured: JointVector, points: seq<TrajectoryPoint>, k: nat, j: nat): real
    requires k < |points| && j < JOINT_COUNT
  {
    if k == 0 then 0.0 else Speed(measured, points, k - 1, j)
  }

  predicate InOrder(points: seq<TrajectoryPoint>) {
    && (forall k | 0 <= k < |points| :: points[k].time >= 0.0)
    && forall k | 0 < k < |points| :: points[k].time > points[k - 1].time
  }

  predicate InLimits(policy: Policy, points: seq<TrajectoryPoint>, k: nat)
    requires k < |points|
  {
    forall j | 0 <= j < JOINT_COUNT :: policy.lower[j] + policy.margin <= points[k].position[j] <= policy.upper[j] - policy.margin
  }

  predicate ShortStep(policy: Policy, measured: JointVector, points: seq<TrajectoryPoint>, k: nat)
    requires k < |points|
  {
    forall j | 0 <= j < JOINT_COUNT ::
      Abs(points[k].position[j] - Before(measured, points, k, j)) <= policy.maxStep + 0.000000000001
  }

  /** The rates that the point brings along. */
  predicate OwnRates(policy: Policy, points: seq<TrajectoryPoint>, k: nat)
    requires k < |points|
  {
    forall j | 0 <= j < JOINT_COUNT ::
      && (points[k].velocity.Some? ==> Abs(points[k].velocity.value[j]) <= policy.maxVelocity[j] + 0.000000000001)
      && (points[k].acceleration.Some? ==> Abs(points[k].acceleration.value[j]) <= policy.maxAcceleration[j] + 0.000000000001)
  }

  /** The rates on the way to the point; without elapsed time a joint must stand still. */
  predicate RatesFit(policy: Policy, measured: JointVector, points: seq<TrajectoryPoint>, k: nat)
    requires k < |points|
  {
    forall j | 0 <= j < JOINT_COUNT ::
      && (Elapsed(points, k) <= 0.0 ==> Abs(points[k].position[j] - Before(measured, points, k, j)) <= 0.000000000001)
      && Abs(Speed(measured, points, k, j)) <= policy.maxVelocity[j] + 0.000000000001
      && Abs(if Elapsed(points, k) > 0.0
             then (Speed(measured, points, k, j) - SpeedBefore(measured, points, k, j)) / Elapsed(points, k) else 0.0)
         <= policy.maxAcceleration[j] + 0.000000000001
  }

  function Times(n: int, h: real): real {
    n as real * h
  }

  predicate NoJointMovesMore(a: JointVector, b: JointVector, reach: real) {
    forall j | 0 <= j < JOINT_COUNT :: Abs(b[j] - a[j]) <= reach
  }

  /** n is the least positive number of equal steps from a to b that moves no joint by more than the
      resample step at once. */
  predicate LeastSteps(policy: Policy, a: JointVector, b: JointVector, n: nat) {
    && n >= 1
    && NoJointMovesMore(a, b, Times(n, policy.resampleStep))
    && (n > 1 ==> !NoJointMovesMore(a, b, Times(n - 1, policy.resampleStep)))
  }

  /** q is inside the workspace box and, where the policy asks for it, far enough from a singularity. */
  predicate InWorkspace(policy: Policy, kin: Kinematics, q: JointVector) {
    && policy.workspaceMinimum[0] <= kin.fk(q)[0] <= policy.workspaceMaximum[0]
    && policy.workspaceMinimum[1] <= kin.fk(q)[1] <= policy.workspaceMaximum[1]
    && policy.workspaceMinimum[2] <= kin.fk(q)[2] <= policy.workspaceMaximum[2]
    && (policy.singularityEnabled ==> kin.score(q) >= policy.minimumScore)
  }

  /** Step i of n from a to b ends in q. */
  predicate StepEnds(a: JointVector, b: JointVector, i: nat, n: nat, q: JointVector)
    requires n >= 1
  {
    forall j | 0 <= j < JOINT_COUNT :: q[j] == a[j] + i as real / n as real * (b[j] - a[j])
  }

  function PointBefore(measured: JointVector, points: seq<TrajectoryPoint>, k: nat): JointVector
    requires k < |points|
  {
    if k == 0 then measured else points[k - 1].position
  }

  ghost predicate Resampled(policy: Policy, kin: Kinematics, a: JointVector, b: JointVector) {
    forall n: nat, i: nat, q: JointVector | 1 <= i <= n && LeastSteps(policy, a, b, n) && StepEnds(a, b, i, n, q) ::
      InWorkspace(policy, kin, q)
  }

  ghost predicate PointMeets(policy: Policy, kin: Kinematics, measured: JointVector, points: seq<TrajectoryPoint>, k: nat)
    requires k < |points|
  {
    && InLimits(policy, points, k) && ShortStep(policy, measured, points, k)
    && OwnRates(policy, points, k) && RatesFit(policy, measured, points, k)
    && Resampled(policy, kin, PointBefore(measured, points, k), points[k].position)
  }

  function Sum(counts: seq<nat>): nat {
    if counts == [] then 0 else Sum(counts[..|counts| - 1]) + counts[|counts| - 1]
  }

  /** All the resampled steps together are within the budget. */
  ghost predicate Affordable(policy: Policy, measured: JointVector, points: seq<TrajectoryPoint>) {
    exists counts: seq<nat> ::
      && |counts| == |points| && Sum(counts) <= policy.maxSamples
      && forall k | 0 <= k < |points| :: LeastSteps(policy, PointBefore(measured, points, k), points[k].position, counts[k])
  }

  /** What a policy demands of the points of a trajectory. */
  ghost predicate MeetsPolicy(policy: Policy, kin: Kinematics, measured: JointVector, points: seq<TrajectoryPoint>) {
    && |points| <= policy.maxPoints && Affordable(policy, measured, points) && InOrder(points)
    && forall k | 0 <= k < |points| :: PointMeets(policy, kin, measured, points, k)
  }

  // ---------------------------------------------------------------------------------------------
  // Safe trajectories meet them, and no others do
  // ---------------------------------------------------------------------------------------------

  /** The computed sample count is that least number. */
  lemma CountIsLeast(policy: Policy, a: JointVector, b: JointVector)
    requires policy.Valid()
    ensures LeastSteps(policy, a, b, SampleCount(policy, a, b))
    ensures forall n: nat | LeastSteps(policy, a, b, n) :: n == SampleCount(policy, a, b)
  {
    var n := SampleCount(policy, a, b);
    CountRounds(policy, a, b, n);
    forall m: nat | LeastSteps(policy, a, b, m)
      ensures m == n
    {
      LeastIsUnique(policy, a, b, m, n);
    }
  }

  lemma CountRounds(policy: Policy, a: JointVector, b: JointVector, n: nat)
    requires policy.Valid() && n == SampleCount(policy, a, b)
    ensures LeastSteps(policy, a, b, n)
  {
    hide NoJointMovesMore, Times;
    var largest, h := MaxAbs(Minus(b, a)), policy.resampleStep;
    RoundedUp(largest, h, largest / h, n, Times(n, h), Times(n - 1, h));
    LargestMoves(a, b, largest, Times(n, h));
    LargestMoves(a, b, largest, Times(n - 1, h));
  }

  lemma LargestMoves(a: JointVector, b: JointVector, largest: real, reach: real)
    requires largest == MaxAbs(Minus(b, a))
    ensures NoJointMovesMore(a, b, reach) <==> largest <= reach
  {
    var delta := Minus(b, a);
    assert forall j | 0 <= j < JOINT_COUNT :: delta[j] == b[j] - a[j];
    hide MaxAbs;
  }

  lemma RoundedUp(largest: real, h: real, ratio: real, n: nat, reach: real, less: real)
    requires h > 0.0 && largest >= 0.0 && ratio == largest / h && n == (if Ceil(ratio) < 1 then 1 else Ceil(ratio))
    requires reach == Times(n, h) && less == Times(n - 1, h)
    ensures largest <= reach && (n > 1 ==> largest > less)
  {
    assert largest == ratio * h;
    NonnegativeProduct(n as real - ratio, h, reach - largest);
    if n > 1 {
      PositiveProduct(ratio - (n - 1) as real, h, largest - less);
    }
  }

  lemma LeastIsUnique(policy: Policy, a: JointVector, b: JointVector, m: nat, n: nat)
    requires policy.Valid() && LeastSteps(policy, a, b, m) && LeastSteps(policy, a, b, n)
    ensures m == n
  {
    if m < n {
      NotFewer(policy, a, b, m, n);
      assert false;
    } else if n < m {
      NotFewer(policy, a, b, n, m);
      assert false;
    }
  }

  lemma NotFewer(policy: Policy, a: JointVector, b: JointVector, m: nat, n: nat)
    requires policy.Valid() && m < n && LeastSteps(policy, a, b, m)
    ensures !LeastSteps(policy, a, b, n)
  {
    FewerReachLess(m, n - 1, policy.resampleStep);
    ReachesFurther(a, b, Times(m, policy.resampleStep), Times(n - 1, policy.resampleStep));
    hide NoJointMovesMore, Times;
  }

  lemma ReachesFurther(a: JointVector, b: JointVector, reach: real, more: real)
    requires NoJointMovesMore(a, b, reach) && reach <= more
    ensures NoJointMovesMore(a, b, more)
  {
  }

  lemma FewerReachLess(m: nat, n: nat, h: real)
    requires m <= n && h > 0.0
    ensures Times(m, h) <= Times(n, h)
  {
    NonnegativeProduct((n - m) as real, h, (n - m) as real * h);
    assert (n - m) as real * h == n as real * h - m as real * h;
  }

  lemma {:induction false} TotalIsSum(policy: Policy, measured: JointVector, points: seq<TrajectoryPoint>, counts: seq<nat>)
    requires policy.Valid() && |counts| == |points|
    requires forall k | 0 <= k < |points| :: counts[k] == SampleCount(policy, PointBefore(measured, points, k), points[k].position)
    ensures TotalSamples(policy, measured, points) == Sum(counts)
  {
    hide SampleCount;
    if points != [] {
      var last := |points| - 1;
      forall k | 0 <= k < last
        ensures counts[..last][k] == SampleCount(policy, PointBefore(measured, points[..last], k), points[..last][k].position)
      {
        assert PointBefore(measured, points[..last], k) == PointBefore(measured, points, k);
      }
      TotalIsSum(policy, measured, points[..last], counts[..last]);
    }
  }

  lemma {:induction false} BudgetInFields(policy: Policy, measured: JointVector, points: seq<TrajectoryPoint>)
    requires policy.Valid()
    ensures TotalSamples(policy, measured, points) <= policy.maxSamples <==> Affordable(policy, measured, points)
  {
    hide SampleCount, TotalSamples, LeastSteps, Sum;
    var counts := seq(|points|, k requires 0 <= k < |points| => SampleCount(policy, PointBefore(measured, points, k), points[k].position));
    TotalIsSum(policy, measured, points, counts);
    forall k | 0 <= k < |points|
      ensures LeastSteps(policy, PointBefore(measured, points, k), points[k].position, counts[k])
      ensures forall n: nat | LeastSteps(policy, PointBefore(measured, points, k), points[k].position, n) :: n == counts[k]
    {
      CountIsLeast(policy, PointBefore(measured, points, k), points[k].position);
    }
    if Affordable(policy, measured, points) {
      var others: seq<nat> :| |others| == |points| && Sum(others) <= policy.maxSamples
        && forall k | 0 <= k < |points| :: LeastSteps(policy, PointBefore(measured, points, k), points[k].position, others[k]);
      assert others == counts;
    }
  }

  lemma MotionInFields(policy: Policy, measured: JointVector, points: seq<TrajectoryPoint>, k: nat)
    requires k < |points|
    ensures InsideLimits(policy, points[k].position)
      <==> forall j | 0 <= j < JOINT_COUNT ::
             policy.lower[j] + policy.margin <= points[k].position[j] <= policy.upper[j] - policy.margin
    ensures StepFits(policy, Minus(points[k].position, PreviousPosition(measured, points, k)))
      <==> forall j | 0 <= j < JOINT_COUNT ::
             Abs(points[k].position[j] - Before(measured, points, k, j)) <= policy.maxStep + 0.000000000001
  {
    var delta := Minus(points[k].position, PreviousPosition(measured, points, k));
    assert forall j | 0 <= j < JOINT_COUNT :: delta[j] == points[k].position[j] - Before(measured, points, k, j);
  }

  lemma ProvidedInFields(provided: Option<JointVector>, limits: JointVector)
    ensures ProvidedFits(provided, limits)
      <==> forall j | 0 <= j < JOINT_COUNT :: provided.Some? ==> Abs(provided.value[j]) <= limits[j] + 0.000000000001
  {
    if provided.Some? {
      assert forall j | 0 <= j < JOINT_COUNT :: Finite(provided.value).v[j] == provided.value[j];
    }
  }

  lemma OwnInFields(policy: Policy, points: seq<TrajectoryPoint>, k: nat)
    requires k < |points|
    ensures ProvidedFits(points[k].velocity, policy.maxVelocity) && ProvidedFits(points[k].acceleration, policy.maxAcceleration)
      <==> OwnRates(policy, points, k)
  {
    hide ProvidedFits;
    ProvidedInFields(points[k].velocity, policy.maxVelocity);
    ProvidedInFields(points[k].acceleration, policy.maxAcceleration);
    if OwnRates(policy, points, k) {
      forall j | 0 <= j < JOINT_COUNT
        ensures points[k].velocity.Some? ==> Abs(points[k].velocity.value[j]) <= policy.maxVelocity[j] + 0.000000000001
        ensures points[k].acceleration.Some? ==> Abs(points[k].acceleration.value[j]) <= policy.maxAcceleration[j] + 0.000000000001
      {
      }
    }
  }

  lemma VelocityInFields(measured: JointVector, points: seq<TrajectoryPoint>, k: nat)
    requires k < |points|
    ensures VelocityAt(measured, points, k).Finite? <==>
      Elapsed(points, k) > 0.0
      || forall j | 0 <= j < JOINT_COUNT :: Abs(points[k].position[j] - Before(measured, points, k, j)) <= 0.000000000001
    ensures VelocityAt(measured, points, k).Finite? ==>
      forall j | 0 <= j < JOINT_COUNT :: VelocityAt(measured, points, k).v[j] == Speed(measured, points, k, j)
  {
    hide MaxAbs;
    var delta := Minus(points[k].position, PreviousPosition(measured, points, k));
    assert forall j | 0 <= j < JOINT_COUNT :: delta[j] == points[k].position[j] - Before(measured, points, k, j);
    assert MaxAbs(delta) <= SLACK <==> forall j | 0 <= j < JOINT_COUNT :: Abs(delta[j]) <= SLACK;
  }

  /** The acceleration between two segments that have rates. */
  lemma AccelerationInFields(measured: JointVector, points: seq<TrajectoryPoint>, k: nat, limits: JointVector)
    requires k < |points| && InOrder(points)
    requires VelocityAt(measured, points, k).Finite? && (k > 0 ==> VelocityAt(measured, points, k - 1).Finite?)
    ensures RateFits(AccelerationAt(measured, points, k), limits) <==>
      forall j | 0 <= j < JOINT_COUNT ::
        Abs(if Elapsed(points, k) > 0.0
            then (Speed(measured, points, k, j) - SpeedBefore(measured, points, k, j)) / Elapsed(points, k) else 0.0)
        <= limits[j] + 0.000000000001
  {
    hide MaxAbs, VelocityAt, Speed;
    VelocityInFields(measured, points, k);
    if k > 0 {
      VelocityInFields(measured, points, k - 1);
    }
    var v, u := VelocityAt(measured, points, k), PreviousVelocity(measured, points, k);
    assert forall j | 0 <= j < JOINT_COUNT :: Minus(v.v, u.v)[j] == v.v[j] - u.v[j];
    assert forall j | 0 <= j < JOINT_COUNT :: u.v[j] == SpeedBefore(measured, points, k, j);
    if Elapsed(points, k) <= 0.0 {
      Standstill(measured, points, k);
    }
  }

  lemma Standstill(measured: JointVector, points: seq<TrajectoryPoint>, k: nat)
    requires k < |points| && InOrder(points) && Elapsed(points, k) <= 0.0
    requires VelocityAt(measured, points, k).Finite?
    ensures k == 0 && AccelerationAt(measured, points, k) == Finite(ZERO)
  {
    assert k == 0;
    assert Minus(ZERO, ZERO) == ZERO;
  }

  /** The derived rates of point k fit exactly when they do in the fields of the policy. */
  lemma RatesInFields(policy: Policy, measured: JointVector, points: seq<TrajectoryPoint>, k: nat)
    requires k < |points| && InOrder(points)
    requires k > 0 ==> VelocityAt(measured, points, k - 1).Finite?
    ensures RateFits(VelocityAt(measured, points, k), policy.maxVelocity)
            && RateFits(AccelerationAt(measured, points, k), policy.maxAcceleration)
      <==> RatesFit(policy, measured, points, k)
  {
    hide VelocityAt, AccelerationAt, Speed, SpeedBefore;
    VelocityInFields(measured, points, k);
    if VelocityAt(measured, points, k).Finite? {
      AccelerationInFields(measured, points, k, policy.maxAcceleration);
    }
  }

  lemma SampleInFields(policy: Policy, kin: Kinematics, q: JointVector)
    ensures SampleFits(policy, kin, q) <==> InWorkspace(policy, kin, q)
  {
  }

  lemma StepEndsAtSample(a: JointVector, b: JointVector, i: nat, n: nat)
    requires n >= 1
    ensures StepEnds(a, b, i, n, Sample(a, b, i, n)) && forall q: JointVector | StepEnds(a, b, i, n, q) :: q == Sample(a, b, i, n)
  {
    var ratio := i as real / n as real;
    assert forall j | 0 <= j < JOINT_COUNT :: Sample(a, b, i, n)[j] == a[j] + ratio * (b[j] - a[j]);
  }

  lemma SegmentInFields(policy: Policy, kin: Kinematics, a: JointVector, b: JointVector)
    requires policy.Valid()
    ensures SegmentFits(policy, kin, a, b) <==> Resampled(policy, kin, a, b)
  {
    hide SampleCount, LeastSteps, StepEnds, Sample, SampleFits, InWorkspace;
    CountIsLeast(policy, a, b);
    var count := SampleCount(policy, a, b);
    forall i | 1 <= i <= count
      ensures StepEnds(a, b, i, count, Sample(a, b, i, count))
      ensures forall q: JointVector | StepEnds(a, b, i, count, q) :: q == Sample(a, b, i, count)
      ensures SampleFits(policy, kin, Sample(a, b, i, count)) <==> InWorkspace(policy, kin, Sample(a, b, i, count))
    {
      StepEndsAtSample(a, b, i, count);
      SampleInFields(policy, kin, Sample(a, b, i, count));
    }
    if SegmentFits(policy, kin, a, b) {
      forall n: nat, i: nat, q: JointVector | 1 <= i <= n && LeastSteps(policy, a, b, n) && StepEnds(a, b, i, n, q)
        ensures InWorkspace(policy, kin, q)
      {
        assert n == count && q == Sample(a, b, i, count);
      }
    }
    if Resampled(policy, kin, a, b) {
      forall i | 1 <= i <= count
        ensures SampleFits(policy, kin, Sample(a, b, i, count))
      {
        var m: nat := i;
        assert StepEnds(a, b, m, count, Sample(a, b, m, count));
      }
    }
  }

  /** One point of a list in time order is safe exactly when it meets the policy, given that the point
      before it has a velocity. */
  lemma PointInFields(policy: Policy, kin: Kinematics, measured: JointVector, points: seq<TrajectoryPoint>, k: nat)
    requires policy.Valid() && k < |points| && InOrder(points) && (k > 0 ==> VelocityAt(measured, points, k - 1).Finite?)
    ensures SafeAt(policy, kin, measured, points, k) <==> PointMeets(policy, kin, measured, points, k)
  {
    hide InsideLimits, StepFits, ProvidedFits, RateFits, SegmentFits, VelocityAt, AccelerationAt, Minus, RatesFit;
    MotionInFields(policy, measured, points, k);
    OwnInFields(policy, points, k);
    RatesInFields(policy, measured, points, k);
    SegmentInFields(policy, kin, PointBefore(measured, points, k), points[k].position);
    assert PointBefore(measured, points, k) == PreviousPosition(measured, points, k);
    assert TimeOk(points, k);
  }

  lemma {:induction false} PointsInFields(policy: Policy, kin: Kinematics, measured: JointVector, points: seq<TrajectoryPoint>, n: nat)
    requires policy.Valid() && n <= |points| && InOrder(points)
    ensures (forall k | 0 <= k < n :: SafeAt(policy, kin, measured, points, k))
      <==> forall k | 0 <= k < n :: PointMeets(policy, kin, measured, points, k)
  {
    hide SafeAt, PointMeets;
    if n > 0 {
      PointsInFields(policy, kin, measured, points, n - 1);
      if forall k | 0 <= k < n - 1 :: SafeAt(policy, kin, measured, points, k) {
        SafePointHasVelocity(policy, kin, measured, points, n - 1);
        PointInFields(policy, kin, measured, points, n - 1);
      }
    }
  }

  lemma SafePointHasVelocity(policy: Policy, kin: Kinematics, measured: JointVector, points: seq<TrajectoryPoint>, k: nat)
    requires policy.Valid() && k < |points| && (k > 0 ==> SafeAt(policy, kin, measured, points, k - 1))
    ensures k > 0 ==> VelocityAt(measured, points, k - 1).Finite?
  {
    hide VelocityAt;
  }

  lemma TimesInFields(points: seq<TrajectoryPoint>)
    requires forall k | 0 <= k < |points| :: TimeOk(points, k)
    ensures InOrder(points)
  {
    forall k | 0 <= k < |points|
      ensures points[k].time >= 0.0 && (k > 0 ==> points[k].time > points[k - 1].time)
    {
      assert TimeOk(points, k);
    }
  }

  /** A trajectory is safe exactly when it meets the policy, field by field. */
  lemma SafeMeansPolicy(policy: Policy, kin: Kinematics, measured: JointVector, points: seq<TrajectoryPoint>)
    requires policy.Valid()
    ensures Safe(policy, kin, measured, points) <==> MeetsPolicy(policy, kin, measured, points)
  {
    hide PointMeets, Affordable, TotalSamples, MotionFits, SegmentFits;
    BudgetInFields(policy, measured, points);
    if forall k | 0 <= k < |points| :: SafeAt(policy, kin, measured, points, k) {
      forall k | 0 <= k < |points|
        ensures TimeOk(points, k)
      {
        assert SafeAt(policy, kin, measured, points, k);
      }
      TimesInFields(points);
    }
    if InOrder(points) {
      PointsInFields(policy, kin, measured, points, |points|);
    }
  }

  // ---------------------------------------------------------------------------------------------
  // What is reported when one does not
  // ---------------------------------------------------------------------------------------------

  /** Every position outside its limits and every step that is too long is in the report, with the point,
      the joint, the value and the bound. */
  predicate Reports(policy: Policy, measured: JointVector, points: seq<TrajectoryPoint>, violations: seq<Violation>) {
    forall k, j | 0 <= k < |points| && 0 <= j < JOINT_COUNT :: ReportsJoint(policy, measured, points, k, j, violations)
  }

  predicate ReportsJoint(policy: Policy, measured: JointVector, points: seq<TrajectoryPoint>, k: nat, j: nat,
                         violations: seq<Violation>)
    requires k < |points| && j < JOINT_COUNT
  {
    var value, step := points[k].position[j], Abs(points[k].position[j] - Before(measured, points, k, j));
    && (value < policy.lower[j] + policy.margin ==>
          Violation(JointLimit, k, j, Value(value), Value(policy.lower[j] + policy.margin)) in violations)
    && (policy.lower[j] + policy.margin <= value && value > policy.upper[j] - policy.margin ==>
          Violation(JointLimit, k, j, Value(value), Value(policy.upper[j] - policy.margin)) in violations)
    && (step > policy.maxStep + 0.000000000001 ==>
          Violation(JointStep, k, j, Value(step), Value(policy.maxStep)) in violations)
  }

  lemma {:induction false} PositionReported(policy: Policy, position: JointVector, delta: JointVector, k: nat, n: nat, j: nat,
                                            v: Violation)
    requires j < n <= JOINT_COUNT
    requires v in LimitViolation(policy, position, k, j) || v in StepViolation(policy, delta, k, j)
    ensures v in PositionViolations(policy, position, delta, k, n)
  {
    if j < n - 1 {
      PositionReported(policy, position, delta, k, n - 1, j, v);
    }
  }

  lemma PointReported(policy: Policy, kin: Kinematics, w: Walk, k: nat, point: TrajectoryPoint, j: nat, v: Violation)
    requires policy.Valid() && j < JOINT_COUNT
    requires v in LimitViolation(policy, point.position, k, j) || v in StepViolation(policy, Minus(point.position, w.position), k, j)
    ensures v in PointViolations(policy, kin, w, k, point)
  {
    PositionReported(policy, point.position, Minus(point.position, w.position), k, JOINT_COUNT, j, v);
    hide PositionViolations, RateViolations, SegmentViolations, ProvidedViolations, SampleCount, DerivedVelocity,
      DerivedAcceleration, LimitViolation, StepViolation;
  }

  lemma {:induction false} StaysReported(policy: Policy, kin: Kinematics, measured: JointVector, early: seq<Violation>,
                                         points: seq<TrajectoryPoint>, k: nat, n: nat, v: Violation)
    requires policy.Valid() && k < n <= |points|
    requires v in PointViolations(policy, kin, WalkTo(policy, kin, measured, early, points, k), k, points[k])
    ensures v in WalkTo(policy, kin, measured, early, points, n).violations
  {
    hide PointViolations, SampleCount, DerivedVelocity, Minus;
    if k < n - 1 {
      StaysReported(policy, kin, measured, early, points, k, n - 1, v);
    }
  }

  lemma EntriesOf(policy: Policy, position: JointVector, delta: JointVector, k: nat, j: nat)
    requires j < JOINT_COUNT
    ensures position[j] < policy.lower[j] + policy.margin ==>
      Violation(JointLimit, k, j, Value(position[j]), Value(policy.lower[j] + policy.margin)) in LimitViolation(policy, position, k, j)
    ensures policy.lower[j] + policy.margin <= position[j] && position[j] > policy.upper[j] - policy.margin ==>
      Violation(JointLimit, k, j, Value(position[j]), Value(policy.upper[j] - policy.margin)) in LimitViolation(policy, position, k, j)
    ensures Abs(delta[j]) > policy.maxStep + 0.000000000001 ==>
      Violation(JointStep, k, j, Value(Abs(delta[j])), Value(policy.maxStep)) in StepViolation(policy, delta, k, j)
  {
  }

  /** The full report of a trajectory in time order has every such violation. */
  lemma {:induction false} FullReport(policy: Policy, kin: Kinematics, measured: JointVector, early: seq<Violation>, points: seq<TrajectoryPoint>)
    requires policy.Valid() && TimesIncrease(points)
    ensures Reports(policy, measured, points, WalkTo(policy, kin, measured, early, points, |points|).violations)
  {
    var all := WalkTo(policy, kin, measured, early, points, |points|).violations;
    forall k, j | 0 <= k < |points| && 0 <= j < JOINT_COUNT
      ensures ReportsJoint(policy, measured, points, k, j, all)
    {
      JointReported(policy, kin, measured, early, points, k, j);
    }
  }

  lemma {:induction false} JointReported(policy: Policy, kin: Kinematics, measured: JointVector, early: seq<Violation>,
                      points: seq<TrajectoryPoint>, k: nat, j: nat)
    requires policy.Valid() && TimesIncrease(points) && k < |points| && j < JOINT_COUNT
    ensures ReportsJoint(policy, measured, points, k, j, WalkTo(policy, kin, measured, early, points, |points|).violations)
  {
    hide PointViolations, WalkTo, TimesIncrease, LimitViolation, StepViolation;
    WalkCalls(policy, kin, measured, early, points, k);
    var w := WalkTo(policy, kin, measured, early, points, k);
    var delta := Minus(points[k].position, w.position);
    assert delta[j] == points[k].position[j] - Before(measured, points, k, j);
    EntriesOf(policy, points[k].position, delta, k, j);
    forall v | v in LimitViolation(policy, points[k].position, k, j) || v in StepViolation(policy, delta, k, j)
      ensures v in WalkTo(policy, kin, measured, early, points, |points|).violations
    {
      PointReported(policy, kin, w, k, points[k], j, v);
      StaysReported(policy, kin, measured, early, points, k, |points|, v);
    }
  }
}
