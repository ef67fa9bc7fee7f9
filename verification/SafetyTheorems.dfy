/** What a clean report means, and what follows from a safe trajectory. */
module SafetyTheorems {
  import opened Prelude
  import opened Trajectories
  import opened Safety

  // ---------------------------------------------------------------------------------------------
  // A piece of the report is empty exactly when the checks it stands for hold
  // ---------------------------------------------------------------------------------------------

  lemma {:induction false} PositionClean(policy: Policy, position: JointVector, delta: JointVector, k: nat, n: nat)
    requires n <= JOINT_COUNT
    ensures PositionViolations(policy, position, delta, k, n) == []
      <==> forall j | 0 <= j < n :: policy.lower[j] + policy.margin <= position[j] <= policy.upper[j] - policy.margin
                                    && Abs(delta[j]) <= policy.maxStep + 0.000000000001
  {
    if n > 0 {
      PositionClean(policy, position, delta, k, n - 1);
    }
  }

  lemma {:induction false} PositionCleanIffFits(policy: Policy, position: JointVector, delta: JointVector, k: nat)
    ensures PositionViolations(policy, position, delta, k, JOINT_COUNT) == []
      <==> InsideLimits(policy, position) && StepFits(policy, delta)
  {
    hide PositionViolations;
    PositionClean(policy, position, delta, k, JOINT_COUNT);
  }

  lemma {:induction false} RateClean(rate: Rate, limits: JointVector, kind: Kind, k: nat, n: nat)
    requires n <= JOINT_COUNT
    ensures RateViolations(rate, limits, kind, k, n) == []
      <==> forall j | 0 <= j < n :: rate.Finite? && Abs(rate.v[j]) <= limits[j] + SLACK
  {
    if n > 0 {
      RateClean(rate, limits, kind, k, n - 1);
    }
  }

  lemma {:induction false} RateCleanIffFits(rate: Rate, limits: JointVector, kind: Kind, k: nat)
    ensures RateViolations(rate, limits, kind, k, JOINT_COUNT) == [] <==> RateFits(rate, limits)
  {
    RateClean(rate, limits, kind, k, JOINT_COUNT);
    if RateViolations(rate, limits, kind, k, JOINT_COUNT) == [] {
      assert 0 <= 0 < JOINT_COUNT;
    }
  }

  lemma {:induction false} SegmentClean(policy: Policy, kin: Kinematics, start: JointVector, end: JointVector,
                                        count: nat, k: nat, n: nat)
    requires count >= 1
    ensures SegmentViolations(policy, kin, start, end, count, k, n) == []
      <==> forall i | 1 <= i <= n :: SampleFits(policy, kin, Sample(start, end, i, count))
  {
    if n > 0 {
      SegmentClean(policy, kin, start, end, count, k, n - 1);
      SampleClean(policy, kin, Sample(start, end, n, count), k);
    }
  }

  lemma ProvidedClean(provided: Option<JointVector>, limits: JointVector, kind: Kind, k: nat)
    ensures ProvidedViolations(provided, limits, kind, k) == [] <==> ProvidedFits(provided, limits)
  {
    if provided.Some? {
      RateCleanIffFits(Finite(provided.value), limits, kind, k);
    }
  }

  lemma SampleClean(policy: Policy, kin: Kinematics, q: JointVector, k: nat)
    ensures SampleViolations(policy, kin, q, k) == [] <==> SampleFits(policy, kin, q)
  {
    AxesClean(policy, kin.fk(q), k, 3);
  }

  lemma {:induction false} AxesClean(policy: Policy, p: Position, k: nat, n: nat)
    requires n <= 3
    ensures AxisViolations(policy, p, k, n) == []
      <==> forall axis | 0 <= axis < n :: policy.workspaceMinimum[axis] <= p[axis] <= policy.workspaceMaximum[axis]
  {
    if n > 0 {
      AxesClean(policy, p, k, n - 1);
    }
  }

  // ---------------------------------------------------------------------------------------------
  // The whole report
  // ---------------------------------------------------------------------------------------------

  predicate Follows(w: Walk, measured: JointVector, points: seq<TrajectoryPoint>, k: nat)
    requires k <= |points|
  {
    && w.position == PreviousPosition(measured, points, k)
    && w.time == PreviousTime(points, k)
    && w.velocity == PreviousVelocity(measured, points, k)
  }

  lemma PointClean(policy: Policy, kin: Kinematics, measured: JointVector, points: seq<TrajectoryPoint>, k: nat, w: Walk)
    requires policy.Valid() && k < |points| && Follows(w, measured, points, k)
    ensures PointViolations(policy, kin, w, k, points[k]) == [] <==> SafeAt(policy, kin, measured, points, k)
  {
    hide PositionViolations, RateViolations, ProvidedViolations, SegmentViolations, DerivedVelocity,
      DerivedAcceleration, SampleCount, Minus, InsideLimits, StepFits, RateFits, ProvidedFits, SampleFits;
    var point := points[k];
    assert TimeViolation(w, k, point) == [] <==> TimeOk(points, k);
    if TimeOk(points, k) {
      var delta := Minus(point.position, w.position);
      var dt := StepTime(w, k, point);
      var velocity := DerivedVelocity(delta, dt);
      var acceleration := DerivedAcceleration(velocity, w.velocity, dt);
      var count := SampleCount(policy, w.position, point.position);
      assert velocity == VelocityAt(measured, points, k) && acceleration == AccelerationAt(measured, points, k);
      PositionCleanIffFits(policy, point.position, delta, k);
      ProvidedClean(point.velocity, policy.maxVelocity, JointVelocity, k);
      RateCleanIffFits(velocity, policy.maxVelocity, JointVelocity, k);
      ProvidedClean(point.acceleration, policy.maxAcceleration, JointAcceleration, k);
      RateCleanIffFits(acceleration, policy.maxAcceleration, JointAcceleration, k);
      SegmentClean(policy, kin, w.position, point.position, count, k, count);
      SevenEmpty(TimeViolation(w, k, point),
                 PositionViolations(policy, point.position, delta, k, JOINT_COUNT),
                 ProvidedViolations(point.velocity, policy.maxVelocity, JointVelocity, k),
                 RateViolations(velocity, policy.maxVelocity, JointVelocity, k, JOINT_COUNT),
                 ProvidedViolations(point.acceleration, policy.maxAcceleration, JointAcceleration, k),
                 RateViolations(acceleration, policy.maxAcceleration, JointAcceleration, k, JOINT_COUNT),
                 SegmentViolations(policy, kin, w.position, point.position, count, k, count));
    }
  }

  lemma SevenEmpty<T>(a: seq<T>, b: seq<T>, c: seq<T>, d: seq<T>, e: seq<T>, f: seq<T>, g: seq<T>)
    ensures a + b + c + d + e + f + g == []
      <==> a == [] && b == [] && c == [] && d == [] && e == [] && f == [] && g == []
  {
    assert |a + b + c + d + e + f + g| == |a| + |b| + |c| + |d| + |e| + |f| + |g|;
  }

  lemma {:induction false} WalkClean(policy: Policy, kin: Kinematics, measured: JointVector,
                                     points: seq<TrajectoryPoint>, k: nat)
    requires policy.Valid() && k <= |points|
    ensures var w := WalkTo(policy, kin, measured, [], points, k);
      (w.violations == [] <==> forall i | 0 <= i < k :: SafeAt(policy, kin, measured, points, i))
      && (w.violations == [] ==> Follows(w, measured, points, k))
  {
    hide PointViolations, SampleCount, DerivedVelocity, Minus, MotionFits, SegmentFits;
    if k > 0 {
      WalkClean(policy, kin, measured, points, k - 1);
      var before := WalkTo(policy, kin, measured, [], points, k - 1);
      if before.violations == [] {
        PointClean(policy, kin, measured, points, k - 1, before);
        if PointViolations(policy, kin, before, k - 1, points[k - 1]) == [] {
          assert TimeOk(points, k - 1);
        }
      }
    }
  }

  /** With the strictly increasing times of a constructed trajectory every point moves the walk on,
      whatever else is violated, so the forward-kinematics calls are the plain segment total. */
  lemma {:induction false} WalkCalls(policy: Policy, kin: Kinematics, measured: JointVector, early: seq<Violation>,
                                     points: seq<TrajectoryPoint>, k: nat)
    requires policy.Valid() && k <= |points| && TimesIncrease(points)
    ensures var w := WalkTo(policy, kin, measured, early, points, k);
      Follows(w, measured, points, k) && w.fkCalls == TotalSamples(policy, measured, points[..k])
  {
    hide PointViolations, SampleCount, DerivedVelocity, Minus;
    if k > 0 {
      WalkCalls(policy, kin, measured, early, points, k - 1);
      assert points[..k][..k - 1] == points[..k - 1];
      assert PreviousPosition(measured, points[..k], k - 1) == PreviousPosition(measured, points, k - 1);
    }
  }

  lemma {:induction false} TotalSamplesGrows(policy: Policy, from: JointVector, points: seq<TrajectoryPoint>, k: nat)
    requires policy.Valid() && k <= |points|
    ensures TotalSamples(policy, from, points[..k]) <= TotalSamples(policy, from, points)
    decreases |points|
  {
    hide SampleCount;
    if k < |points| {
      var last := |points| - 1;
      assert points[..last][..k] == points[..k];
      TotalSamplesGrows(policy, from, points[..last], k);
    } else {
      assert points[..k] == points;
    }
  }

  // ---------------------------------------------------------------------------------------------
  // Consequences of safety
  // ---------------------------------------------------------------------------------------------

  /** Stopping early is safe: every prefix of a safe trajectory is itself safe. */
  lemma PrefixIsSafe(policy: Policy, kin: Kinematics, measured: JointVector, points: seq<TrajectoryPoint>, k: nat)
    requires policy.Valid() && Safe(policy, kin, measured, points) && k <= |points|
    ensures Safe(policy, kin, measured, points[..k])
  {
    hide InsideLimits, StepFits, RateFits, ProvidedFits, SegmentFits, DerivedVelocity, DerivedAcceleration, Minus,
      TotalSamples;
    TotalSamplesGrows(policy, measured, points, k);
    forall i | 0 <= i < k
      ensures SafeAt(policy, kin, measured, points[..k], i)
    {
      assert SafeAt(policy, kin, measured, points, i);
      assert PreviousPosition(measured, points[..k], i) == PreviousPosition(measured, points, i);
      assert VelocityAt(measured, points[..k], i) == VelocityAt(measured, points, i);
      assert PreviousVelocity(measured, points[..k], i) == PreviousVelocity(measured, points, i);
    }
  }

  /** How far a joint may go between two times. */
  function Reach(speed: real, from: real, to: real): real {
    speed * (to - from)
  }

  lemma ReachesAdd(speed: real, a: real, b: real, c: real)
    ensures Reach(speed, a, b) + Reach(speed, b, c) == Reach(speed, a, c)
  {
  }

  lemma NoReach(speed: real, a: real)
    ensures Reach(speed, a, a) == 0.0
  {
  }

  /** The first segment may start at time zero, where only the slack is left. */
  function Allowance(dt: real): real {
    if dt > 0.0 then 0.0 else SLACK
  }

  /** Each segment of a safe trajectory, the first one from the measured state included, respects the
      velocity limit of each joint. */
  lemma SegmentVelocity(policy: Policy, kin: Kinematics, measured: JointVector, points: seq<TrajectoryPoint>, k: nat, j: nat)
    requires policy.Valid() && Safe(policy, kin, measured, points)
    requires k < |points| && j < JOINT_COUNT
    ensures points[k].time >= PreviousTime(points, k) && (k > 0 ==> points[k].time > points[k - 1].time)
    ensures Abs(points[k].position[j] - PreviousPosition(measured, points, k)[j])
            <= Reach(policy.maxVelocity[j] + SLACK, PreviousTime(points, k), points[k].time)
               + Allowance(points[k].time - PreviousTime(points, k))
  {
    hide SegmentFits, TotalSamples, RateFits, DerivedVelocity, InsideLimits, StepFits, ProvidedFits, Reach, Allowance, Minus;
    assert SafeAt(policy, kin, measured, points, k);
    var delta := Minus(points[k].position, PreviousPosition(measured, points, k));
    RateBound(delta, PreviousTime(points, k), points[k].time, policy.maxVelocity, j);
    MinusAt(points[k].position, PreviousPosition(measured, points, k), j);
  }

  lemma RateBound(delta: JointVector, from: real, to: real, limits: JointVector, j: nat)
    requires from <= to && RateFits(DerivedVelocity(delta, to - from), limits) && j < JOINT_COUNT
    ensures Abs(delta[j]) <= Reach(limits[j] + SLACK, from, to) + Allowance(to - from)
  {
    var dt, speed := to - from, limits[j] + SLACK;
    if dt > 0.0 {
      assert DividedBy(delta, dt)[j] == delta[j] / dt;
      QuotientBound(delta[j], dt, speed, speed * dt);
    } else {
      NoReach(speed, from);
    }
  }

  lemma QuotientBound(d: real, dt: real, bound: real, reach: real)
    requires dt > 0.0 && Abs(d / dt) <= bound && reach == bound * dt
    ensures Abs(d) <= reach
  {
    var q := d / dt;
    assert d == q * dt;
    ScaledOrder(q, bound, dt, d, reach);
    ScaledOrder(-q, bound, dt, -d, reach);
  }

  lemma ScaledOrder(a: real, b: real, t: real, at: real, bt: real)
    requires a <= b && t > 0.0 && at == a * t && bt == b * t
    ensures at <= bt
  {
    assert bt - at == (b - a) * t;
  }

  /** Between any two points the displacement of a joint is bounded by its velocity limit and the
      time between them: the per-segment bounds telescope. */
  lemma {:induction false} VelocityTelescopes(policy: Policy, kin: Kinematics, measured: JointVector,
                                              points: seq<TrajectoryPoint>, i: nat, k: nat, j: nat)
    requires policy.Valid() && Safe(policy, kin, measured, points)
    requires i <= k < |points| && j < JOINT_COUNT
    ensures Abs(points[k].position[j] - points[i].position[j])
            <= Reach(policy.maxVelocity[j] + SLACK, points[i].time, points[k].time)
    decreases k
  {
    hide Reach, Safe;
    var speed := policy.maxVelocity[j] + SLACK;
    if i < k {
      VelocityTelescopes(policy, kin, measured, points, i, k - 1, j);
      SegmentVelocity(policy, kin, measured, points, k, j);
      ReachesAdd(speed, points[i].time, points[k - 1].time, points[k].time);
    } else {
      NoReach(speed, points[i].time);
    }
  }

  /** The same from the measured state, with the slack that a first point at time zero leaves. */
  lemma VelocityFromMeasured(policy: Policy, kin: Kinematics, measured: JointVector, points: seq<TrajectoryPoint>, k: nat, j: nat)
    requires policy.Valid() && Safe(policy, kin, measured, points)
    requires k < |points| && j < JOINT_COUNT
    ensures Abs(points[k].position[j] - measured[j])
            <= Reach(policy.maxVelocity[j] + SLACK, 0.0, points[k].time) + Allowance(points[0].time)
  {
    hide Reach, Safe;
    SegmentVelocity(policy, kin, measured, points, 0, j);
    VelocityTelescopes(policy, kin, measured, points, 0, k, j);
    ReachesAdd(policy.maxVelocity[j] + SLACK, 0.0, points[0].time, points[k].time);
  }

  /** Every configuration on a segment of a safe trajectory is within the resample step, joint by
      joint, of a configuration whose forward kinematics passed the workspace and singularity test. */
  lemma SegmentIsCovered(policy: Policy, kin: Kinematics, measured: JointVector, points: seq<TrajectoryPoint>,
                         k: nat, ratio: real)
    requires policy.Valid() && Safe(policy, kin, measured, points)
    requires k < |points| && 0.0 <= ratio <= 1.0
    ensures var start, end := PreviousPosition(measured, points, k), points[k].position;
      var count := SampleCount(policy, start, end);
      exists i: nat | 1 <= i <= count ::
        && SampleFits(policy, kin, Sample(start, end, i, count))
        && MaxAbs(Minus(Along(start, end, ratio), Sample(start, end, i, count))) <= policy.resampleStep
  {
    hide MotionFits, TotalSamples, SampleFits, Along, Minus;
    var start, end := PreviousPosition(measured, points, k), points[k].position;
    assert SafeAt(policy, kin, measured, points, k);
    var count := SampleCount(policy, start, end);
    var i := NearestSample(ratio, count);
    var witnessed := Sample(start, end, i, count);
    forall j | 0 <= j < JOINT_COUNT
      ensures Abs(Minus(Along(start, end, ratio), witnessed)[j]) <= policy.resampleStep
    {
      JointGap(policy, start, end, ratio, i as real / count as real, j);
    }
    assert SampleFits(policy, kin, witnessed);
  }

  lemma JointGap(policy: Policy, start: JointVector, end: JointVector, ratio: real, s: real, j: nat)
    requires policy.Valid() && j < JOINT_COUNT
    requires Abs(ratio - s) * SampleCount(policy, start, end) as real <= 1.0
    ensures Abs(Minus(Along(start, end, ratio), Along(start, end, s))[j]) <= policy.resampleStep
  {
    hide Along, Minus, SampleCount, Abs, MaxAbs;
    var d := Minus(end, start);
    CountCovers(policy, start, end);
    assert Abs(d[j]) <= MaxAbs(d);
    MinusAt(end, start, j);
    MinusAt(Along(start, end, ratio), Along(start, end, s), j);
    AlongAt(start, end, ratio, j);
    AlongAt(start, end, s, j);
    GapBound(start[j], d[j], ratio, s, SampleCount(policy, start, end) as real, policy.resampleStep,
             Along(start, end, ratio)[j], Along(start, end, s)[j]);
  }

  lemma MinusAt(a: JointVector, b: JointVector, j: nat)
    requires j < JOINT_COUNT
    ensures Minus(a, b)[j] == a[j] - b[j]
  {
  }

  lemma AlongAt(a: JointVector, b: JointVector, ratio: real, j: nat)
    requires j < JOINT_COUNT
    ensures Along(a, b, ratio)[j] == a[j] + ratio * Minus(b, a)[j]
  {
  }

  lemma CountCovers(policy: Policy, start: JointVector, end: JointVector)
    requires policy.Valid()
    ensures MaxAbs(Minus(end, start)) <= SampleCount(policy, start, end) as real * policy.resampleStep
  {
    hide Minus;
    ScaledCount(MaxAbs(Minus(end, start)), policy.resampleStep, SampleCount(policy, start, end));
  }

  lemma ScaledCount(largest: real, step: real, count: nat)
    requires step > 0.0 && largest / step <= count as real
    ensures largest <= count as real * step
  {
    assert largest == (largest / step) * step;
  }

  /** Some sample index lies within one sample spacing of any ratio. */
  lemma NearestSample(ratio: real, count: nat) returns (i: nat)
    requires 0.0 <= ratio <= 1.0 && count >= 1
    ensures 1 <= i <= count
    ensures Abs(ratio - i as real / count as real) * count as real <= 1.0
  {
    var n := count as real;
    var scaled := ratio * n;
    assert 0.0 <= scaled <= n;
    i := if scaled <= 1.0 then 1 else Ceil(scaled);
    var s := i as real / n;
    assert s * n == i as real;
    if ratio >= s {
      assert (ratio - s) * n == scaled - i as real;
    } else {
      assert (s - ratio) * n == i as real - scaled;
    }
  }

  lemma GapBound(a: real, d: real, ratio: real, s: real, n: real, step: real, x: real, y: real)
    requires x == a + ratio * d && y == a + s * d
    requires Abs(d) <= n * step && Abs(ratio - s) * n <= 1.0 && step > 0.0
    ensures Abs(x - y) <= step
  {
    var e, m := Abs(ratio - s), Abs(d);
    AbsProduct(ratio - s, d);
    assert x - y == (ratio - s) * d;
    Monotone(e, m, n * step);
    Monotone(step, e * n, 1.0);
    assert e * (n * step) == step * (e * n);
  }

  lemma AbsProduct(a: real, b: real)
    ensures Abs(a * b) == Abs(a) * Abs(b)
  {
  }

  lemma Monotone(k: real, a: real, b: real)
    requires k >= 0.0 && a <= b
    ensures k * a <= k * b
  {
  }
}
