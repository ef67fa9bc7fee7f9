/** TrajectoryValidator: the loops of the safety check, proved against the report they must produce. */
module Validator {
  import opened Prelude
  import opened Trajectories
  import opened Safety
  import opened SafetyTheorems
  import opened SafetyFields

  /** The list of violations that the helper checks share and append to. */
  class ViolationLog {
    var items: seq<Violation>

    constructor ()
      ensures items == []
    {
      items := [];
    }

    method Append(more: seq<Violation>)
      modifies this
      ensures items == old(items) + more
    {
      items := items + more;
    }
  }

  lemma LimitEntry(policy: Policy, position: JointVector, k: nat, j: nat)
    requires j < JOINT_COUNT
    ensures var (value, lower, upper) := (position[j], policy.lower[j] + policy.margin, policy.upper[j] - policy.margin);
      LimitViolation(policy, position, k, j) ==
        if value < lower || value > upper then [Violation(JointLimit, k, j, Value(value), Value(if value < lower then lower else upper))]
        else []
  {
  }

  lemma StepEntry(policy: Policy, delta: JointVector, k: nat, j: nat)
    requires j < JOINT_COUNT
    ensures StepViolation(policy, delta, k, j) ==
      if Abs(delta[j]) > policy.maxStep + SLACK then [Violation(JointStep, k, j, Value(Abs(delta[j])), Value(policy.maxStep))] else []
  {
    hide Abs;
  }

  lemma OneMorePosition(policy: Policy, position: JointVector, delta: JointVector, k: nat, j: nat)
    requires j < JOINT_COUNT
    ensures PositionViolations(policy, position, delta, k, j + 1)
         == PositionViolations(policy, position, delta, k, j) + LimitViolation(policy, position, k, j) + StepViolation(policy, delta, k, j)
  {
  }

  lemma OneMoreRate(values: Rate, limits: JointVector, kind: Kind, k: nat, j: nat)
    requires j < JOINT_COUNT
    ensures RateViolations(values, limits, kind, k, j + 1)
         == RateViolations(values, limits, kind, k, j) + RateViolation(values, limits, kind, k, j)
  {
  }

  class TrajectoryValidator {
    const kinematics: Kinematics
    const policy: Policy

    constructor (kinematics: Kinematics, policy: Policy)
      requires policy.Valid()
      ensures this.kinematics == kinematics && this.policy == policy
    {
      this.kinematics := kinematics;
      this.policy := policy;
    }

    /** Estimate the forward-kinematics samples, giving up as soon as the budget is exceeded. */
    method WorkspaceSampleCount(current: JointVector, points: seq<TrajectoryPoint>) returns (count: nat)
      requires policy.Valid()
      ensures count <= policy.maxSamples <==> TotalSamples(policy, current, points) <= policy.maxSamples
      ensures count <= policy.maxSamples ==> count == TotalSamples(policy, current, points)
    {
      assert TotalSamples(policy, current, points[..0]) == 0;
      hide TotalSamples, Minus, MaxAbs, SampleCount;
      var total := 0;
      var previous := current;
      for k := 0 to |points|
        invariant previous == PreviousPosition(current, points, k)
        invariant total == TotalSamples(policy, current, points[..k]) <= policy.maxSamples
      {
        var position := points[k].position;
        var ratio := MaxAbs(Minus(position, previous)) / policy.resampleStep;
        var remaining := policy.maxSamples - total;
        TotalSamplesExtends(policy, current, points, k);
        TotalSamplesGrows(policy, current, points, k + 1);
        SampleCountRounds(policy, previous, position);
        if ratio > remaining as real {
          return policy.maxSamples + 1;
        }
        var sampleCount := if Ceil(ratio) < 1 then 1 else Ceil(ratio);
        total := total + sampleCount;
        if total > policy.maxSamples {
          return total;
        }
        previous := position;
      }
      assert points[..|points|] == points;
      return total;
    }

    method ValidatePosition(position: JointVector, delta: JointVector, k: nat, violations: ViolationLog)
      requires policy.Valid()
      modifies violations
      ensures violations.items == old(violations.items) + PositionViolations(policy, position, delta, k, JOINT_COUNT)
      ensures violations.items == old(violations.items) <==> forall j | 0 <= j < JOINT_COUNT ::
        policy.lower[j] + policy.margin <= position[j] <= policy.upper[j] - policy.margin
        && Abs(delta[j]) <= policy.maxStep + 0.000000000001
    {
      assert PositionViolations(policy, position, delta, k, 0) == [];
      hide PositionViolations, LimitViolation, StepViolation, Abs;
      for j := 0 to |policy.jointNames|
        invariant violations.items == old(violations.items) + PositionViolations(policy, position, delta, k, j)
      {
        OneMorePosition(policy, position, delta, k, j);
        ghost var before := violations.items;
        var value := position[j];
        var lower := policy.lower[j] + policy.margin;
        var upper := policy.upper[j] - policy.margin;
        if value < lower || value > upper {
          violations.Append([Violation(JointLimit, k, j, Value(value), Value(if value < lower then lower else upper))]);
        }
        assert violations.items == before + LimitViolation(policy, position, k, j) by {
          LimitEntry(policy, position, k, j);
        }
        var step := Abs(delta[j]);
        if step > policy.maxStep + SLACK {
          violations.Append([Violation(JointStep, k, j, Value(step), Value(policy.maxStep))]);
        }
        assert violations.items == before + LimitViolation(policy, position, k, j) + StepViolation(policy, delta, k, j) by {
          StepEntry(policy, delta, k, j);
        }
      }
      PositionClean(policy, position, delta, k, JOINT_COUNT);
    }

    method ValidateDerivative(values: Rate, limits: JointVector, kind: Kind, k: nat, violations: ViolationLog)
      requires policy.Valid()
      modifies violations
      ensures violations.items == old(violations.items) + RateViolations(values, limits, kind, k, JOINT_COUNT)
    {
      assert RateViolations(values, limits, kind, k, 0) == [];
      hide RateViolations;
      for j := 0 to |policy.jointNames|
        invariant violations.items == old(violations.items) + RateViolations(values, limits, kind, k, j)
      {
        OneMoreRate(values, limits, kind, k, j);
        if values.Infinite? {
          violations.Append([Violation(NonFiniteValue, k, j, Absent, Absent)]);
        }
        if values.Infinite? || Abs(values.v[j]) > limits[j] + SLACK {
          var measured := if values.Infinite? then Infinity else Value(Abs(values.v[j]));
          violations.Append([Violation(kind, k, j, measured, Value(limits[j]))]);
        }
      }
    }

    method ValidateVelocity(provided: Option<JointVector>, delta: JointVector, dt: real, k: nat, violations: ViolationLog)
      returns (derived: Rate)
      requires policy.Valid()
      modifies violations
      ensures derived == DerivedVelocity(delta, dt)
      ensures violations.items == old(violations.items)
        + ProvidedViolations(provided, policy.maxVelocity, JointVelocity, k)
        + RateViolations(derived, policy.maxVelocity, JointVelocity, k, JOINT_COUNT)
    {
      if dt > 0.0 {
        derived := Finite(DividedBy(delta, dt));
      } else if MaxAbs(delta) <= SLACK {
        derived := Finite(ZERO);
      } else {
        derived := Infinite;
      }
      if provided.Some? {
        ValidateDerivative(Finite(provided.value), policy.maxVelocity, JointVelocity, k, violations);
      }
      ValidateDerivative(derived, policy.maxVelocity, JointVelocity, k, violations);
    }

    method ValidateAcceleration(provided: Option<JointVector>, velocity: Rate, previous: Rate, dt: real, k: nat,
                                violations: ViolationLog)
      requires policy.Valid()
      modifies violations
      ensures violations.items == old(violations.items)
        + ProvidedViolations(provided, policy.maxAcceleration, JointAcceleration, k)
        + RateViolations(DerivedAcceleration(velocity, previous, dt), policy.maxAcceleration, JointAcceleration, k, JOINT_COUNT)
    {
      var derived: Rate;
      if velocity.Infinite? || previous.Infinite? {
        derived := Infinite;
      } else if dt > 0.0 {
        derived := Finite(DividedBy(Minus(velocity.v, previous.v), dt));
      } else if MaxAbs(Minus(velocity.v, previous.v)) <= SLACK {
        derived := Finite(ZERO);
      } else {
        derived := Infinite;
      }
      if provided.Some? {
        ValidateDerivative(Finite(provided.value), policy.maxAcceleration, JointAcceleration, k, violations);
      }
      ValidateDerivative(derived, policy.maxAcceleration, JointAcceleration, k, violations);
    }

    /** Returns the number of forward-kinematics calls made. */
    method ValidateWorkspaceSegment(start: JointVector, end: JointVector, k: nat, violations: ViolationLog)
      returns (fkCalls: nat)
      requires policy.Valid()
      modifies violations
      ensures fkCalls == SampleCount(policy, start, end)
      ensures violations.items == old(violations.items)
        + SegmentViolations(policy, kinematics, start, end, fkCalls, k, fkCalls)
    {
      var largest := MaxAbs(Minus(end, start));
      var count := Ceil(largest / policy.resampleStep);
      if count < 1 {
        count := 1;
      }
      fkCalls := 0;
      hide Sample, SampleViolations, Minus;
      for i := 1 to count + 1
        invariant fkCalls == i - 1
        invariant violations.items == old(violations.items)
          + SegmentViolations(policy, kinematics, start, end, count, k, i - 1)
      {
        var sample := Sample(start, end, i, count);
        fkCalls := fkCalls + 1;
        ValidateSample(sample, k, violations);
      }
    }

    method ValidateSample(sample: JointVector, k: nat, violations: ViolationLog)
      modifies violations
      ensures violations.items == old(violations.items) + SampleViolations(policy, kinematics, sample, k)
    {
      var pose := kinematics.fk(sample);
      var outside := false;
      for axis := 0 to 3
        invariant outside <==> AxisViolations(policy, pose, k, axis) != []
        invariant violations.items == old(violations.items) + AxisViolations(policy, pose, k, axis)
      {
        if pose[axis] < policy.workspaceMinimum[axis] || pose[axis] > policy.workspaceMaximum[axis] {
          outside := true;
          var bound := if pose[axis] < policy.workspaceMinimum[axis] then policy.workspaceMinimum[axis]
                       else policy.workspaceMaximum[axis];
          violations.Append([Violation(Workspace, k, -1, Value(pose[axis]), Value(bound))]);
        }
      }
      if !outside && policy.singularityEnabled && kinematics.score(sample) < policy.minimumScore {
        violations.Append([Violation(Singularity, -1, -1, Absent, Value(policy.minimumScore))]);
      }
    }

    /** Validate a complete trajectory against one measured state; also report the number of
        forward-kinematics calls made. */
    method Validate(trajectory: Trajectory, state: JointState, now: real)
      returns (violations: seq<Violation>, fkCalls: nat)
      requires policy.Valid()
      ensures violations == [] <==>
        0.0 <= policy.stateTimeout && now - state.received <= policy.stateTimeout
        && trajectory.jointNames == policy.jointNames
        && MeetsPolicy(policy, kinematics, state.position, trajectory.points)
      ensures violations == [] <==>
        state.Age(now) <= policy.stateTimeout && trajectory.jointNames == policy.jointNames
        && Safe(policy, kinematics, state.position, trajectory.points)
      ensures trajectory.jointNames == policy.jointNames && |trajectory.points| <= policy.maxPoints
              && Affordable(policy, state.position, trajectory.points) && TimesIncrease(trajectory.points) ==>
        Reports(policy, state.position, trajectory.points, violations)
      ensures now - state.received > policy.stateTimeout >= 0.0 ==>
        Violation(StaleState, -1, -1, Value(now - state.received), Value(policy.stateTimeout)) in violations
      ensures TimesIncrease(trajectory.points) ==> fkCalls <= policy.maxSamples
    {
      hide WalkTo, TotalSamples, Safe, MeetsPolicy, Affordable, Reports, TimesIncrease, StaleViolations;
      violations, fkCalls := Report(trajectory, state, now);
      SafeMeansPolicy(policy, kinematics, state.position, trajectory.points);
      BudgetInFields(policy, state.position, trajectory.points);
      if TimesIncrease(trajectory.points) {
        FullReport(policy, kinematics, state.position, StaleViolations(policy, state, now), trajectory.points);
      }
      StaleIsReported(policy, state, now, violations);
    }

    /** The report itself: state and names first, then the budgets, then the points. */
    method Report(trajectory: Trajectory, state: JointState, now: real)
      returns (violations: seq<Violation>, fkCalls: nat)
      requires policy.Valid()
      ensures violations == [] <==>
        state.Age(now) <= policy.stateTimeout
        && trajectory.jointNames == policy.jointNames
        && Safe(policy, kinematics, state.position, trajectory.points)
      ensures trajectory.jointNames == policy.jointNames
              && |trajectory.points| <= policy.maxPoints
              && TotalSamples(policy, state.position, trajectory.points) <= policy.maxSamples ==>
        violations == WalkTo(policy, kinematics, state.position, StaleViolations(policy, state, now),
                             trajectory.points, |trajectory.points|).violations
      ensures trajectory.jointNames != policy.jointNames ==>
        violations == StaleViolations(policy, state, now) + [Violation(TrajectoryTime, -1, -1, Absent, Absent)]
      ensures trajectory.jointNames == policy.jointNames && |trajectory.points| > policy.maxPoints ==>
        violations == StaleViolations(policy, state, now)
          + [Violation(TrajectoryBudget, -1, -1, Value(|trajectory.points| as real), Value(policy.maxPoints as real))]
      ensures StaleViolations(policy, state, now) <= violations
      ensures TimesIncrease(trajectory.points) ==> fkCalls <= policy.maxSamples
    {
      hide WalkTo, TotalSamples, SafeAt;
      var log := new ViolationLog();
      fkCalls := 0;
      var age := state.Age(now);
      if age > policy.stateTimeout {
        log.Append([Violation(StaleState, -1, -1, Value(age), Value(policy.stateTimeout))]);
      }
      if trajectory.jointNames != policy.jointNames {
        log.Append([Violation(TrajectoryTime, -1, -1, Absent, Absent)]);
        return log.items, 0;
      }
      var points := trajectory.points;
      if |points| > policy.maxPoints {
        log.Append([Violation(TrajectoryBudget, -1, -1, Value(|points| as real), Value(policy.maxPoints as real))]);
        return log.items, 0;
      }
      var sampleCount := WorkspaceSampleCount(state.position, points);
      if sampleCount > policy.maxSamples {
        log.Append([Violation(TrajectoryBudget, -1, -1, Value(sampleCount as real), Value(policy.maxSamples as real))]);
        return log.items, 0;
      }
      ghost var early := StaleViolations(policy, state, now);
      assert log.items == early;
      fkCalls := ValidatePoints(state.position, points, log);
      ReportMeans(policy, kinematics, state.position, early, points);
      EarlyViolationsStay(policy, kinematics, state.position, early, points, |points|);
      return log.items, fkCalls;
    }

    /** The loop over the points, which carries the last accepted position, time and velocity. */
    method ValidatePoints(measured: JointVector, points: seq<TrajectoryPoint>, log: ViolationLog) returns (fkCalls: nat)
      requires policy.Valid()
      modifies log
      ensures var w := WalkTo(policy, kinematics, measured, old(log.items), points, |points|);
        log.items == w.violations && fkCalls == w.fkCalls
    {
      hide PositionViolations, ProvidedViolations, RateViolations, SegmentViolations, DerivedVelocity,
        DerivedAcceleration, SampleCount, Minus, PointViolations;
      fkCalls := 0;
      var previousPosition, previousTime, previousVelocity := measured, 0.0, Finite(ZERO);
      for k := 0 to |points|
        invariant Walk(previousPosition, previousTime, previousVelocity, log.items, fkCalls)
                  == WalkTo(policy, kinematics, measured, old(log.items), points, k)
      {
        ghost var w := WalkTo(policy, kinematics, measured, old(log.items), points, k);
        var point := points[k];
        var timeIsValid := point.time >= 0.0;
        if k > 0 && point.time <= previousTime {
          timeIsValid := false;
        }
        if !timeIsValid {
          log.Append([Violation(TrajectoryTime, -1, -1, Absent, Absent)]);
        }
        var delta := Minus(point.position, previousPosition);
        ValidatePosition(point.position, delta, k, log);
        var dt := if timeIsValid then point.time - previousTime else 0.0;
        var velocity := ValidateVelocity(point.velocity, delta, dt, k, log);
        ValidateAcceleration(point.acceleration, velocity, previousVelocity, dt, k, log);
        var calls := ValidateWorkspaceSegment(previousPosition, point.position, k, log);
        fkCalls := fkCalls + calls;
        PointReport(policy, kinematics, w, k, point, log.items);
        if timeIsValid {
          previousPosition, previousTime, previousVelocity := point.position, point.time, velocity;
        }
      }
    }
  }

  lemma StaleIsReported(policy: Policy, state: JointState, now: real, violations: seq<Violation>)
    requires StaleViolations(policy, state, now) <= violations
    ensures now - state.received > policy.stateTimeout >= 0.0 ==>
      Violation(StaleState, -1, -1, Value(now - state.received), Value(policy.stateTimeout)) in violations
  {
    if now - state.received > policy.stateTimeout >= 0.0 {
      assert violations[0] == StaleViolations(policy, state, now)[0];
    }
  }

  /** Appending the checks of one point in the order the loop makes them yields that point's report. */
  lemma {:induction false} PointReport(policy: Policy, kin: Kinematics, w: Walk, k: nat, point: TrajectoryPoint, items: seq<Violation>)
    requires policy.Valid()
    requires var delta, dt := Minus(point.position, w.position), StepTime(w, k, point);
      var velocity := DerivedVelocity(delta, dt);
      var count := SampleCount(policy, w.position, point.position);
      items == w.violations + TimeViolation(w, k, point)
        + PositionViolations(policy, point.position, delta, k, JOINT_COUNT)
        + ProvidedViolations(point.velocity, policy.maxVelocity, JointVelocity, k)
        + RateViolations(velocity, policy.maxVelocity, JointVelocity, k, JOINT_COUNT)
        + ProvidedViolations(point.acceleration, policy.maxAcceleration, JointAcceleration, k)
        + RateViolations(DerivedAcceleration(velocity, w.velocity, dt), policy.maxAcceleration, JointAcceleration, k, JOINT_COUNT)
        + SegmentViolations(policy, kin, w.position, point.position, count, k, count)
    ensures items == w.violations + PointViolations(policy, kin, w, k, point)
  {
    hide PositionViolations, ProvidedViolations, RateViolations, SegmentViolations, DerivedVelocity,
      DerivedAcceleration, SampleCount, Minus;
  }

  /** The rounding in the sample count, and why an early exit on the ratio is sound. */
  lemma SampleCountRounds(policy: Policy, start: JointVector, end: JointVector)
    requires policy.Valid()
    ensures var ratio := MaxAbs(Minus(end, start)) / policy.resampleStep;
      && SampleCount(policy, start, end) == (if Ceil(ratio) < 1 then 1 else Ceil(ratio))
      && ratio <= SampleCount(policy, start, end) as real
  {
    hide Minus;
  }

  lemma {:induction false} TotalSamplesExtends(policy: Policy, from: JointVector, points: seq<TrajectoryPoint>, k: nat)
    requires policy.Valid() && k < |points|
    ensures TotalSamples(policy, from, points[..k + 1])
      == TotalSamples(policy, from, points[..k]) + SampleCount(policy, PreviousPosition(from, points, k), points[k].position)
  {
    hide SampleCount;
    assert points[..k + 1][..k] == points[..k];
    assert PreviousPosition(from, points[..k + 1], k) == PreviousPosition(from, points, k);
  }

  /** The report of a whole run is empty exactly for a fresh state and points that pass every check,
      and with increasing times it cost exactly the estimated number of samples. */
  lemma {:induction false} ReportMeans(policy: Policy, kin: Kinematics, measured: JointVector, early: seq<Violation>,
                    points: seq<TrajectoryPoint>)
    requires policy.Valid()
    ensures var w := WalkTo(policy, kin, measured, early, points, |points|);
      && (w.violations == []
          <==> early == [] && forall k | 0 <= k < |points| :: SafeAt(policy, kin, measured, points, k))
      && (TimesIncrease(points) ==> w.fkCalls == TotalSamples(policy, measured, points))
  {
    hide SampleCount, PointViolations, SafeAt;
    EarlyViolationsStay(policy, kin, measured, early, points, |points|);
    if early == [] {
      WalkClean(policy, kin, measured, points, |points|);
    }
    if TimesIncrease(points) {
      WalkCalls(policy, kin, measured, early, points, |points|);
      assert points[..|points|] == points;
    }
  }

  lemma {:induction false} EarlyViolationsStay(policy: Policy, kin: Kinematics, measured: JointVector,
                                               early: seq<Violation>, points: seq<TrajectoryPoint>, k: nat)
    requires policy.Valid() && k <= |points|
    ensures early <= WalkTo(policy, kin, measured, early, points, k).violations
  {
    hide PointViolations, SampleCount, DerivedVelocity, Minus;
    if k > 0 {
      EarlyViolationsStay(policy, kin, measured, early, points, k - 1);
    }
  }
}
