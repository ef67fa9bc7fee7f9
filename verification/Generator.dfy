/** Point-to-point trajectories with cubic time scaling (pycore/src/runtime/trajectory.py). */
module Generator {
  import opened Prelude
  import opened Trajectories
  import opened Safety

  datatype MotionProfile = MotionProfile(duration: real, maxVelocity: Option<real>, maxAcceleration: Option<real>) {
    /** What the profile constructor enforces. */
    predicate Valid() {
      && duration > 0.0
      && (maxVelocity.Some? ==> maxVelocity.value > 0.0)
      && (maxAcceleration.Some? ==> maxAcceleration.value > 0.0)
    }
  }

  function Cubic(x: real): real {
    3.0 * (x * x) - 2.0 * (x * x * x)
  }

  function VelocityScale(x: real, duration: real): real
    requires duration > 0.0
  {
    (6.0 * x - 6.0 * (x * x)) / duration
  }

  function AccelerationScale(x: real, duration: real): real
    requires duration > 0.0
  {
    (6.0 - 12.0 * x) / (duration * duration)
  }

  /** The analytic extrema of the cubic for the largest joint displacement. */
  function PeakVelocity(displacement: real, duration: real): real
    requires duration > 0.0
  {
    1.5 * displacement / duration
  }

  function PeakAcceleration(displacement: real, duration: real): real
    requires duration > 0.0
  {
    6.0 * displacement / (duration * duration)
  }

  /** The cubic profile sampled at i of n intervals: position, time, and analytic derivatives. */
  function PointAt(start: JointVector, target: JointVector, duration: real, n: nat, i: nat): TrajectoryPoint
    requires duration > 0.0 && n > 0
  {
    var x := i as real / n as real;
    TrajectoryPoint(
      Along(start, target, Cubic(x)),
      duration * x,
      Some(Scaled(Minus(target, start), VelocityScale(x, duration))),
      Some(Scaled(Minus(target, start), AccelerationScale(x, duration))))
  }

  function Scaled(v: JointVector, k: real): JointVector {
    seq(JOINT_COUNT, j requires 0 <= j < JOINT_COUNT => k * v[j])
  }

  function Intervals(duration: real, rate: real): (n: nat)
    ensures n >= 1
  {
    if Ceil(duration * rate) < 1 then 1 else Ceil(duration * rate)
  }

  function Points(start: JointVector, target: JointVector, duration: real, n: nat): (points: seq<TrajectoryPoint>)
    requires duration > 0.0 && n > 0
    ensures |points| == n + 1
  {
    seq(n + 1, i requires 0 <= i <= n => PointAt(start, target, duration, n, i))
  }

  // ---------------------------------------------------------------------------------------------
  // The same without these functions
  // ---------------------------------------------------------------------------------------------

  /** The cubic is fastest half way, at three halves of the mean speed. */
  function TopSpeed(distance: real, duration: real): real
    requires duration > 0.0
  {
    1.5 * distance / duration
  }

  /** It accelerates most at its ends. */
  function TopAcceleration(distance: real, duration: real): real
    requires duration > 0.0
  {
    6.0 * distance / (duration * duration)
  }

  predicate Exceeds(rate: real, limit: Option<real>) {
    limit.Some? && rate > limit.value + 0.000000000001
  }

  /** The cubic would move this far too fast or accelerate too much for the profile. */
  predicate TooFast(profile: MotionProfile, distance: real)
    requires profile.Valid()
  {
    || Exceeds(TopSpeed(distance, profile.duration), profile.maxVelocity)
    || Exceeds(TopAcceleration(distance, profile.duration), profile.maxAcceleration)
  }

  /** From one time to the next at least at this rate. */
  predicate OneTick(sooner: real, later: real, rate: real) {
    0.0 < (later - sooner) * rate <= 1.0
  }

  /** The points come at least at the command rate and, if there is more than one interval, one interval
      less would not do. */
  predicate Paced(points: seq<TrajectoryPoint>, duration: real, rate: real) {
    && |points| >= 2 && points[0].time == 0.0 && points[|points| - 1].time == duration
    && (forall i | 0 < i < |points| :: OneTick(points[i - 1].time, points[i].time, rate))
    && (|points| > 2 ==> (|points| - 2) as real < duration * rate)
  }

  /** A point on the line from start to target with these shares of the displacement. */
  predicate OnLine(point: TrajectoryPoint, start: JointVector, target: JointVector, position: real, velocity: real,
                   acceleration: real) {
    && point.velocity.Some? && point.acceleration.Some?
    && forall j | 0 <= j < JOINT_COUNT ::
         && point.position[j] == start[j] + position * (target[j] - start[j])
         && point.velocity.value[j] == velocity * (target[j] - start[j])
         && point.acceleration.value[j] == acceleration * (target[j] - start[j])
  }

  /** A point on the cubic from start to target at the share x of the duration, with the derivatives of the
      position by time. */
  predicate OnCubic(point: TrajectoryPoint, start: JointVector, target: JointVector, duration: real, x: real)
    requires duration > 0.0
  {
    && point.time == duration * x
    && OnLine(point, start, target, 3.0 * (x * x) - 2.0 * (x * x * x), (6.0 * x - 6.0 * (x * x)) / duration,
              (6.0 - 12.0 * x) / (duration * duration))
  }

  lemma AllOnCubic(start: JointVector, target: JointVector, duration: real, n: nat)
    requires duration > 0.0 && n > 0
    ensures forall i | 0 <= i <= n :: OnCubic(Points(start, target, duration, n)[i], start, target, duration, i as real / n as real)
  {
    forall i | 0 <= i <= n
      ensures OnCubic(Points(start, target, duration, n)[i], start, target, duration, i as real / n as real)
    {
      PointOnCubic(start, target, duration, n, i);
    }
  }

  lemma PointOnCubic(start: JointVector, target: JointVector, duration: real, n: nat, i: nat)
    requires duration > 0.0 && n > 0 && i <= n
    ensures OnCubic(PointAt(start, target, duration, n, i), start, target, duration, i as real / n as real)
  {
    var point, x := PointAt(start, target, duration, n, i), i as real / n as real;
    LineOfScales(start, target, x, duration, Cubic(x), VelocityScale(x, duration), AccelerationScale(x, duration), point);
    hide PointAt, OnLine;
  }

  lemma LineOfScales(start: JointVector, target: JointVector, x: real, duration: real, c: real, v: real, a: real, point: TrajectoryPoint)
    requires point == TrajectoryPoint(Along(start, target, c), point.time, Some(Scaled(Minus(target, start), v)),
                                      Some(Scaled(Minus(target, start), a)))
    ensures OnLine(point, start, target, c, v, a)
  {
    var displacement := Minus(target, start);
    assert forall j | 0 <= j < JOINT_COUNT :: displacement[j] == target[j] - start[j];
    assert forall j | 0 <= j < JOINT_COUNT :: Scaled(displacement, v)[j] == v * displacement[j];
    assert forall j | 0 <= j < JOINT_COUNT :: Scaled(displacement, a)[j] == a * displacement[j];
  }

  lemma PacedByIntervals(start: JointVector, target: JointVector, duration: real, rate: real)
    requires duration > 0.0 && rate > 0.0
    ensures Paced(Points(start, target, duration, Intervals(duration, rate)), duration, rate)
  {
    var n := Intervals(duration, rate);
    var points := Points(start, target, duration, n);
    IntervalsRound(duration, rate, duration * rate);
    hide Intervals, PointAt, OneTick;
    TimeOf(start, target, duration, n, 0);
    TimeOf(start, target, duration, n, n);
    WholeDuration(duration, n as real);
    forall i | 0 < i < |points|
      ensures OneTick(points[i - 1].time, points[i].time, rate)
    {
      IntervalOf(start, target, duration, rate, n, i, duration * rate);
    }
  }

  lemma IntervalsRound(duration: real, rate: real, all: real)
    requires duration > 0.0 && rate > 0.0 && all == duration * rate
    ensures var n := Intervals(duration, rate); 0.0 < all <= n as real && (n > 1 ==> (n - 1) as real < all)
  {
    PositiveProduct(duration, rate, all);
  }

  lemma TimeOf(start: JointVector, target: JointVector, duration: real, n: nat, i: nat)
    requires duration > 0.0 && n > 0 && i <= n
    ensures Points(start, target, duration, n)[i].time == duration * (i as real / n as real)
  {
    hide Cubic, VelocityScale, AccelerationScale, Along, Minus, Scaled;
  }

  lemma WholeDuration(duration: real, n: real)
    requires n > 0.0
    ensures duration * (0.0 / n) == 0.0 && duration * (n / n) == duration
  {
  }

  lemma IntervalOf(start: JointVector, target: JointVector, duration: real, rate: real, n: nat, i: nat, all: real)
    requires duration > 0.0 && rate > 0.0 && n > 0 && 0 < i <= n && all == duration * rate && 0.0 < all <= n as real
    ensures var points := Points(start, target, duration, n); OneTick(points[i - 1].time, points[i].time, rate)
  {
    TimeOf(start, target, duration, n, i);
    TimeOf(start, target, duration, n, i - 1);
    hide Points;
    var x, y, w := i as real / n as real, (i - 1) as real / n as real, n as real;
    OneShare(i as real, w, x, y);
    OneInterval(duration, rate, w, x, y, all, duration * x, duration * y);
  }

  lemma OneShare(i: real, w: real, x: real, y: real)
    requires w > 0.0 && x == i / w && y == (i - 1.0) / w
    ensures (x - y) * w == 1.0
  {
  }

  lemma OneInterval(duration: real, rate: real, w: real, x: real, y: real, all: real, later: real, sooner: real)
    requires duration > 0.0 && rate > 0.0 && w > 0.0 && all == duration * rate && 0.0 < all <= w
    requires (x - y) * w == 1.0 && later == duration * x && sooner == duration * y
    ensures 0.0 < (later - sooner) * rate <= 1.0
  {
    var share := x - y;
    assert share == 1.0 / w;
    Rearranged(duration, rate, share, x, y, all, later, sooner);
    PositiveProduct(all, share, all * share);
    NonnegativeProduct(w - all, share, 1.0 - all * share);
  }

  lemma Rearranged(duration: real, rate: real, share: real, x: real, y: real, all: real, later: real, sooner: real)
    requires share == x - y && all == duration * rate && later == duration * x && sooner == duration * y
    ensures (later - sooner) * rate == all * share
  {
    assert later - sooner == duration * share;
  }

  lemma RefusedForAJoint(profile: MotionProfile, start: JointVector, target: JointVector)
    requires profile.Valid()
    ensures TooFast(profile, MaxAbs(Minus(target, start)))
      <==> exists j :: 0 <= j < JOINT_COUNT && TooFast(profile, Abs(target[j] - start[j]))
  {
    var delta := Minus(target, start);
    assert forall j | 0 <= j < JOINT_COUNT :: delta[j] == target[j] - start[j];
    var most :| 0 <= most < JOINT_COUNT && Abs(delta[most]) == MaxAbs(delta);
    forall j | 0 <= j < JOINT_COUNT && TooFast(profile, Abs(target[j] - start[j]))
      ensures TooFast(profile, MaxAbs(delta))
    {
      FartherIsFaster(profile, Abs(delta[j]), MaxAbs(delta));
    }
  }

  lemma TooFastMeans(profile: MotionProfile, distance: real)
    requires profile.Valid()
    ensures TooFast(profile, distance) <==>
      || Exceeds(PeakVelocity(distance, profile.duration), profile.maxVelocity)
      || Exceeds(PeakAcceleration(distance, profile.duration), profile.maxAcceleration)
  {
    PeaksMean(distance, profile.duration);
    hide PeakVelocity, PeakAcceleration, TopSpeed, TopAcceleration;
  }

  lemma PeaksMean(distance: real, duration: real)
    requires duration > 0.0
    ensures PeakVelocity(distance, duration) == TopSpeed(distance, duration)
    ensures PeakAcceleration(distance, duration) == TopAcceleration(distance, duration)
  {
  }

  lemma FartherIsFaster(profile: MotionProfile, less: real, more: real)
    requires profile.Valid() && less <= more && TooFast(profile, less)
    ensures TooFast(profile, more)
  {
    TopsGrow(less, more, profile.duration, profile.duration * profile.duration);
    hide TopSpeed, TopAcceleration;
  }

  lemma TopsGrow(less: real, more: real, d: real, dd: real)
    requires less <= more && d > 0.0 && dd == d * d
    ensures TopSpeed(less, d) <= TopSpeed(more, d) && TopAcceleration(less, d) <= TopAcceleration(more, d)
  {
    PositiveProduct(d, d, dd);
    QuotientGrows(1.5 * less, 1.5 * more, d);
    QuotientGrows(6.0 * less, 6.0 * more, dd);
  }

  lemma QuotientGrows(a: real, b: real, d: real)
    requires a <= b && d > 0.0
    ensures a / d <= b / d
  {
    NonnegativeProduct(b - a, 1.0 / d, (b - a) * (1.0 / d));
    assert b / d - a / d == (b - a) * (1.0 / d);
  }

  class PointToPointTrajectoryGenerator {
    const commandRate: real

    constructor (commandRate: real)
      requires commandRate > 0.0
      ensures this.commandRate == commandRate
    {
      this.commandRate := commandRate;
    }

    /** None stands for the ValueError raised when a profile limit is below the cubic's extremum. */
    method Generate(jointNames: seq<string>, start: JointVector, target: JointVector, profile: MotionProfile)
      returns (trajectory: Option<Trajectory>)
      requires profile.Valid() && commandRate > 0.0
      ensures var largest := MaxAbs(Minus(target, start));
        trajectory.None? <==>
          || (profile.maxVelocity.Some? && PeakVelocity(largest, profile.duration) > profile.maxVelocity.value + SLACK)
          || (profile.maxAcceleration.Some?
              && PeakAcceleration(largest, profile.duration) > profile.maxAcceleration.value + SLACK)
      ensures trajectory.Some? ==>
        trajectory.value == Trajectory(jointNames,
          Points(start, target, profile.duration, Intervals(profile.duration, commandRate)))
      ensures trajectory.None? <==> exists j :: 0 <= j < JOINT_COUNT && TooFast(profile, Abs(target[j] - start[j]))
      ensures trajectory.Some? ==> Paced(trajectory.value.points, profile.duration, commandRate)
      ensures trajectory.Some? ==> forall i | 0 <= i < |trajectory.value.points| ::
        OnCubic(trajectory.value.points[i], start, target, profile.duration, i as real / (|trajectory.value.points| - 1) as real)
    {
      RefusedForAJoint(profile, start, target);
      TooFastMeans(profile, MaxAbs(Minus(target, start)));
      hide Minus, PointAt, PeakVelocity, PeakAcceleration, TooFast, Paced, OnCubic, Points, MaxAbs;
      var duration := profile.duration;
      var largest := MaxAbs(Minus(target, start));
      var maximumVelocity := PeakVelocity(largest, duration);
      var maximumAcceleration := PeakAcceleration(largest, duration);
      if profile.maxVelocity.Some? && maximumVelocity > profile.maxVelocity.value + SLACK {
        return None;
      }
      if profile.maxAcceleration.Some? && maximumAcceleration > profile.maxAcceleration.value + SLACK {
        return None;
      }
      var n := if Ceil(duration * commandRate) < 1 then 1 else Ceil(duration * commandRate);
      PacedByIntervals(start, target, duration, commandRate);
      AllOnCubic(start, target, duration, n);
      var points := SamplePoints(start, target, duration, n);
      return Some(Trajectory(jointNames, points));
    }

    method SamplePoints(start: JointVector, target: JointVector, duration: real, n: nat) returns (points: seq<TrajectoryPoint>)
      requires duration > 0.0 && n > 0
      ensures points == Points(start, target, duration, n)
    {
      hide PointAt;
      points := [];
      for i := 0 to n + 1
        invariant points == Points(start, target, duration, n)[..i]
      {
        var point := SamplePoint(start, target, duration, n, i);
        points := points + [point];
      }
    }

    method SamplePoint(start: JointVector, target: JointVector, duration: real, n: nat, i: nat)
      returns (point: TrajectoryPoint)
      requires duration > 0.0 && n > 0
      ensures point == PointAt(start, target, duration, n, i)
    {
      hide Along, Minus, Scaled, Cubic, VelocityScale, AccelerationScale;
      var x := i as real / n as real;
      var displacement := Minus(target, start);
      point := TrajectoryPoint(Along(start, target, Cubic(x)), duration * x,
                               Some(Scaled(displacement, VelocityScale(x, duration))),
                               Some(Scaled(displacement, AccelerationScale(x, duration))));
    }
  }
}
