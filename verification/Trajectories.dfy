/** Joint vectors, trajectory points and trajectories (pycore/src/domain/models.py). */
module Trajectories {
  import opened Prelude

  const JOINT_COUNT: nat := 6

  type JointVector = v: seq<real> | |v| == JOINT_COUNT witness [0.0, 0.0, 0.0, 0.0, 0.0, 0.0]

  const ZERO: JointVector := [0.0, 0.0, 0.0, 0.0, 0.0, 0.0]

  function Minus(a: JointVector, b: JointVector): JointVector {
    seq(JOINT_COUNT, j requires 0 <= j < JOINT_COUNT => a[j] - b[j])
  }

  function DividedBy(a: JointVector, k: real): JointVector
    requires k != 0.0
  {
    seq(JOINT_COUNT, j requires 0 <= j < JOINT_COUNT => a[j] / k)
  }

  /** The point at the given ratio of the straight joint path from a to b. */
  function Along(a: JointVector, b: JointVector, ratio: real): JointVector {
    seq(JOINT_COUNT, j requires 0 <= j < JOINT_COUNT => a[j] + ratio * (b[j] - a[j]))
  }

  /** np.max(np.abs(v)) over the first n entries, zero when n is zero. */
  function MaxAbsUpTo(v: JointVector, n: nat): (m: real)
    requires n <= JOINT_COUNT
    ensures 0.0 <= m
    ensures forall j | 0 <= j < n :: Abs(v[j]) <= m
    ensures n > 0 ==> exists j | 0 <= j < n :: Abs(v[j]) == m
  {
    if n == 0 then 0.0 else Max(MaxAbsUpTo(v, n - 1), Abs(v[n - 1]))
  }

  function MaxAbs(v: JointVector): (m: real)
    ensures 0.0 <= m
    ensures forall j | 0 <= j < JOINT_COUNT :: Abs(v[j]) <= m
    ensures exists j | 0 <= j < JOINT_COUNT :: Abs(v[j]) == m
  {
    MaxAbsUpTo(v, JOINT_COUNT)
  }

  datatype TrajectoryPoint = TrajectoryPoint(
    position: JointVector,
    time: real,
    velocity: Option<JointVector>,
    acceleration: Option<JointVector>)

  datatype Trajectory = Trajectory(jointNames: seq<string>, points: seq<TrajectoryPoint>)

  /** The order the trajectory constructor insists on: no negative time, strictly increasing times. */
  predicate TimesIncrease(points: seq<TrajectoryPoint>) {
    && (forall k | 0 <= k < |points| :: 0.0 <= points[k].time)
    && (forall k | 0 < k < |points| :: points[k - 1].time < points[k].time)
  }
}
