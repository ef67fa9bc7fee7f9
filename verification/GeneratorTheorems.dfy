/**
 The generator's analytic promises imply the validator's discrete checks: when the extrema of the
 cubic fit the limits, every finite difference of the sampled trajectory fits them too.
 */
module GeneratorTheorems {
  import opened Prelude
  import opened Trajectories
  import opened Safety
  import opened SafetyTheorems
  import opened Generator

  // ---------------------------------------------------------------------------------------------
  // The cubic
  // ---------------------------------------------------------------------------------------------

  lemma CubicRange(x: real)
    requires 0.0 <= x <= 1.0
    ensures 0.0 <= Cubic(x) <= 1.0
  {
    assert Cubic(x) == x * x * (3.0 - 2.0 * x);
    assert 1.0 - Cubic(x) == (1.0 - x) * (1.0 - x) * (1.0 + 2.0 * x);
    NonnegativeProduct(x * x, 3.0 - 2.0 * x, x * x * (3.0 - 2.0 * x));
    NonnegativeProduct((1.0 - x) * (1.0 - x), 1.0 + 2.0 * x, (1.0 - x) * (1.0 - x) * (1.0 + 2.0 * x));
  }

  /** The rise over one interval is at most one and a half times its width. */
  lemma CubicStep(x: real, h: real)
    requires 0.0 <= x && 0.0 < h && x + h <= 1.0
    ensures 0.0 <= Cubic(x + h) - Cubic(x) <= 1.5 * h
  {
    var m := x + 0.5 * h;
    CubicStepForms(x, h, m);
    NonnegativeProduct(x, 1.0 - x - h, x * (1.0 - x - h));
    NonnegativeProduct(h, 3.0 - 2.0 * h, h * (3.0 - 2.0 * h));
    NonnegativeProduct(h, 6.0 * (x * (1.0 - x - h)) + h * (3.0 - 2.0 * h),
      h * (6.0 * (x * (1.0 - x - h)) + h * (3.0 - 2.0 * h)));
    Square(m - 0.5);
    Square(h);
    NonnegativeProduct(h, 6.0 * ((m - 0.5) * (m - 0.5)) + 0.5 * (h * h),
      h * (6.0 * ((m - 0.5) * (m - 0.5)) + 0.5 * (h * h)));
  }

  lemma Square(a: real)
    ensures a * a >= 0.0
  {
  }

  lemma CubicStepForms(x: real, h: real, m: real)
    requires m == x + 0.5 * h
    ensures Cubic(x + h) - Cubic(x) == h * (6.0 * (x * (1.0 - x - h)) + h * (3.0 - 2.0 * h))
    ensures 1.5 * h - (Cubic(x + h) - Cubic(x)) == h * (6.0 * ((m - 0.5) * (m - 0.5)) + 0.5 * (h * h))
  {
    CubicStepAlgebra(x, h);
  }

  lemma CubicStepAlgebra(x: real, h: real)
    ensures 3.0 * ((x + h) * (x + h)) - 2.0 * ((x + h) * (x + h) * (x + h)) - (3.0 * (x * x) - 2.0 * (x * x * x))
      == h * (6.0 * (x * (1.0 - x - h)) + h * (3.0 - 2.0 * h))
    ensures 1.5 * h - h * (6.0 * (x * (1.0 - x - h)) + h * (3.0 - 2.0 * h))
      == h * (6.0 * ((x + 0.5 * h - 0.5) * (x + 0.5 * h - 0.5)) + 0.5 * (h * h))
  {
  }

  lemma CubicSecondDifference(x: real, h: real)
    ensures Cubic(x + h) - 2.0 * Cubic(x) + Cubic(x - h) == (6.0 - 12.0 * x) * (h * h)
  {
  }

  /** The sampled derivatives are those of the cubic: the first-order remainder is quadratic. */
  lemma ScalesAreDerivatives(x: real, e: real)
    requires 0.0 <= x <= 1.0 && 0.0 <= x + e <= 1.0
    ensures Abs(Cubic(x + e) - Cubic(x) - e * VelocityScale(x, 1.0)) <= 3.0 * (e * e)
    ensures VelocityScale(x + e, 1.0) - VelocityScale(x, 1.0) - e * AccelerationScale(x, 1.0) == -6.0 * (e * e)
  {
    hide Cubic, VelocityScale, AccelerationScale;
    var k := 3.0 - 6.0 * x - 2.0 * e;
    FirstOrder(x, e, k);
    SquareTimes(e, k, 3.0);
  }

  lemma FirstOrder(x: real, e: real, k: real)
    requires k == 3.0 - 6.0 * x - 2.0 * e
    ensures Cubic(x + e) - Cubic(x) - e * VelocityScale(x, 1.0) == e * e * k
    ensures VelocityScale(x + e, 1.0) - VelocityScale(x, 1.0) - e * AccelerationScale(x, 1.0) == -6.0 * (e * e)
  {
    RemainderAlgebra(x, e);
  }

  lemma SquareTimes(e: real, k: real, bound: real)
    requires Abs(k) <= bound
    ensures Abs(e * e * k) <= bound * (e * e)
  {
    Square(e);
    Monotone(e * e, k, bound);
    Monotone(e * e, -k, bound);
  }

  lemma RemainderAlgebra(x: real, e: real)
    ensures 3.0 * ((x + e) * (x + e)) - 2.0 * ((x + e) * (x + e) * (x + e)) - (3.0 * (x * x) - 2.0 * (x * x * x))
            - e * (6.0 * x - 6.0 * (x * x)) == e * e * (3.0 - 6.0 * x - 2.0 * e)
    ensures 6.0 * (x + e) - 6.0 * ((x + e) * (x + e)) - (6.0 * x - 6.0 * (x * x)) - e * (6.0 - 12.0 * x) == -6.0 * (e * e)
  {
  }

  // ---------------------------------------------------------------------------------------------
  // The finite differences the validator takes
  // ---------------------------------------------------------------------------------------------

  /** Average slope of the cubic over the interval that ends at sample i. */
  function Slope(n: nat, i: nat): real
    requires 1 <= i <= n
  {
    (Cubic(i as real / n as real) - Cubic((i - 1) as real / n as real)) * n as real
  }

  lemma Grid(n: nat, i: nat)
    requires 1 <= i <= n
    ensures i as real / n as real == (i - 1) as real / n as real + 1.0 / n as real
    ensures 0.0 <= (i - 1) as real / n as real
    ensures i as real / n as real <= 1.0
    ensures (1.0 / n as real) * n as real == 1.0
  {
  }

  lemma SlopeBound(n: nat, i: nat)
    requires 1 <= i <= n
    ensures 0.0 <= Slope(n, i) <= 1.5
  {
    hide Cubic;
    Grid(n, i);
    var x, h, m := (i - 1) as real / n as real, 1.0 / n as real, n as real;
    CubicStep(x, h);
    NonnegativeProduct(Cubic(x + h) - Cubic(x), m, (Cubic(x + h) - Cubic(x)) * m);
    NonnegativeProduct(1.5 * h - (Cubic(x + h) - Cubic(x)), m, (1.5 * h - (Cubic(x + h) - Cubic(x))) * m);
  }

  lemma SlopeChange(n: nat, i: nat)
    requires 2 <= i <= n
    ensures (Slope(n, i) - Slope(n, i - 1)) * n as real == 6.0 - 12.0 * ((i - 1) as real / n as real)
  {
    hide Cubic;
    Grid(n, i);
    Grid(n, i - 1);
    var x, h, m := (i - 1) as real / n as real, 1.0 / n as real, n as real;
    CubicSecondDifference(x, h);
    SlopeChangeAlgebra(Cubic(x + h), Cubic(x), Cubic(x - h), 6.0 - 12.0 * x, h, m);
  }

  lemma SlopeChangeAlgebra(a: real, b: real, c: real, k: real, h: real, m: real)
    requires a - 2.0 * b + c == k * (h * h) && h * m == 1.0
    ensures ((a - b) * m - (b - c) * m) * m == k
  {
    assert ((a - b) * m - (b - c) * m) * m == (a - 2.0 * b + c) * (m * m);
    assert k * (h * h) * (m * m) == k * ((h * m) * (h * m));
  }

  lemma FirstSlope(n: nat)
    requires 1 <= n
    ensures Slope(n, 1) * n as real == 3.0 - 2.0 * (1.0 / n as real)
  {
    Grid(n, 1);
    FirstSlopeAlgebra(1.0 / n as real, n as real);
  }

  lemma FirstSlopeAlgebra(h: real, m: real)
    requires h * m == 1.0
    ensures ((3.0 * (h * h) - 2.0 * (h * h * h)) * m) * m == 3.0 - 2.0 * h
  {
    assert ((3.0 * (h * h) - 2.0 * (h * h * h)) * m) * m == (3.0 - 2.0 * h) * ((h * m) * (h * m));
  }

  lemma PointIs(start: JointVector, target: JointVector, duration: real, n: nat, i: nat, j: nat)
    requires duration > 0.0 && i <= n && 1 <= n && j < JOINT_COUNT
    ensures Points(start, target, duration, n)[i].position[j]
            == start[j] + Cubic(i as real / n as real) * Minus(target, start)[j]
    ensures Points(start, target, duration, n)[i].time == duration * (i as real / n as real)
  {
    hide Cubic, VelocityScale, AccelerationScale;
  }

  lemma PositionChange(start: JointVector, target: JointVector, duration: real, n: nat, i: nat, j: nat)
    requires duration > 0.0 && 1 <= i <= n && j < JOINT_COUNT
    ensures var ps := Points(start, target, duration, n);
      Minus(ps[i].position, ps[i - 1].position)[j] * n as real == Slope(n, i) * Minus(target, start)[j]
  {
    hide Cubic, Points;
    PointIs(start, target, duration, n, i, j);
    PointIs(start, target, duration, n, i - 1, j);
    PositionChangeAlgebra(start[j], Cubic(i as real / n as real), Cubic((i - 1) as real / n as real),
                          Minus(target, start)[j], n as real);
  }

  lemma PositionChangeAlgebra(s: real, a: real, b: real, d: real, m: real)
    ensures ((s + a * d) - (s + b * d)) * m == (a - b) * m * d
  {
  }

  lemma TimeChange(start: JointVector, target: JointVector, duration: real, n: nat, i: nat)
    requires duration > 0.0 && 1 <= i <= n
    ensures var ps := Points(start, target, duration, n);
      0.0 < ps[i].time - ps[i - 1].time && (ps[i].time - ps[i - 1].time) * n as real == duration
      && 0.0 <= ps[i - 1].time
  {
    hide Cubic, Points;
    PointIs(start, target, duration, n, i, 0);
    PointIs(start, target, duration, n, i - 1, 0);
    Grid(n, i);
    TimeChangeAlgebra(duration, i as real / n as real, (i - 1) as real / n as real, 1.0 / n as real, n as real);
  }

  lemma TimeChangeAlgebra(t: real, x: real, y: real, h: real, m: real)
    requires x == y + h && h * m == 1.0 && m > 0.0 && t > 0.0 && y >= 0.0
    ensures 0.0 < t * x - t * y && (t * x - t * y) * m == t && 0.0 <= t * y
  {
    assert (t * x - t * y) * m == t * (h * m);
    assert t * x - t * y == t * h;
    assert h > 0.0;
  }

  /** The finite-difference velocity is the average slope of the cubic, scaled by the displacement. */
  lemma VelocityValue(start: JointVector, target: JointVector, duration: real, n: nat, i: nat, j: nat)
    requires duration > 0.0 && 1 <= i <= n && j < JOINT_COUNT
    ensures var v := VelocityAt(start, Points(start, target, duration, n), i);
      v.Finite? && v.v[j] * duration == Slope(n, i) * Minus(target, start)[j]
  {
    hide Slope, Points, Minus;
    PositionChange(start, target, duration, n, i, j);
    TimeChange(start, target, duration, n, i);
    var ps := Points(start, target, duration, n);
    var dt, diff := ps[i].time - ps[i - 1].time, Minus(ps[i].position, ps[i - 1].position);
    var v := VelocityAt(start, ps, i).v[j];
    QuotientTimes(diff, dt, j, v);
    Rescale(v, diff[j], dt, n as real, duration);
  }

  /** A quotient by one time step, rescaled to a quotient by the whole duration. */
  lemma Rescale(q: real, a: real, dt: real, m: real, duration: real)
    requires q * dt == a && dt * m == duration
    ensures q * duration == a * m
  {
    assert q * (dt * m) == (q * dt) * m;
  }

  lemma FirstVelocity(start: JointVector, target: JointVector, duration: real, n: nat)
    requires duration > 0.0 && 1 <= n
    ensures VelocityAt(start, Points(start, target, duration, n), 0) == Finite(ZERO)
    ensures Points(start, target, duration, n)[0].position == start
    ensures Points(start, target, duration, n)[0].time == 0.0
  {
    hide Points;
    var p := Points(start, target, duration, n)[0];
    forall j | 0 <= j < JOINT_COUNT
      ensures p.position[j] == start[j]
    {
      PointIs(start, target, duration, n, 0, j);
    }
    PointIs(start, target, duration, n, 0, 0);
    assert p.position == start;
    assert Minus(p.position, start) == ZERO;
  }

  /** Slope of the interval before sample i; the arm starts at rest. */
  function SlopeBefore(n: nat, i: nat): real
    requires 1 <= i <= n
  {
    if i == 1 then 0.0 else Slope(n, i - 1)
  }

  lemma SlopeJump(n: nat, i: nat)
    requires 1 <= i <= n
    ensures -6.0 <= (Slope(n, i) - SlopeBefore(n, i)) * n as real <= 6.0
  {
    hide Slope;
    Grid(n, i);
    if i == 1 {
      FirstSlope(n);
    } else {
      SlopeChange(n, i);
    }
  }

  lemma PreviousVelocityValue(start: JointVector, target: JointVector, duration: real, n: nat, i: nat, j: nat)
    requires duration > 0.0 && 1 <= i <= n && j < JOINT_COUNT
    ensures var u := PreviousVelocity(start, Points(start, target, duration, n), i);
      u.Finite? && u.v[j] * duration == SlopeBefore(n, i) * Minus(target, start)[j]
  {
    hide Slope, Points, VelocityAt, Minus;
    if i == 1 {
      FirstVelocity(start, target, duration, n);
    } else {
      VelocityValue(start, target, duration, n, i - 1, j);
    }
  }

  /** The finite-difference acceleration is the second difference of the cubic. */
  lemma AccelerationValue(start: JointVector, target: JointVector, duration: real, n: nat, i: nat, j: nat)
    returns (r: real)
    requires duration > 0.0 && 1 <= i <= n && j < JOINT_COUNT
    ensures var a := AccelerationAt(start, Points(start, target, duration, n), i);
      a.Finite? && r == a.v[j] * duration
    ensures r * duration == (Slope(n, i) - SlopeBefore(n, i)) * n as real * Minus(target, start)[j]
  {
    hide Slope, SlopeBefore, Points, VelocityAt, PreviousVelocity, Minus;
    var ps := Points(start, target, duration, n);
    TimeChange(start, target, duration, n, i);
    VelocityValue(start, target, duration, n, i, j);
    PreviousVelocityValue(start, target, duration, n, i, j);
    var dt := ps[i].time - ps[i - 1].time;
    var v, u := VelocityAt(start, ps, i).v, PreviousVelocity(start, ps, i).v;
    var a := AccelerationAt(start, ps, i).v[j];
    var w := Minus(v, u)[j];
    QuotientTimes(Minus(v, u), dt, j, a);
    MinusAt(v, u, j);
    Rescale(a, w, dt, n as real, duration);
    r := a * duration;
    AccelerationAlgebra(r, w, v[j], u[j], Slope(n, i), SlopeBefore(n, i), Minus(target, start)[j], n as real, duration);
  }

  lemma QuotientTimes(v: JointVector, dt: real, j: nat, q: real)
    requires dt > 0.0 && j < JOINT_COUNT && q == DividedBy(v, dt)[j]
    ensures q * dt == v[j]
  {
  }

  lemma AccelerationAlgebra(r: real, w: real, v: real, u: real, slope: real, before: real, d: real, m: real, t: real)
    requires r == w * m && w == v - u && v * t == slope * d && u * t == before * d
    ensures r * t == (slope - before) * m * d
  {
    assert (w * m) * t == (w * t) * m;
    assert w * t == v * t - u * t;
    assert (slope * d - before * d) * m == (slope - before) * m * d;
  }

  // ---------------------------------------------------------------------------------------------
  // The refinement
  // ---------------------------------------------------------------------------------------------

  /** The limits the analytic extrema of a point-to-point motion must fit. */
  predicate ExtremaFit(policy: Policy, start: JointVector, target: JointVector, duration: real, n: nat)
    requires duration > 0.0 && n > 0
  {
    var largest := MaxAbs(Minus(target, start));
    && (forall j | 0 <= j < JOINT_COUNT :: PeakVelocity(largest, duration) <= policy.maxVelocity[j] + SLACK)
    && (forall j | 0 <= j < JOINT_COUNT :: PeakAcceleration(largest, duration) <= policy.maxAcceleration[j] + SLACK)
    && PeakVelocity(largest, n as real) <= policy.maxStep + SLACK
  }

  lemma ProductBound(p: real, k: real, d: real, bound: real, largest: real)
    requires p == k * d && Abs(k) <= bound && Abs(d) <= largest
    ensures Abs(p) <= bound * largest
  {
    AbsProduct(k, d);
    Monotone(Abs(k), Abs(d), largest);
    Monotone(largest, Abs(k), bound);
  }

  /** A quantity whose product with the duration is k times a displacement, with k at most one and
      a half, is at most the peak velocity; likewise for the peak acceleration. */
  lemma VelocityBound(q: real, k: real, d: real, t: real, largest: real)
    requires t > 0.0 && q * t == k * d && Abs(k) <= 1.5 && Abs(d) <= largest
    ensures Abs(q) <= PeakVelocity(largest, t)
  {
    hide PeakVelocity;
    ProductBound(q * t, k, d, 1.5, largest);
    AbsProduct(q, t);
    PeakVelocityTimesDuration(largest, t);
    CancelLeq(Abs(q), PeakVelocity(largest, t), t);
  }

  lemma AccelerationBound(q: real, r: real, k: real, d: real, t: real, largest: real)
    requires t > 0.0 && r == q * t && r * t == k * d && Abs(k) <= 6.0 && Abs(d) <= largest
    ensures Abs(q) <= PeakAcceleration(largest, t)
  {
    hide PeakAcceleration;
    ProductBound(r * t, k, d, 6.0, largest);
    AbsProduct(r, t);
    AbsProduct(q, t);
    var peak := PeakAccelerationTimesDuration(largest, t);
    CancelLeq(Abs(r), peak, t);
    CancelLeq(Abs(q), PeakAcceleration(largest, t), t);
  }

  lemma PeaksAreNonNegative(largest: real, t: real)
    requires largest >= 0.0 && t > 0.0
    ensures 0.0 <= PeakVelocity(largest, t) && 0.0 <= PeakAcceleration(largest, t)
  {
    VelocityBound(0.0, 0.0, 0.0, t, largest);
    AccelerationBound(0.0, 0.0, 0.0, 0.0, t, largest);
  }

  lemma PeakVelocityTimesDuration(largest: real, t: real)
    requires t > 0.0
    ensures PeakVelocity(largest, t) * t == 1.5 * largest
  {
  }

  lemma PeakAccelerationTimesDuration(largest: real, t: real) returns (peak: real)
    requires t > 0.0
    ensures peak == PeakAcceleration(largest, t) * t && peak * t == 6.0 * largest
  {
    peak := PeakAcceleration(largest, t) * t;
  }

  lemma CancelLeq(a: real, b: real, t: real)
    requires t > 0.0 && a * t <= b * t
    ensures a <= b
  {
    assert a > b ==> (a - b) * t > 0.0;
  }

  lemma PositionsFit(policy: Policy, start: JointVector, target: JointVector, duration: real, n: nat, i: nat)
    requires duration > 0.0 && n > 0 && i <= n
    requires InsideLimits(policy, start) && InsideLimits(policy, target)
    ensures InsideLimits(policy, Points(start, target, duration, n)[i].position)
  {
    hide Cubic, Points, Minus;
    var x := i as real / n as real;
    if i > 0 {
      Grid(n, i);
    }
    CubicRange(x);
    forall j | 0 <= j < JOINT_COUNT
      ensures Lower(policy, j) <= Points(start, target, duration, n)[i].position[j] <= Upper(policy, j)
    {
      PointIs(start, target, duration, n, i, j);
      MinusAt(target, start, j);
      Between(start[j], target[j], Minus(target, start)[j], Cubic(x), Lower(policy, j), Upper(policy, j));
    }
  }

  lemma Between(a: real, b: real, d: real, c: real, low: real, high: real)
    requires low <= a <= high && low <= b <= high && 0.0 <= c <= 1.0 && d == b - a
    ensures low <= a + c * d <= high
  {
    FractionOf(c, d, c * d);
  }

  /** A fraction of a displacement lies between nothing and all of it. */
  lemma FractionOf(c: real, d: real, p: real)
    requires 0.0 <= c <= 1.0 && p == c * d
    ensures if d >= 0.0 then 0.0 <= p <= d else d <= p <= 0.0
  {
    if d >= 0.0 {
      NonnegativeProduct(c, d, p);
      NonnegativeProduct(1.0 - c, d, d - p);
    } else {
      NonnegativeProduct(c, -d, -p);
      NonnegativeProduct(1.0 - c, -d, p - d);
    }
  }

  lemma StepsFit(policy: Policy, start: JointVector, target: JointVector, duration: real, n: nat, i: nat)
    requires duration > 0.0 && n > 0 && i <= n && ExtremaFit(policy, start, target, duration, n)
    ensures var ps := Points(start, target, duration, n);
      StepFits(policy, Minus(ps[i].position, PreviousPosition(start, ps, i)))
  {
    hide Points, Minus, Slope, PeakVelocity, PeakAcceleration, VelocityAt;
    var ps, largest := Points(start, target, duration, n), MaxAbs(Minus(target, start));
    var delta := Minus(ps[i].position, PreviousPosition(start, ps, i));
    forall j | 0 <= j < JOINT_COUNT
      ensures Abs(delta[j]) <= PeakVelocity(largest, n as real)
    {
      if i == 0 {
        FirstVelocity(start, target, duration, n);
        MinusAt(start, start, j);
        PeaksAreNonNegative(largest, n as real);
      } else {
        PositionChange(start, target, duration, n, i, j);
        SlopeBound(n, i);
        VelocityBound(delta[j], Slope(n, i), Minus(target, start)[j], n as real, largest);
      }
    }
  }

  lemma VelocitiesFit(policy: Policy, start: JointVector, target: JointVector, duration: real, n: nat, i: nat)
    requires duration > 0.0 && n > 0 && i <= n && ExtremaFit(policy, start, target, duration, n)
    ensures RateFits(VelocityAt(start, Points(start, target, duration, n), i), policy.maxVelocity)
  {
    hide Points, Minus, Slope, VelocityAt, PeakVelocity, PeakAcceleration;
    var ps, largest := Points(start, target, duration, n), MaxAbs(Minus(target, start));
    var v := VelocityAt(start, ps, i);
    if i == 0 {
      FirstVelocity(start, target, duration, n);
      PeaksAreNonNegative(largest, duration);
    } else {
      VelocityValue(start, target, duration, n, i, 0);
      forall j | 0 <= j < JOINT_COUNT
        ensures Abs(v.v[j]) <= PeakVelocity(largest, duration)
      {
        VelocityValue(start, target, duration, n, i, j);
        SlopeBound(n, i);
        VelocityBound(v.v[j], Slope(n, i), Minus(target, start)[j], duration, largest);
      }
    }
  }

  lemma AccelerationsFit(policy: Policy, start: JointVector, target: JointVector, duration: real, n: nat, i: nat)
    requires duration > 0.0 && n > 0 && i <= n && ExtremaFit(policy, start, target, duration, n)
    ensures RateFits(AccelerationAt(start, Points(start, target, duration, n), i), policy.maxAcceleration)
  {
    hide Points, Minus, PeakVelocity, PeakAcceleration;
    var ps, largest := Points(start, target, duration, n), MaxAbs(Minus(target, start));
    if i == 0 {
      FirstVelocity(start, target, duration, n);
      assert PreviousTime(ps, 0) == 0.0;
      ZeroMinusZero();
      PeaksAreNonNegative(largest, duration);
      assert AccelerationAt(start, ps, 0) == Finite(ZERO);
    } else {
      hide AccelerationAt;
      var a := AccelerationAt(start, ps, i);
      forall j | 0 <= j < JOINT_COUNT
        ensures a.Finite? && Abs(a.v[j]) <= PeakAcceleration(largest, duration)
      {
        AccelerationJointFits(start, target, duration, n, i, j);
      }
      assert a.Finite? by {
        AccelerationJointFits(start, target, duration, n, i, 0);
      }
      assert forall j | 0 <= j < JOINT_COUNT :: Abs(a.v[j]) <= PeakAcceleration(largest, duration);
      assert RateFits(a, policy.maxAcceleration);
    }
  }

  lemma AccelerationJointFits(start: JointVector, target: JointVector, duration: real, n: nat, i: nat, j: nat)
    requires duration > 0.0 && 1 <= i <= n && j < JOINT_COUNT
    ensures var a := AccelerationAt(start, Points(start, target, duration, n), i);
      a.Finite? && Abs(a.v[j]) <= PeakAcceleration(MaxAbs(Minus(target, start)), duration)
  {
    hide Points, Minus, Slope, SlopeBefore, AccelerationAt, PeakAcceleration;
    var a := AccelerationAt(start, Points(start, target, duration, n), i);
    var r := AccelerationValue(start, target, duration, n, i, j);
    SlopeJump(n, i);
    AccelerationBound(a.v[j], r, (Slope(n, i) - SlopeBefore(n, i)) * n as real, Minus(target, start)[j],
                      duration, MaxAbs(Minus(target, start)));
  }

  lemma ZeroMinusZero()
    ensures Minus(ZERO, ZERO) == ZERO
    ensures MaxAbs(Minus(ZERO, ZERO)) == 0.0
  {
    assert Minus(ZERO, ZERO) == ZERO;
  }

  lemma ScaleValues(x: real, duration: real, d: real)
    returns (v: real, a: real, r: real)
    requires duration > 0.0 && 0.0 <= x <= 1.0
    ensures v == VelocityScale(x, duration) * d && v * duration == (6.0 * x - 6.0 * (x * x)) * d
    ensures a == AccelerationScale(x, duration) * d && r == a * duration && r * duration == (6.0 - 12.0 * x) * d
    ensures 0.0 <= 6.0 * x - 6.0 * (x * x) <= 1.5
  {
    v, a := VelocityScale(x, duration) * d, AccelerationScale(x, duration) * d;
    r := a * duration;
    var vs, as_ := VelocityScale(x, duration), AccelerationScale(x, duration);
    assert vs * duration == 6.0 * x - 6.0 * (x * x);
    assert as_ * duration * duration == 6.0 - 12.0 * x;
    assert v * duration == (vs * duration) * d;
    assert r * duration == (as_ * duration * duration) * d;
    NonnegativeProduct(x, 1.0 - x, x * (1.0 - x));
    Square(x - 0.5);
  }

  lemma ScaleBounds(x: real, duration: real, d: real, largest: real)
    requires duration > 0.0 && 0.0 <= x <= 1.0 && Abs(d) <= largest
    ensures Abs(VelocityScale(x, duration) * d) <= PeakVelocity(largest, duration)
    ensures Abs(AccelerationScale(x, duration) * d) <= PeakAcceleration(largest, duration)
  {
    hide VelocityScale, AccelerationScale, PeakVelocity, PeakAcceleration;
    var v, a, r := ScaleValues(x, duration, d);
    VelocityBound(v, 6.0 * x - 6.0 * (x * x), d, duration, largest);
    AccelerationBound(a, r, 6.0 - 12.0 * x, d, duration, largest);
  }

  lemma ScaledFits(x: real, duration: real, d: JointVector, j: nat)
    requires duration > 0.0 && 0.0 <= x <= 1.0 && j < JOINT_COUNT
    ensures Abs(Scaled(d, VelocityScale(x, duration))[j]) <= PeakVelocity(MaxAbs(d), duration)
    ensures Abs(Scaled(d, AccelerationScale(x, duration))[j]) <= PeakAcceleration(MaxAbs(d), duration)
  {
    hide VelocityScale, AccelerationScale, PeakVelocity, PeakAcceleration;
    ScaleBounds(x, duration, d[j], MaxAbs(d));
  }

  lemma ProvidedRatesFit(policy: Policy, start: JointVector, target: JointVector, duration: real, n: nat, i: nat)
    requires duration > 0.0 && n > 0 && i <= n && ExtremaFit(policy, start, target, duration, n)
    ensures var p := Points(start, target, duration, n)[i];
      ProvidedFits(p.velocity, policy.maxVelocity) && ProvidedFits(p.acceleration, policy.maxAcceleration)
  {
    hide Minus, Cubic, VelocityScale, AccelerationScale, PeakVelocity, PeakAcceleration, Along, Scaled;
    var x, d := i as real / n as real, Minus(target, start);
    if i > 0 {
      Grid(n, i);
    }
    forall j | 0 <= j < JOINT_COUNT
      ensures Abs(Scaled(d, VelocityScale(x, duration))[j]) <= PeakVelocity(MaxAbs(d), duration)
      ensures Abs(Scaled(d, AccelerationScale(x, duration))[j]) <= PeakAcceleration(MaxAbs(d), duration)
    {
      ScaledFits(x, duration, d, j);
    }
  }

  lemma TimesFit(start: JointVector, target: JointVector, duration: real, n: nat, i: nat)
    requires duration > 0.0 && n > 0 && i <= n
    ensures TimeOk(Points(start, target, duration, n), i)
  {
    hide Points;
    if i == 0 {
      FirstVelocity(start, target, duration, n);
    } else {
      TimeChange(start, target, duration, n, i);
    }
  }

  /** Whenever the analytic extrema fit the limits, every finite-difference check passes at every
      point, for every number of intervals: only the budgets and the workspace samples can still
      reject a generated trajectory. */
  lemma {:induction false} GeneratedMotionIsSafe(policy: Policy, kin: Kinematics, start: JointVector, target: JointVector,
                              duration: real, n: nat)
    requires policy.Valid() && duration > 0.0 && n > 0
    requires InsideLimits(policy, start) && InsideLimits(policy, target)
    requires ExtremaFit(policy, start, target, duration, n)
    ensures var ps := Points(start, target, duration, n);
      && (forall k | 0 <= k <= n :: TimeOk(ps, k) && MotionFits(policy, start, ps, k))
      && (Safe(policy, kin, start, ps) <==>
            n + 1 <= policy.maxPoints && TotalSamples(policy, start, ps) <= policy.maxSamples
            && forall k | 0 <= k <= n :: SegmentFits(policy, kin, PreviousPosition(start, ps, k), ps[k].position))
  {
    hide InsideLimits, StepFits, RateFits, ProvidedFits, VelocityAt, AccelerationAt, SegmentFits, Minus, PointAt,
      ExtremaFit, TotalSamples;
    var ps := Points(start, target, duration, n);
    forall k | 0 <= k <= n
      ensures TimeOk(ps, k) && MotionFits(policy, start, ps, k)
    {
      TimesFit(start, target, duration, n, k);
      PositionsFit(policy, start, target, duration, n, k);
      StepsFit(policy, start, target, duration, n, k);
      VelocitiesFit(policy, start, target, duration, n, k);
      AccelerationsFit(policy, start, target, duration, n, k);
      ProvidedRatesFit(policy, start, target, duration, n, k);
    }
    if Safe(policy, kin, start, ps) {
      forall k | 0 <= k <= n
        ensures SegmentFits(policy, kin, PreviousPosition(start, ps, k), ps[k].position)
      {
        assert SafeAt(policy, kin, start, ps, k);
      }
    }
  }

  /** A generated motion runs from the start to the target in exactly the duration, at rest at both ends. */
  lemma GeneratedEndpoints(start: JointVector, target: JointVector, duration: real, n: nat)
    requires duration > 0.0 && n > 0
    ensures var ps := Points(start, target, duration, n);
      && ps[0].position == start && ps[0].time == 0.0 && ps[0].velocity == Some(ZERO)
      && ps[n].position == target && ps[n].time == duration && ps[n].velocity == Some(ZERO)
  {
    assert Cubic(0.0) == 0.0 && Cubic(1.0) == 1.0;
    assert VelocityScale(0.0, duration) == 0.0 && VelocityScale(1.0, duration) == 0.0;
    EndpointVectors(start, target);
    assert n as real / n as real == 1.0;
  }

  lemma EndpointVectors(start: JointVector, target: JointVector)
    ensures Along(start, target, 0.0) == start && Along(start, target, 1.0) == target
    ensures Scaled(Minus(target, start), 0.0) == ZERO
  {
    assert Along(start, target, 0.0) == start;
    assert Along(start, target, 1.0) == target;
    assert Scaled(Minus(target, start), 0.0) == ZERO;
  }
}
