/**
 The network-observation metrics (network_metrics.py): fields updated one message at a time, proved
 equal to folds over the whole history, and the percentiles of a snapshot.
 */
module NetworkMetrics {
  import opened Prelude

  datatype Observation = Observation(receive: real, ros: real, stamp: Option<real>, size: int)

  // ---------------------------------------------------------------------------------------------
  // Folds over the history
  // ---------------------------------------------------------------------------------------------

  function Gap(history: seq<Observation>, i: nat): real
    requires 0 < i < |history|
  {
    Max(0.0, history[i].receive - history[i - 1].receive)
  }

  /** The largest gap between neighbours, zero without any. */
  function LargestGap(history: seq<Observation>): real {
    if |history| < 2 then 0.0 else Max(LargestGap(history[..|history| - 1]), Gap(history, |history| - 1))
  }

  function CountGaps(history: seq<Observation>, limit: real): nat {
    if |history| < 2 then 0
    else CountGaps(history[..|history| - 1], limit) + (if Gap(history, |history| - 1) > limit then 1 else 0)
  }

  /** The largest gap above the limit, zero without any. */
  function LargestReconnect(history: seq<Observation>, limit: real): real {
    if |history| < 2 then 0.0
    else
      var (before, gap) := (LargestReconnect(history[..|history| - 1], limit), Gap(history, |history| - 1));
      if gap > limit then Max(before, gap) else before
  }

  function TotalSize(history: seq<Observation>): int {
    if history == [] then 0 else TotalSize(history[..|history| - 1]) + history[|history| - 1].size
  }

  function Times(history: seq<Observation>): seq<real> {
    seq(|history|, i requires 0 <= i < |history| => history[i].receive)
  }

  predicate Stamped(o: Observation) {
    o.stamp.Some? && o.stamp.value > 0.0
  }

  function Offset(o: Observation): real
    requires o.stamp.Some?
  {
    (o.ros - o.stamp.value) * 1000.0
  }

  function Ages(history: seq<Observation>): seq<real> {
    if history == [] then []
    else
      var last := history[|history| - 1];
      Ages(history[..|history| - 1]) + (if Stamped(last) then [Max(0.0, Offset(last))] else [])
  }

  function Skews(history: seq<Observation>): seq<real> {
    if history == [] then []
    else
      var last := history[|history| - 1];
      Skews(history[..|history| - 1]) + (if Stamped(last) then [Abs(Offset(last))] else [])
  }

  /** What a bounded deque holds of a longer sequence. */
  function LastOf(s: seq<real>, n: nat): seq<real> {
    if |s| <= n then s else s[|s| - n..]
  }

  /** Append to a bounded deque. */
  function Push(window: seq<real>, n: nat, x: real): seq<real> {
    LastOf(window + [x], n)
  }

  lemma PushKeepsLast(s: seq<real>, n: nat, x: real)
    requires n > 0
    ensures Push(LastOf(s, n), n, x) == LastOf(s + [x], n)
  {
  }

  /** The silence before message i, in plain terms. */
  function Silence(history: seq<Observation>, i: nat): real
    requires 0 < i < |history|
  {
    if history[i].receive > history[i - 1].receive then history[i].receive - history[i - 1].receive else 0.0
  }

  lemma SilenceIsGap(history: seq<Observation>)
    ensures forall i | 0 < i < |history| :: Gap(history, i) == Silence(history, i)
    ensures history != [] ==>
      forall i | 0 < i < |history| - 1 :: Silence(history[..|history| - 1], i) == Silence(history, i)
  {
  }

  /** The largest gap bounds every silence and is one of them, or zero. */
  lemma {:induction false} LargestGapMeans(history: seq<Observation>)
    ensures forall i | 0 < i < |history| :: Silence(history, i) <= LargestGap(history)
    ensures LargestGap(history) == 0.0 || exists i :: 0 < i < |history| && Silence(history, i) == LargestGap(history)
    ensures LargestGap(history) >= 0.0
  {
    if |history| >= 2 {
      var n := |history| - 1;
      SilenceIsGap(history);
      LargestGapMeans(history[..n]);
      hide Gap, Silence;
      if LargestGap(history[..n]) != 0.0 {
        var i :| 0 < i < n && Silence(history[..n], i) == LargestGap(history[..n]);
        assert Silence(history, i) == LargestGap(history[..n]);
      }
    }
  }

  /** The messages after a silence above the limit. */
  ghost function LongSilences(history: seq<Observation>, limit: real): set<int> {
    set i | 0 < i < |history| && Silence(history, i) > limit
  }

  /** The count is the number of these messages. */
  lemma {:induction false} CountMeans(history: seq<Observation>, limit: real)
    ensures CountGaps(history, limit) == |LongSilences(history, limit)|
  {
    if |history| >= 2 {
      var n := |history| - 1;
      SilenceIsGap(history);
      CountMeans(history[..n], limit);
      hide Gap, Silence;
      assert LongSilences(history, limit)
          == LongSilences(history[..n], limit) + (if Silence(history, n) > limit then {n} else {});
    } else {
      assert LongSilences(history, limit) == {};
    }
  }

  /** The reconnect maximum bounds the silences above the limit and is one of them, or zero. */
  lemma {:induction false} LargestReconnectMeans(history: seq<Observation>, limit: real)
    requires limit > 0.0
    ensures forall i | i in LongSilences(history, limit) :: Silence(history, i) <= LargestReconnect(history, limit)
    ensures LargestReconnect(history, limit) == 0.0
      || exists i :: i in LongSilences(history, limit) && Silence(history, i) == LargestReconnect(history, limit)
    ensures LargestReconnect(history, limit) >= 0.0
  {
    if |history| >= 2 {
      var n := |history| - 1;
      SilenceIsGap(history);
      LargestReconnectMeans(history[..n], limit);
      hide Gap, Silence;
      forall i | i in LongSilences(history, limit)
        ensures i == n || i in LongSilences(history[..n], limit)
      {
      }
      if LargestReconnect(history[..n], limit) != 0.0 {
        var i :| i in LongSilences(history[..n], limit) && Silence(history[..n], i) == LargestReconnect(history[..n], limit);
        assert i in LongSilences(history, limit) && Silence(history, i) == LargestReconnect(history[..n], limit);
      }
    }
  }

  lemma {:induction false} GapBounds(history: seq<Observation>, limit: real, i: nat)
    requires 0 < i < |history| && limit > 0.0
    ensures Gap(history, i) <= LargestGap(history)
    ensures Gap(history, i) > limit ==> Gap(history, i) <= LargestReconnect(history, limit) && CountGaps(history, limit) > 0
  {
    if i < |history| - 1 {
      GapBounds(history[..|history| - 1], limit, i);
    }
  }

  /** The reconnect maximum is one of the gaps, so never above the gap maximum, and it is zero exactly
      when no gap was long enough. */
  lemma {:induction false} ReconnectIsAGap(history: seq<Observation>, limit: real)
    requires limit > 0.0
    ensures 0.0 <= LargestReconnect(history, limit) <= LargestGap(history)
    ensures LargestReconnect(history, limit) == 0.0 <==> CountGaps(history, limit) == 0
  {
    if |history| >= 2 {
      ReconnectIsAGap(history[..|history| - 1], limit);
    }
  }

  // ---------------------------------------------------------------------------------------------
  // Percentiles
  // ---------------------------------------------------------------------------------------------

  predicate Ascending(s: seq<real>) {
    forall i, j | 0 <= i < j < |s| :: s[i] <= s[j]
  }

  function Insert(x: real, s: seq<real>): (r: seq<real>)
    requires Ascending(s)
    ensures Ascending(r) && |r| == |s| + 1
    ensures forall y | y in r :: y == x || y in s
  {
    if s == [] || x <= s[0] then [x] + s
    else
      var rest := Insert(x, s[1..]);
      assert forall k | 0 <= k < |rest| :: s[0] <= rest[k] by {
        forall k | 0 <= k < |rest|
          ensures s[0] <= rest[k]
        {
          assert rest[k] in rest;
        }
      }
      [s[0]] + rest
  }

  lemma {:induction false} InsertAdds(x: real, s: seq<real>)
    requires Ascending(s)
    ensures multiset(Insert(x, s)) == multiset(s) + multiset{x}
  {
    if s != [] && x > s[0] {
      InsertAdds(x, s[1..]);
      assert s == [s[0]] + s[1..];
    }
  }

  function Sorted(s: seq<real>): (r: seq<real>)
    ensures Ascending(r) && |r| == |s|
  {
    if s == [] then [] else Insert(s[|s| - 1], Sorted(s[..|s| - 1]))
  }

  lemma {:induction false} SortedPermutes(s: seq<real>)
    ensures multiset(Sorted(s)) == multiset(s)
  {
    if s != [] {
      SortedPermutes(s[..|s| - 1]);
      InsertAdds(s[|s| - 1], Sorted(s[..|s| - 1]));
      assert s == s[..|s| - 1] + [s[|s| - 1]];
    }
  }

  /** Linear interpolation at a fractional rank. */
  function AtRank(ordered: seq<real>, rank: real): real
    requires 0.0 <= rank <= |ordered| as real - 1.0
  {
    var lower, upper := rank.Floor, Ceil(rank);
    if lower == upper then ordered[lower]
    else
      var fraction := rank - lower as real;
      ordered[lower] * (1.0 - fraction) + ordered[upper] * fraction
  }

  function Rank(n: nat, percentile: real): (rank: real)
    requires n >= 1 && 0.0 <= percentile <= 100.0
    ensures 0.0 <= rank <= n as real - 1.0
  {
    var m := (n - 1) as real;
    assert m * percentile <= m * 100.0;
    m * percentile / 100.0
  }

  /** None is the NaN of an empty window. */
  function Percentile(values: seq<real>, percentile: real): Option<real>
    requires 0.0 <= percentile <= 100.0
  {
    if values == [] then None
    else
      var ordered := Sorted(values);
      if |ordered| == 1 then Some(ordered[0]) else Some(AtRank(ordered, Rank(|ordered|, percentile)))
  }

  lemma Between(a: real, b: real, f: real)
    requires a <= b && 0.0 <= f <= 1.0
    ensures a <= a * (1.0 - f) + b * f <= b
  {
    var d, e, v := b - a, 1.0 - f, a * (1.0 - f) + b * f;
    assert v == a + d * f && d * f >= 0.0;
    assert b - v == d * e && d * e >= 0.0;
  }

  lemma Steeper(a: real, b: real, f: real, g: real)
    requires a <= b && f <= g
    ensures a * (1.0 - f) + b * f <= a * (1.0 - g) + b * g
  {
    var d, e := b - a, g - f;
    assert a * (1.0 - g) + b * g - (a * (1.0 - f) + b * f) == d * e;
    assert d * e >= 0.0;
  }

  /** Interpolation stays between the neighbours of the rank. */
  lemma RankBetween(ordered: seq<real>, rank: real)
    requires Ascending(ordered) && 0.0 <= rank <= |ordered| as real - 1.0
    ensures ordered[rank.Floor] <= AtRank(ordered, rank) <= ordered[Ceil(rank)]
  {
    if rank.Floor != Ceil(rank) {
      Between(ordered[rank.Floor], ordered[Ceil(rank)], rank - rank.Floor as real);
    }
  }

  /** Interpolation is monotone in the rank. */
  lemma RankMonotone(ordered: seq<real>, r: real, s: real)
    requires Ascending(ordered) && 0.0 <= r <= s <= |ordered| as real - 1.0
    ensures AtRank(ordered, r) <= AtRank(ordered, s)
  {
    RankBetween(ordered, r);
    RankBetween(ordered, s);
    if r.Floor == s.Floor {
      if r.Floor as real < r {
        assert Ceil(r) == r.Floor + 1 && Ceil(s) == r.Floor + 1;
        Steeper(ordered[r.Floor], ordered[Ceil(r)], r - r.Floor as real, s - s.Floor as real);
      }
    } else {
      assert Ceil(r) <= s.Floor;
    }
  }

  lemma RankOrder(n: nat, p: real, q: real)
    requires n >= 1 && 0.0 <= p <= q <= 100.0
    ensures Rank(n, p) <= Rank(n, q)
  {
    var m, d := (n - 1) as real, q - p;
    assert m * q - m * p == m * d && m * d >= 0.0;
  }

  lemma {:induction false} OrderedPercentiles(values: seq<real>, p: real, q: real)
    requires values != [] && 0.0 <= p <= q <= 100.0
    ensures Percentile(values, p).Some? && Percentile(values, q).Some?
    ensures var ordered := Sorted(values);
      ordered[0] <= Percentile(values, p).value <= Percentile(values, q).value <= ordered[|ordered| - 1]
  {
    hide AtRank, Sorted, Rank;
    var ordered := Sorted(values);
    var n := |ordered|;
    if n > 1 {
      RankOrder(n, p, q);
      RankMonotone(ordered, Rank(n, p), Rank(n, q));
      RankBetween(ordered, Rank(n, p));
      RankBetween(ordered, Rank(n, q));
    }
  }

  lemma Ends(values: seq<real>) returns (lo: real, hi: real)
    requires values != []
    ensures lo == Sorted(values)[0] && hi == Sorted(values)[|values| - 1]
    ensures lo in values && hi in values && forall v | v in values :: lo <= v <= hi
  {
    hide Sorted;
    SortedPermutes(values);
    var ordered := Sorted(values);
    SameMembers(values, ordered);
    lo, hi := ordered[0], ordered[|ordered| - 1];
    forall v | v in values
      ensures lo <= v <= hi
    {
      var k :| 0 <= k < |ordered| && ordered[k] == v;
    }
  }

  /** Two ascending sequences of the same values are equal. */
  lemma {:induction false} SortedOnce(a: seq<real>, b: seq<real>)
    requires Ascending(a) && Ascending(b) && multiset(a) == multiset(b)
    ensures a == b
  {
    SameLength(a, b);
    if a != [] {
      LastIsGreatest(a, b);
      LastIsGreatest(b, a);
      WithoutLast(a);
      WithoutLast(b);
      SortedOnce(a[..|a| - 1], b[..|b| - 1]);
    }
  }

  lemma WithoutLast(a: seq<real>)
    requires a != []
    ensures a == a[..|a| - 1] + [a[|a| - 1]] && multiset(a[..|a| - 1]) == multiset(a) - multiset{a[|a| - 1]}
  {
    var n := |a| - 1;
    assert a == a[..n] + [a[n]];
    assert multiset(a) == multiset(a[..n]) + multiset{a[n]};
  }

  lemma LastIsGreatest(a: seq<real>, b: seq<real>)
    requires a != [] && |a| == |b| && Ascending(b) && multiset(a) == multiset(b)
    ensures a[|a| - 1] <= b[|b| - 1]
  {
    SameMembers(a, b);
    assert a[|a| - 1] in a;
    var k :| 0 <= k < |b| && b[k] == a[|a| - 1];
  }

  lemma SameLength(a: seq<real>, b: seq<real>)
    requires multiset(a) == multiset(b)
    ensures |a| == |b|
  {
    assert |multiset(a)| == |a| && |multiset(b)| == |b|;
  }

  /** Over the values in ascending order the percentile moves evenly from one value to the next: where the
      percentage is (i + f) / (n - 1) of a hundred, it lies at the share f between value i and the next. */
  lemma PercentileInterpolates(values: seq<real>, ordered: seq<real>, percentile: real, i: nat, f: real)
    requires |values| >= 2 && 0.0 <= percentile <= 100.0
    requires (forall j, k | 0 <= j < k < |ordered| :: ordered[j] <= ordered[k]) && multiset(ordered) == multiset(values)
    requires i + 1 < |values| && 0.0 <= f <= 1.0 && (i as real + f) * 100.0 == (|values| - 1) as real * percentile
    ensures |ordered| == |values| && Percentile(values, percentile) == Some(ordered[i] + f * (ordered[i + 1] - ordered[i]))
  {
    SortedPermutes(values);
    SortedOnce(Sorted(values), ordered);
    SameLength(ordered, values);
    hide Sorted;
    var rank := Rank(|values|, percentile);
    assert rank == i as real + f;
    BetweenNeighbours(ordered, rank, i, f);
  }

  lemma BetweenNeighbours(ordered: seq<real>, rank: real, i: nat, f: real)
    requires i + 1 < |ordered| && 0.0 <= f <= 1.0 && rank == i as real + f
    ensures AtRank(ordered, rank) == ordered[i] + f * (ordered[i + 1] - ordered[i])
  {
    if f == 1.0 {
      assert rank.Floor == i + 1;
    } else {
      assert rank.Floor == i;
    }
  }

  /** The median of two values is their mean. */
  lemma MedianOfTwo(a: real, b: real)
    ensures Percentile([a, b], 50.0).Some? && Percentile([a, b], 50.0).value == (a + b) / 2.0
  {
    hide Sorted, AtRank, Rank;
    var ordered := if a <= b then [a, b] else [b, a];
    assert multiset(ordered) == multiset([a, b]);
    PercentileInterpolates([a, b], ordered, 50.0, 0, 0.5);
    assert ordered[0] == Min(a, b) && ordered[0 + 1] == Max(a, b);
    HalfWay(a, b);
  }

  lemma HalfWay(a: real, b: real)
    ensures Min(a, b) + 0.5 * (Max(a, b) - Min(a, b)) == (a + b) / 2.0
  {
  }

  /** For any window and any two percentages the percentiles are ordered as the percentages are, and
      lie between the least and the greatest value. */
  lemma PercentileMonotone(values: seq<real>, p: real, q: real)
    requires values != [] && 0.0 <= p <= q <= 100.0
    ensures Percentile(values, p).Some? && Percentile(values, q).Some?
    ensures Percentile(values, p).value <= Percentile(values, q).value
    ensures exists lo, hi :: lo in values && hi in values && (forall v | v in values :: lo <= v <= hi)
              && lo <= Percentile(values, p).value && Percentile(values, q).value <= hi
  {
    hide Percentile, Sorted;
    OrderedPercentiles(values, p, q);
    var lo, hi := Ends(values);
  }

  lemma SameMembers(values: seq<real>, ordered: seq<real>)
    requires multiset(values) == multiset(ordered)
    ensures forall v :: v in values <==> v in ordered
  {
    assert forall v :: v in values <==> v in multiset(values);
    assert forall v :: v in ordered <==> v in multiset(ordered);
  }

  // ---------------------------------------------------------------------------------------------
  // The aggregator
  // ---------------------------------------------------------------------------------------------

  datatype Snapshot = Snapshot(
    sampleCount: nat, discoveryTime: Option<real>, reconnectCount: nat, maximumReconnect: real, effectiveRate: real,
    ageP50: Option<real>, ageP95: Option<real>, ageP99: Option<real>, maximumGap: real, currentSilence: real,
    stale: bool, skewP99: Option<real>, bandwidth: real)

  ghost predicate TotalFields(history: seq<Observation>, count: nat, bytes: int, first: Option<real>) {
    && (forall o | o in history :: o.size >= 0)
    && count == |history| && bytes == TotalSize(history)
    && first == (if history == [] then None else Some(history[0].receive))
  }

  ghost predicate GapFields(history: seq<Observation>, limit: real, last: Option<real>, gap: real, count: nat, reconnect: real) {
    && last == (if history == [] then None else Some(history[|history| - 1].receive))
    && gap == LargestGap(history) && count == CountGaps(history, limit) && reconnect == LargestReconnect(history, limit)
  }

  ghost predicate WindowFields(history: seq<Observation>, n: nat, times: seq<real>, ages: seq<real>, skews: seq<real>) {
    && times == LastOf(Times(history), n)
    && ages == LastOf(Ages(history), n) && skews == LastOf(Skews(history), n)
  }

  /** Messages after the first one in the window, per second since it. */
  predicate RateMeans(times: seq<real>, now: real, rate: real) {
    if |times| >= 2 && now > times[0] then rate * (now - times[0]) == (|times| - 1) as real else rate == 0.0
  }

  /** Megabits per second of the run. */
  predicate BandwidthMeans(bytes: int, run: real, bandwidth: real) {
    if run > 0.0 then bandwidth * 1000000.0 * run == bytes as real * 8.0 else bandwidth == 0.0
  }

  lemma QuotientMeans(a: real, b: real, q: real)
    requires b > 0.0 && q == a / b
    ensures q * b == a
  {
  }

  lemma WindowRate(times: seq<real>, now: real, window: real, rate: real)
    requires window == if |times| >= 2 then Max(0.0, now - times[0]) else 0.0
    requires rate == if window > 0.0 then (|times| - 1) as real / window else 0.0
    ensures RateMeans(times, now, rate) && rate >= 0.0
  {
    if window > 0.0 {
      RateIsNonnegative(window, |times|);
      QuotientMeans((|times| - 1) as real, window, rate);
    }
  }

  lemma RunBandwidth(bytes: int, duration: real, run: real, bandwidth: real)
    requires bytes >= 0 && run == Max(0.0, duration)
    requires bandwidth == if run > 0.0 then bytes as real * 8.0 / run / 1000000.0 else 0.0
    ensures BandwidthMeans(bytes, duration, bandwidth) && bandwidth >= 0.0
  {
    if run > 0.0 {
      BandwidthIsNonnegative(bytes, run);
      QuotientMeans(bytes as real * 8.0, run, bytes as real * 8.0 / run);
    }
  }

  class Aggregator {
    const start: real
    const reconnectGap: real
    const windowSize: nat
    var sampleTimes: seq<real>
    var ages: seq<real>
    var skews: seq<real>
    var sampleCount: nat
    var serializedBytes: int
    var firstSample: Option<real>
    var lastSample: Option<real>
    var maximumGap: real
    var reconnectCount: nat
    var maximumReconnect: real
    ghost var history: seq<Observation>

    /** Every field is the fold over the whole history; the windows hold its last entries. */
    ghost predicate Valid()
      reads this
    {
      && reconnectGap > 0.0 && windowSize >= 2
      && TotalFields(history, sampleCount, serializedBytes, firstSample)
      && GapFields(history, reconnectGap, lastSample, maximumGap, reconnectCount, maximumReconnect)
      && WindowFields(history, windowSize, sampleTimes, ages, skews)
    }

    constructor (start: real, reconnectGap: real, windowSize: nat)
      requires reconnectGap > 0.0 && windowSize >= 2
      ensures Valid() && history == []
    {
      this.start, this.reconnectGap, this.windowSize := start, reconnectGap, windowSize;
      sampleTimes, ages, skews, sampleCount, serializedBytes := [], [], [], 0, 0;
      firstSample, lastSample, maximumGap, reconnectCount, maximumReconnect := None, None, 0.0, 0, 0.0;
      history := [];
    }

    /** Record one message; false is the ValueError for a negative size, which changes nothing. */
    method Observe(receive: real, ros: real, stamp: Option<real>, size: int) returns (ok: bool)
      requires Valid()
      modifies this
      ensures Valid() && ok == (size >= 0)
      ensures history == if ok then old(history) + [Observation(receive, ros, stamp, size)] else old(history)
    {
      hide TotalFields, GapFields, WindowFields, Push;
      if size < 0 {
        return false;
      }
      ghost var o := Observation(receive, ros, stamp, size);
      TotalsFollow(history, sampleCount, serializedBytes, firstSample, o);
      if firstSample.None? {
        firstSample := Some(receive);
      }
      GapsFollow(history, reconnectGap, lastSample, maximumGap, reconnectCount, maximumReconnect, o);
      if lastSample.Some? {
        var gap := Max(0.0, receive - lastSample.value);
        maximumGap := Max(maximumGap, gap);
        if gap > reconnectGap {
          reconnectCount := reconnectCount + 1;
          maximumReconnect := Max(maximumReconnect, gap);
        }
      }
      lastSample := Some(receive);
      WindowsFollow(history, windowSize, sampleTimes, ages, skews, o);
      sampleTimes := Push(sampleTimes, windowSize, receive);
      sampleCount, serializedBytes := sampleCount + 1, serializedBytes + size;
      if stamp.Some? && stamp.value > 0.0 {
        var offset := (ros - stamp.value) * 1000.0;
        ages := Push(ages, windowSize, Max(0.0, offset));
        skews := Push(skews, windowSize, Abs(offset));
      }
      history := history + [o];
      return true;
    }

    /** The rate over the window and the bandwidth over the run: messages after the first in the window
        per second since it, and megabits in all per second since the start. */
    method Rates(now: real) returns (rate: real, bandwidth: real)
      requires Valid()
      ensures 0.0 <= rate && 0.0 <= bandwidth
      ensures RateMeans(sampleTimes, now, rate) && BandwidthMeans(TotalSize(history), now - start, bandwidth)
    {
      SizesAddUp(history);
      assert serializedBytes >= 0;
      hide TotalSize, LastOf, RateMeans, BandwidthMeans;
      var window := if |sampleTimes| >= 2 then Max(0.0, now - sampleTimes[0]) else 0.0;
      rate := if window > 0.0 then (|sampleTimes| - 1) as real / window else 0.0;
      WindowRate(sampleTimes, now, window, rate);
      var run := Max(0.0, now - start);
      bandwidth := if run > 0.0 then serializedBytes as real * 8.0 / run / 1000000.0 else 0.0;
      RunBandwidth(serializedBytes, now - start, run, bandwidth);
    }

    /** A deterministic snapshot: the reconnect maximum never exceeds the gap maximum, and the
        percentiles of the ages are ordered. */
    method TakeSnapshot(now: real) returns (s: Snapshot)
      requires Valid()
      ensures s.sampleCount == |history| && s.reconnectCount == CountGaps(history, reconnectGap)
      ensures 0.0 <= s.maximumReconnect <= s.maximumGap
      ensures s.currentSilence == Max(0.0, now - (if history == [] then start else history[|history| - 1].receive))
      ensures s.maximumGap == Max(LargestGap(history), s.currentSilence)
      ensures s.maximumReconnect == Max(LargestReconnect(history, reconnectGap), if s.stale then s.currentSilence else 0.0)
      ensures s.stale <==> history == [] || s.currentSilence > reconnectGap
      ensures s.ageP50 == Percentile(ages, 50.0) && s.ageP95 == Percentile(ages, 95.0) && s.ageP99 == Percentile(ages, 99.0)
      ensures s.skewP99 == Percentile(skews, 99.0)
      ensures s.ageP50.Some? <==> ages != []
      ensures s.ageP50.Some? ==>
        s.ageP95.Some? && s.ageP99.Some? && s.ageP50.value <= s.ageP95.value <= s.ageP99.value
      ensures s.discoveryTime == if history == [] then None else Some(Max(0.0, history[0].receive - start))
      ensures 0.0 <= s.effectiveRate && RateMeans(sampleTimes, now, s.effectiveRate)
      ensures 0.0 <= s.bandwidth && BandwidthMeans(TotalSize(history), now - start, s.bandwidth)
    {
      ReconnectIsAGap(history, reconnectGap);
      var rate, bandwidth := Rates(now);
      AgePercentiles(ages);
      hide LargestGap, CountGaps, LargestReconnect, TotalSize, Times, Ages, Skews, LastOf, Percentile, RateMeans, BandwidthMeans;
      var discovery := if firstSample.None? then None else Some(Max(0.0, firstSample.value - start));
      var silence := Max(0.0, now - (if lastSample.None? then start else lastSample.value));
      var stale := lastSample.None? || silence > reconnectGap;
      return Snapshot(sampleCount, discovery, reconnectCount, Max(maximumReconnect, if stale then silence else 0.0), rate,
                      Percentile(ages, 50.0), Percentile(ages, 95.0), Percentile(ages, 99.0), Max(maximumGap, silence),
                      silence, stale, Percentile(skews, 99.0), bandwidth);
    }
  }

  lemma AgePercentiles(ages: seq<real>)
    ensures ages == [] <==> Percentile(ages, 50.0).None?
    ensures ages != [] ==>
      && Percentile(ages, 95.0).Some? && Percentile(ages, 99.0).Some?
      && Percentile(ages, 50.0).value <= Percentile(ages, 95.0).value <= Percentile(ages, 99.0).value
  {
    if ages == [] {
      assert Percentile(ages, 50.0).None?;
    } else {
      hide Percentile;
      PercentileMonotone(ages, 50.0, 95.0);
      PercentileMonotone(ages, 95.0, 99.0);
    }
  }

  lemma TotalsFollow(history: seq<Observation>, count: nat, bytes: int, first: Option<real>, o: Observation)
    requires TotalFields(history, count, bytes, first) && o.size >= 0
    ensures TotalFields(history + [o], count + 1, bytes + o.size, if first.None? then Some(o.receive) else first)
  {
    assert (history + [o])[..|history|] == history;
  }

  lemma GapsFollow(history: seq<Observation>, limit: real, last: Option<real>, gap: real, count: nat, reconnect: real,
                   o: Observation)
    requires GapFields(history, limit, last, gap, count, reconnect)
    ensures last.None? ==> GapFields(history + [o], limit, Some(o.receive), gap, count, reconnect)
    ensures last.Some? ==>
      var g := Max(0.0, o.receive - last.value);
      GapFields(history + [o], limit, Some(o.receive), Max(gap, g), if g > limit then count + 1 else count,
                if g > limit then Max(reconnect, g) else reconnect)
  {
    assert (history + [o])[..|history|] == history;
  }

  /** A message with a positive stamp adds its age in milliseconds, not below zero, and its distance from the
      stamp either way; any other message adds neither. */
  lemma {:induction false} AgesFollow(history: seq<Observation>, o: Observation)
    ensures Ages(history + [o]) == Ages(history)
      + (if o.stamp.Some? && o.stamp.value > 0.0 then [Max(0.0, (o.ros - o.stamp.value) * 1000.0)] else [])
    ensures Skews(history + [o]) == Skews(history)
      + (if o.stamp.Some? && o.stamp.value > 0.0 then [Abs((o.ros - o.stamp.value) * 1000.0)] else [])
    ensures Times(history + [o]) == Times(history) + [o.receive]
  {
    assert (history + [o])[..|history|] == history;
  }

  lemma WindowsFollow(history: seq<Observation>, n: nat, times: seq<real>, ages: seq<real>, skews: seq<real>, o: Observation)
    requires n > 0 && WindowFields(history, n, times, ages, skews)
    ensures Stamped(o) ==>
      var offset := (o.ros - o.stamp.value) * 1000.0;
      WindowFields(history + [o], n, Push(times, n, o.receive), Push(ages, n, Max(0.0, offset)), Push(skews, n, Abs(offset)))
    ensures !Stamped(o) ==> WindowFields(history + [o], n, Push(times, n, o.receive), ages, skews)
  {
    AgesFollow(history, o);
    hide LastOf, Push, Ages, Skews, Times, Max, Abs;
    PushKeepsLast(Times(history), n, o.receive);
    if Stamped(o) {
      PushKeepsLast(Ages(history), n, Max(0.0, Offset(o)));
      PushKeepsLast(Skews(history), n, Abs(Offset(o)));
    } else {
      assert Ages(history) + [] == Ages(history) && Skews(history) + [] == Skews(history);
    }
  }

  lemma {:induction false} SizesAddUp(history: seq<Observation>)
    requires forall o | o in history :: o.size >= 0
    ensures TotalSize(history) >= 0
  {
    if history != [] {
      SizesAddUp(history[..|history| - 1]);
    }
  }

  lemma RateIsNonnegative(window: real, n: nat)
    requires window > 0.0 && n >= 1
    ensures (n - 1) as real / window >= 0.0
  {
  }

  lemma BandwidthIsNonnegative(bytes: int, run: real)
    requires bytes >= 0
    ensures run > 0.0 ==> bytes as real * 8.0 / run / 1000000.0 >= 0.0
  {
  }
}
