/** Waiting for absolute deadlines (pycore/src/runtime/scheduler.py). */
module Scheduler {
  import opened Prelude

  /** A monotonic clock that may run on between any two reads, and a sleeper that sleeps at least as
      long as it is asked to. */
  class Clock {
    var time: real

    constructor (start: real)
      ensures time == start
    {
      time := start;
    }

    method Read() returns (now: real)
      modifies this
      ensures now == time && time >= old(time)
    {
      var dt: real := *;
      if dt > 0.0 {
        time := time + dt;
      }
      now := time;
    }

    method Sleep(duration: real)
      modifies this
      ensures time >= old(time) + duration
    {
      var extra: real := *;
      time := time + duration + (if extra > 0.0 then extra else 0.0);
    }
  }

  /** The time that n full polls take. */
  function Span(n: int, poll: real): real {
    n as real * poll
  }

  /** The most polls that fit before a deadline this far away. */
  function MostPolls(remaining: real, poll: real): (n: nat)
    requires poll > 0.0
    ensures remaining > 0.0 ==> n >= 1 && Span(n - 1, poll) < remaining <= Span(n, poll)
    ensures remaining <= 0.0 ==> n == 0
  {
    if remaining <= 0.0 then 0
    else
      var n := Ceil(remaining / poll);
      CeilTimes(remaining, poll, n);
      n
  }

  lemma CeilTimes(remaining: real, poll: real, n: int)
    requires poll > 0.0 && remaining > 0.0 && n == Ceil(remaining / poll)
    ensures n >= 1 && Span(n - 1, poll) < remaining <= Span(n, poll)
  {
    var ratio := remaining / poll;
    assert ratio * poll == remaining;
    assert ratio <= n as real < ratio + 1.0 && (n - 1) as real == n as real - 1.0;
    hide Span;
    SpanIs(n, poll);
    SpanIs(n - 1, poll);
    Ordered(ratio, n as real, poll, remaining, Span(n, poll));
    Strictly((n - 1) as real, ratio, poll, Span(n - 1, poll), remaining);
  }

  lemma SpanIs(n: int, poll: real)
    ensures Span(n, poll) == n as real * poll
  {
  }

  lemma Ordered(a: real, b: real, c: real, ac: real, bc: real)
    requires a <= b && c > 0.0 && ac == a * c && bc == b * c
    ensures ac <= bc
  {
    assert bc - ac == (b - a) * c;
  }

  lemma Strictly(a: real, b: real, c: real, ac: real, bc: real)
    requires a < b && c > 0.0 && ac == a * c && bc == b * c
    ensures ac < bc
  {
    assert bc - ac == (b - a) * c;
  }

  lemma Fewer(a: int, b: int, poll: real)
    requires poll > 0.0 && Span(a, poll) < Span(b, poll)
    ensures a < b
  {
    if b <= a {
      Ordered(b as real, a as real, poll, Span(b, poll), Span(a, poll));
    }
  }

  lemma OneLess(n: int, poll: real)
    ensures Span(n - 1, poll) == Span(n, poll) - poll
  {
  }

  /** One poll that sleeps for min(remaining, poll) uses up one of the polls that fit. */
  lemma PollsGoDown(before: real, after: real, poll: real)
    requires poll > 0.0 && before > 0.0 && after <= before - Min(before, poll)
    ensures MostPolls(after, poll) + 1 <= MostPolls(before, poll)
  {
    var n, m := MostPolls(before, poll), MostPolls(after, poll);
    OneLess(n, poll);
    hide Span, MostPolls;
    if after > 0.0 {
      Fewer(m - 1, n - 1, poll);
    }
  }

  lemma FewerPolls(before: real, after: real, poll: real)
    requires poll > 0.0 && after <= before
    ensures MostPolls(after, poll) <= MostPolls(before, poll)
  {
    var n, m := MostPolls(before, poll), MostPolls(after, poll);
    hide Span, MostPolls;
    if after > 0.0 {
      Fewer(m - 1, n, poll);
    }
  }

  class DeadlineScheduler {
    const clock: Clock
    const poll: real

    constructor (clock: Clock, poll: real)
      requires poll > 0.0
      ensures this.clock == clock && this.poll == poll
    {
      this.clock, this.poll := clock, poll;
    }

    /** Sleep in short intervals until the deadline or a cancellation. It never returns before the
        deadline unless a cancellation was seen, never sleeps longer than one poll period at a time,
        and never sleeps more often than the distance to the deadline allows, whatever the clock does. */
    method WaitUntil(deadline: real) returns (jitter: real, canceled: bool, ghost sleeps: seq<real>)
      requires poll > 0.0
      modifies clock
      ensures jitter == clock.time - deadline && clock.time >= old(clock.time)
      ensures !canceled ==> jitter >= 0.0
      ensures forall s | s in sleeps :: 0.0 < s <= poll
      ensures |sleeps| <= MostPolls(deadline - old(clock.time), poll)
    {
      sleeps := [];
      canceled := *;
      while !canceled
        invariant clock.time >= old(clock.time)
        invariant forall s | s in sleeps :: 0.0 < s <= poll
        invariant |sleeps| + MostPolls(deadline - clock.time, poll) <= MostPolls(deadline - old(clock.time), poll)
        decreases MostPolls(deadline - clock.time, poll)
      {
        hide MostPolls;
        ghost var earlier := deadline - clock.time;
        var now := clock.Read();
        FewerPolls(earlier, deadline - now, poll);
        var remaining := deadline - now;
        if remaining <= 0.0 {
          break;
        }
        clock.Sleep(Min(remaining, poll));
        PollsGoDown(remaining, deadline - clock.time, poll);
        sleeps := sleeps + [Min(remaining, poll)];
        canceled := *;
      }
      var now := clock.Read();
      jitter := now - deadline;
    }
  }

  /** The deterministic scheduler: a wait moves its own time to the deadline, never back. */
  class VirtualScheduler {
    var now: real

    constructor (start: real)
      ensures now == start
    {
      now := start;
    }

    method WaitUntil(deadline: real, canceled: bool) returns (jitter: real)
      modifies this
      ensures now == (if canceled then old(now) else Max(old(now), deadline))
      ensures jitter == now - deadline && (!canceled ==> jitter >= 0.0)
    {
      if !canceled {
        now := Max(now, deadline);
      }
      return now - deadline;
    }
  }
}
