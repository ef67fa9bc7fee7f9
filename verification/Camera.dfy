/**
 The camera worker (camera_pipeline.py): a latest-frame queue of depth one between a capture thread
 and its readers, and reconnection with bounded exponential backoff.
 */
module Camera {
  import opened Prelude

  datatype CameraState = Closed | Opening | Streaming | Backoff | Stopping | Fault

  datatype Frame = Frame(sequence: nat)

  datatype Reconnect = Reconnect(initial: real, maximum: real, multiplier: real, maximumAttempts: nat)
  {
    /** What CameraReconnectPolicy demands. */
    predicate Valid() {
      0.0 <= initial <= maximum && multiplier >= 1.0
    }
  }

  datatype Failure = TimedOut | Failed

  /** One pass through the outer loop: the frames read, and how it ended. */
  datatype Session = Session(frames: seq<Frame>, failure: Failure)

  /** The pass that a stop request ends, with or without a failure before the request is seen. */
  datatype LastSession = LastSession(frames: seq<Frame>, failure: Option<Failure>)

  // ---------------------------------------------------------------------------------------------
  // Backoff
  // ---------------------------------------------------------------------------------------------

  function Power(base: real, n: nat): real {
    if n == 0 then 1.0 else Power(base, n - 1) * base
  }

  function Grown(r: Reconnect, n: nat): real {
    r.initial * Power(r.multiplier, n)
  }

  /** The wait after n earlier failures since the last frame. */
  function WaitAfter(r: Reconnect, n: nat): real {
    Min(r.maximum, Grown(r, n))
  }

  /** The update of the backoff variable. */
  function NextBackoff(r: Reconnect, backoff: real): real {
    Min(r.maximum, Max(r.initial, backoff * r.multiplier))
  }

  lemma Stretch(a: real, m: real)
    requires a >= 0.0 && m >= 1.0
    ensures a * m >= a
  {
    assert a * (m - 1.0) >= 0.0;
    assert a * m == a + a * (m - 1.0);
  }

  lemma {:induction false} PowerAtLeastOne(base: real, n: nat)
    requires base >= 1.0
    ensures Power(base, n) >= 1.0
  {
    if n > 0 {
      PowerAtLeastOne(base, n - 1);
      Stretch(Power(base, n - 1), base);
    }
  }

  lemma CappedStep(initial: real, maximum: real, m: real, a: real, b: real)
    requires 0.0 <= initial <= maximum && m >= 1.0 && initial <= a && b == a * m
    ensures Min(maximum, Max(initial, Min(maximum, a) * m)) == Min(maximum, b)
  {
    Stretch(a, m);
    Stretch(maximum, m);
    if a > maximum {
      Stretch(maximum, m);
    }
  }

  lemma GrownStep(r: Reconnect, n: nat)
    requires r.Valid()
    ensures r.initial <= Grown(r, n) && Grown(r, n + 1) == Grown(r, n) * r.multiplier
  {
    PowerAtLeastOne(r.multiplier, n);
    Stretch(r.initial, Power(r.multiplier, n));
    MulAssociates(r.initial, Power(r.multiplier, n), r.multiplier, Power(r.multiplier, n + 1));
  }

  /** The backoff variable follows the closed form: exponential growth, capped. */
  lemma BackoffGrows(r: Reconnect, n: nat)
    requires r.Valid()
    ensures NextBackoff(r, WaitAfter(r, n)) == WaitAfter(r, n + 1)
    ensures r.initial <= WaitAfter(r, n) <= r.maximum
  {
    GrownStep(r, n);
    hide Grown;
    CappedStep(r.initial, r.maximum, r.multiplier, Grown(r, n), Grown(r, n + 1));
  }

  lemma FirstWait(r: Reconnect)
    requires r.Valid()
    ensures WaitAfter(r, 0) == r.initial
  {
  }

  lemma MulAssociates(x: real, p: real, m: real, q: real)
    requires q == p * m
    ensures x * q == (x * p) * m
  {
  }

  // ---------------------------------------------------------------------------------------------
  // Failures in a row
  // ---------------------------------------------------------------------------------------------

  /** Failures since the last frame, after the first i sessions. */
  function Streak(sessions: seq<Session>, i: nat): nat
    requires i <= |sessions|
  {
    if i == 0 then 0 else if sessions[i - 1].frames != [] then 1 else Streak(sessions, i - 1) + 1
  }

  /** The wait after session k: the k-th failure in a row waits as long as the closed form says. */
  predicate WaitIs(r: Reconnect, sessions: seq<Session>, k: nat, wait: real)
    requires k < |sessions|
  {
    Streak(sessions, k + 1) >= 1 && wait == WaitAfter(r, Streak(sessions, k + 1) - 1)
  }

  predicate Exhausted(r: Reconnect, sessions: seq<Session>, i: nat)
    requires i <= |sessions|
  {
    r.maximumAttempts > 0 && Streak(sessions, i) > r.maximumAttempts
  }

  function Frames(sessions: seq<Session>, i: nat): seq<Frame>
    requires i <= |sessions|
  {
    if i == 0 then [] else Frames(sessions, i - 1) + sessions[i - 1].frames
  }

  /** Sequence numbers that increase strictly from at least one. */
  predicate InSequence(frames: seq<Frame>) {
    && (frames != [] ==> frames[0].sequence >= 1)
    && forall i, j | 0 <= i < j < |frames| :: frames[i].sequence < frames[j].sequence
  }

  function Last(frames: seq<Frame>): Option<Frame> {
    if frames == [] then None else Some(frames[|frames| - 1])
  }

  predicate Unread(published: seq<Frame>, consumed: nat) {
    published != [] && published[|published| - 1].sequence > consumed
  }

  ghost predicate Seen(published: seq<Frame>, consumed: nat, seen: set<nat>) {
    && (forall s | s in seen :: s <= consumed)
    && (consumed > 0 ==> consumed in seen && exists f :: f in published && f.sequence == consumed)
  }

  /** Conservation: every captured frame was read by someone, or overwritten unread, or is the latest
      one and still unread. */
  ghost predicate QueueOk(published: seq<Frame>, consumed: nat, seen: set<nat>, captured: nat, overflow: nat) {
    && InSequence(published) && captured == |published| && Seen(published, consumed, seen)
    && captured == overflow + |seen| + (if Unread(published, consumed) then 1 else 0)
  }

  lemma PublishStep(published: seq<Frame>, consumed: nat, seen: set<nat>, captured: nat, overflow: nat, frame: Frame)
    requires QueueOk(published, consumed, seen, captured, overflow) && InSequence(published + [frame])
    ensures QueueOk(published + [frame], consumed, seen, captured + 1,
                    if Unread(published, consumed) then overflow + 1 else overflow)
  {
    var longer := published + [frame];
    if consumed > 0 {
      var f :| f in published && f.sequence == consumed;
      assert f in longer;
      var i :| 0 <= i < |published| && published[i] == f;
      assert longer[i].sequence < longer[|published|].sequence;
    }
    hide InSequence;
  }

  lemma TakeStep(published: seq<Frame>, consumed: nat, seen: set<nat>, captured: nat, overflow: nat)
    requires QueueOk(published, consumed, seen, captured, overflow) && published != []
    ensures var s := published[|published| - 1].sequence;
      QueueOk(published, s, seen + {s}, captured, overflow) && !Unread(published, s)
  {
    var last := published[|published| - 1];
    LastIsLargest(published);
    if consumed > 0 {
      var f :| f in published && f.sequence == consumed;
    }
    hide InSequence;
    var s := last.sequence;
    assert s in seen <==> consumed == s;
    if s in seen {
      assert seen + {s} == seen;
    }
    assert last in published && last.sequence == s;
  }

  lemma LastIsLargest(published: seq<Frame>)
    requires InSequence(published) && published != []
    ensures forall f | f in published :: f.sequence <= published[|published| - 1].sequence
    ensures published[|published| - 1].sequence >= 1
  {
    assert |published| > 1 ==> published[0].sequence < published[|published| - 1].sequence;
  }

  class CameraWorker {
    const reconnect: Reconnect
    var state: CameraState
    var latest: Option<Frame>
    var consumedSequence: nat
    var framesCaptured: nat
    var readTimeouts: nat
    var captureErrors: nat
    var reconnectCount: nat
    var queueOverflowCount: nat
    var lastError: string
    ghost var published: seq<Frame>
    ghost var seen: set<nat>

    ghost predicate Valid()
      reads this
    {
      && reconnect.Valid()
      && latest == Last(published)
      && QueueOk(published, consumedSequence, seen, framesCaptured, queueOverflowCount)
    }

    constructor (reconnect: Reconnect)
      requires reconnect.Valid()
      ensures Valid() && published == [] && seen == {} && state == Closed
    {
      this.reconnect := reconnect;
      state, latest, consumedSequence, framesCaptured, readTimeouts := Closed, None, 0, 0, 0;
      captureErrors, reconnectCount, queueOverflowCount, lastError := 0, 0, 0, "";
      published, seen := [], {};
    }

    /** Put a new frame in the queue, counting the one it overwrites if nobody read it. */
    method Publish(frame: Frame)
      requires Valid() && InSequence(published + [frame])
      modifies this
      ensures Valid() && published == old(published) + [frame] && seen == old(seen) && state == old(state)
      ensures readTimeouts == old(readTimeouts) && captureErrors == old(captureErrors)
      ensures reconnectCount == old(reconnectCount)
    {
      hide QueueOk, InSequence;
      PublishStep(published, consumedSequence, seen, framesCaptured, queueOverflowCount, frame);
      if latest.Some? && latest.value.sequence > consumedSequence {
        queueOverflowCount := queueOverflowCount + 1;
      }
      latest := Some(frame);
      framesCaptured := framesCaptured + 1;
      lastError := "";
      published := published + [frame];
    }

    /** The locked success branch of latest_frame: a frame newer than the one asked for, if there is one. */
    method TakeLatest(after: Option<nat>) returns (frame: Option<Frame>)
      requires Valid()
      modifies this
      ensures Valid() && published == old(published) && state == old(state)
      ensures frame == if old(latest).Some? && (after.None? || old(latest).value.sequence > after.value) then old(latest) else None
      ensures frame.None? ==> seen == old(seen)
      ensures frame.Some? ==> seen == old(seen) + {frame.value.sequence} && !Unread(published, consumedSequence)
      ensures readTimeouts == old(readTimeouts) && captureErrors == old(captureErrors)
      ensures reconnectCount == old(reconnectCount)
    {
      if latest.None? || (after.Some? && latest.value.sequence <= after.value) {
        return None;
      }
      hide QueueOk;
      TakeStep(published, consumedSequence, seen, framesCaptured, queueOverflowCount);
      consumedSequence := latest.value.sequence;
      seen := seen + {latest.value.sequence};
      return latest;
    }

    /** Any number of readers between two steps of the capture thread. */
    method Readers()
      requires Valid()
      modifies this
      ensures Valid() && published == old(published) && state == old(state) && old(seen) <= seen
      ensures readTimeouts == old(readTimeouts) && captureErrors == old(captureErrors)
      ensures reconnectCount == old(reconnectCount)
    {
      var n: nat := *;
      while n > 0
        invariant Valid() && published == old(published) && state == old(state) && old(seen) <= seen
        invariant readTimeouts == old(readTimeouts) && captureErrors == old(captureErrors)
        invariant reconnectCount == old(reconnectCount)
      {
        var after: Option<nat> := *;
        var frame := TakeLatest(after);
        n := n - 1;
      }
    }

    /** The frames of one session, in order, each resetting nothing but the queue. */
    method Stream(frames: seq<Frame>, ghost later: seq<Frame>)
      requires Valid() && InSequence(published + frames + later)
      modifies this
      ensures Valid() && published == old(published) + frames && state == old(state)
      ensures readTimeouts == old(readTimeouts) && captureErrors == old(captureErrors)
      ensures reconnectCount == old(reconnectCount)
    {
      hide InSequence, QueueOk;
      for i := 0 to |frames|
        invariant Valid() && published == old(published) + frames[..i] && state == old(state)
        invariant readTimeouts == old(readTimeouts) && captureErrors == old(captureErrors)
        invariant reconnectCount == old(reconnectCount)
      {
        Readers();
        NextInSequence(old(published), frames, later, i);
        Publish(frames[i]);
        assert frames[..i + 1] == frames[..i] + [frames[i]];
      }
      assert frames[..|frames|] == frames;
      Readers();
    }

    /** Count a failed read or open. */
    method HandleFailure(failure: Failure)
      requires Valid()
      modifies this
      ensures Valid() && published == old(published)
      ensures readTimeouts + captureErrors == old(readTimeouts + captureErrors) + 1
      ensures readTimeouts == old(readTimeouts) + (if failure == TimedOut then 1 else 0)
      ensures reconnectCount == old(reconnectCount)
    {
      if failure == TimedOut {
        readTimeouts := readTimeouts + 1;
        lastError := "timeout";
      } else {
        captureErrors := captureErrors + 1;
        lastError := "capture";
      }
    }

    /** The capture thread: sessions that end in a failure, then a stop request, either while waiting
        (`last` is None) or during one more session, whose failure is counted too. The waits are those of the closed form, and the
        worker gives up exactly at the first failure that is one too many in a row. */
    method Run(sessions: seq<Session>, last: Option<LastSession>) returns (ghost waits: seq<real>)
      requires Valid() && InSequence(published + Frames(sessions, |sessions|) + FinalFrames(last))
      modifies this
      ensures Valid()
      ensures |waits| <= |sessions| && reconnectCount == old(reconnectCount) + |waits|
      ensures forall k | 0 <= k < |waits| :: WaitIs(reconnect, sessions, k, waits[k])
      ensures forall k | 0 <= k <= |waits| :: !Exhausted(reconnect, sessions, k)
      ensures state in {Fault, Closed}
      ensures state == Fault ==>
        && |waits| < |sessions| && Exhausted(reconnect, sessions, |waits| + 1)
        && Streak(sessions, |waits| + 1) == reconnect.maximumAttempts + 1
        && published == old(published) + Frames(sessions, |waits| + 1)
        && readTimeouts + captureErrors == old(readTimeouts + captureErrors) + |waits| + 1
      ensures state == Closed ==>
        && |waits| == |sessions|
        && published == old(published) + Frames(sessions, |sessions|) + FinalFrames(last)
        && readTimeouts + captureErrors == old(readTimeouts + captureErrors) + |waits| + (if FinalFailure(last).Some? then 1 else 0)
    {
      hide InSequence, QueueOk, WaitAfter, NextBackoff, Frames, Last, Streak;
      FirstWait(reconnect);
      NoFrames(sessions);
      waits := [];
      var backoff, attempts := reconnect.initial, 0;
      for i := 0 to |sessions|
        invariant Valid() && published == old(published) + Frames(sessions, i)
        invariant attempts == Streak(sessions, i) && backoff == WaitAfter(reconnect, attempts)
        invariant |waits| == i && reconnectCount == old(reconnectCount) + i
        invariant readTimeouts + captureErrors == old(readTimeouts + captureErrors) + i
        invariant forall k | 0 <= k < i :: WaitIs(reconnect, sessions, k, waits[k])
        invariant forall k | 0 <= k <= i :: !Exhausted(reconnect, sessions, k)
      {
        var session := sessions[i];
        state := Streaming;
        ghost var later := LaterFrames(old(published), sessions, i, FinalFrames(last));
        Stream(session.frames, later);
        FramesGrow(sessions, i);
        StreakGrows(sessions, i);
        assert published == old(published) + Frames(sessions, i + 1);
        if session.frames != [] {
          attempts, backoff := 0, reconnect.initial;
        }
        HandleFailure(session.failure);
        attempts := attempts + 1;
        assert attempts == Streak(sessions, i + 1) && backoff == WaitAfter(reconnect, attempts - 1);
        if reconnect.maximumAttempts > 0 && attempts > reconnect.maximumAttempts {
          assert !Exhausted(reconnect, sessions, i);
          state, lastError := Fault, "reconnect_attempts_exhausted";
          return;
        }
        reconnectCount := reconnectCount + 1;
        state := CameraState.Backoff;
        waits := waits + [backoff];
        BackoffGrows(reconnect, attempts - 1);
        backoff := NextBackoff(reconnect, backoff);
      }
      if last.Some? {
        assert published + last.value.frames + [] == old(published) + Frames(sessions, |sessions|) + FinalFrames(last);
        state := Streaming;
        Stream(last.value.frames, []);
        if last.value.failure.Some? {
          HandleFailure(last.value.failure.value);
        }
      }
      state := Closed;
    }
  }

  function FinalFrames(last: Option<LastSession>): seq<Frame> {
    if last.Some? then last.value.frames else []
  }

  function FinalFailure(last: Option<LastSession>): Option<Failure> {
    if last.Some? then last.value.failure else None
  }

  lemma StreakGrows(sessions: seq<Session>, i: nat)
    requires i < |sessions|
    ensures Streak(sessions, i + 1) == if sessions[i].frames != [] then 1 else Streak(sessions, i) + 1
  {
  }

  lemma {:induction false} NoFrames(sessions: seq<Session>)
    ensures Frames(sessions, 0) == [] && Streak(sessions, 0) == 0
  {
  }

  lemma FramesGrow(sessions: seq<Session>, i: nat)
    requires i < |sessions|
    ensures Frames(sessions, i + 1) == Frames(sessions, i) + sessions[i].frames
  {
  }

  lemma NextInSequence(before: seq<Frame>, frames: seq<Frame>, later: seq<Frame>, i: nat)
    requires i < |frames| && InSequence(before + frames + later)
    ensures InSequence(before + frames[..i] + [frames[i]])
  {
    var all, some := before + frames + later, before + frames[..i] + [frames[i]];
    assert forall k | 0 <= k < |some| :: some[k] == all[k];
  }

  /** The frames that follow session i. */
  lemma LaterFrames(before: seq<Frame>, sessions: seq<Session>, i: nat, last: seq<Frame>) returns (later: seq<Frame>)
    requires i < |sessions|
    ensures before + Frames(sessions, i) + sessions[i].frames + later == before + Frames(sessions, |sessions|) + last
  {
    var rest := RestOfFrames(sessions, i + 1);
    later := rest + last;
    assert Frames(sessions, i + 1) == Frames(sessions, i) + sessions[i].frames;
  }

  lemma {:induction false} RestOfFrames(sessions: seq<Session>, i: nat) returns (rest: seq<Frame>)
    requires i <= |sessions|
    ensures Frames(sessions, i) + rest == Frames(sessions, |sessions|)
    decreases |sessions| - i
  {
    if i == |sessions| {
      rest := [];
    } else {
      var more := RestOfFrames(sessions, i + 1);
      rest := sessions[i].frames + more;
    }
  }
}
