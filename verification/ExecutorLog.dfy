/** What the log of every run satisfies, and when an event may be appended to it. */
module ExecutorLog {
  import opened Prelude
  import opened Trajectories
  import opened Safety
  import opened ExecutorModel

  /** The hardware writes that carry command c, in order. */
  function WritesOf(log: seq<Event>, c: CommandId): (writes: seq<Event>)
    ensures forall w | w in writes :: w.Wrote? && w.id == c && w in log
  {
    if log == [] then []
    else
      var last := log[|log| - 1];
      WritesOf(log[..|log| - 1], c) + (if last.Wrote? && last.id == c then [last] else [])
  }

  predicate HasStop(log: seq<Event>, c: CommandId) {
    StopIssued(c, true) in log || StopIssued(c, false) in log
  }

  predicate HasCancel(log: seq<Event>, c: CommandId) {
    Bumped(Some(c)) in log
  }

  predicate Ended(log: seq<Event>, c: CommandId) {
    || Returned(c, Succeeded) in log || Returned(c, Rejected) in log || Returned(c, Canceled) in log
    || Returned(c, Failed) in log || Escaped(c) in log
  }

  /** The hardware stop is reached at most once per command. */
  ghost predicate StopsOnce(log: seq<Event>) {
    forall i, j | 0 <= i < j < |log| && log[i].StopIssued? && log[j].StopIssued? :: log[i].id != log[j].id
  }

  /** After a cancel or stop that hit command c, c is not written again and does not succeed. */
  ghost predicate CancelIsFinal(log: seq<Event>) {
    forall i, j, c | 0 <= i < j < |log| && log[i] == Bumped(Some(c)) ::
      !(log[j].Wrote? && log[j].id == c) && log[j] != Returned(c, Succeeded)
  }

  predicate WriteFits(w: Event, i: nat, points: seq<TrajectoryPoint>)
    requires w.Wrote? && i < |points|
  {
    w.index == i && w.target == points[i].position
  }

  predicate WritesFit(writes: seq<Event>, points: seq<TrajectoryPoint>) {
    && |writes| <= |points|
    && forall i | 0 <= i < |writes| :: writes[i].Wrote? && WriteFits(writes[i], i, points)
  }

  predicate WritesOnTime(writes: seq<Event>, points: seq<TrajectoryPoint>, start: real) {
    && |writes| <= |points|
    && forall i | 0 <= i < |writes| :: writes[i].Wrote? && writes[i].at >= start + points[i].time
  }

  /** The writes of c are the first points of the admitted list, in order and without a gap, each no
      earlier than its scheduled time. */
  ghost predicate FollowsPlan(env: Env, log: seq<Event>, c: CommandId)
    requires env.policy.Valid()
  {
    var writes := WritesOf(log, c);
    && (writes != [] ==> exists measured, points :: Accepted(c, measured, points) in log)
    && (forall measured: JointVector, points: seq<TrajectoryPoint> | Accepted(c, measured, points) in log ::
          && Safe(env.policy, env.kin, measured, points) && TimesIncrease(points)
          && WritesFit(writes, points)
          && forall t: real | Started(c, t) in log :: WritesOnTime(writes, points, t))
    && (writes != [] ==> exists t :: Started(c, t) in log)
  }

  predicate AllAcknowledged(writes: seq<Event>) {
    forall w | w in writes :: w.Wrote? && w.reply == Acknowledged
  }

  /** What each result promises about the command. */
  ghost predicate ResultOk(log: seq<Event>, c: CommandId, status: Status) {
    match status
    case Succeeded =>
      && !HasStop(log, c) && !HasCancel(log, c)
      && (exists measured, points :: Accepted(c, measured, points) in log)
      && AllAcknowledged(WritesOf(log, c))
      && (forall measured: JointVector, points: seq<TrajectoryPoint> | Accepted(c, measured, points) in log :: |WritesOf(log, c)| == |points|)
    case Rejected => !HasStop(log, c) && !HasCancel(log, c) && WritesOf(log, c) == []
    case Canceled => StopIssued(c, true) in log && HasCancel(log, c)
    case Failed => HasStop(log, c)
  }

  ghost predicate ResultsOk(log: seq<Event>) {
    && (forall c, status | Returned(c, status) in log :: ResultOk(log, c, status))
    && (forall c | Escaped(c) in log :: HasStop(log, c))
  }

  ghost predicate LogOk(env: Env, log: seq<Event>)
    requires env.policy.Valid()
  {
    && StopsOnce(log)
    && CancelIsFinal(log)
    && (forall c: CommandId :: FollowsPlan(env, log, c))
    && ResultsOk(log)
  }

  // ---------------------------------------------------------------------------------------------
  // Appending
  // ---------------------------------------------------------------------------------------------

  function Subject(e: Event): Option<CommandId> {
    match e
    case Bumped(active) => active
    case _ => Some(e.id)
  }

  /** The facts under which appending e keeps the log in order. */
  ghost predicate MayAppend(env: Env, log: seq<Event>, e: Event)
    requires env.policy.Valid()
  {
    && (e.Returned? || e.Escaped? || Subject(e).None? || !Ended(log, Subject(e).value))
    && match e
       case Accepted(c, measured, points) =>
         Safe(env.policy, env.kin, measured, points) && TimesIncrease(points) && WritesOf(log, c) == []
       case Started(c, t) => WritesOf(log, c) == []
       case Bumped(_) => true
       case Wrote(c, index, target, at, reply) =>
         && !HasCancel(log, c)
         && index == |WritesOf(log, c)|
         && (exists measured, points :: Accepted(c, measured, points) in log)
         && (exists t :: Started(c, t) in log)
         && (forall measured: JointVector, points: seq<TrajectoryPoint> | Accepted(c, measured, points) in log ::
               index < |points| && target == points[index].position
               && forall t: real | Started(c, t) in log :: at >= t + points[index].time)
       case StopIssued(c, _) => !HasStop(log, c)
       case Returned(c, status) => !Ended(log, c) && ResultOk(log, c, status)
       case Escaped(c) => !Ended(log, c) && HasStop(log, c)
  }

  lemma {:induction false} WritesAppend(log: seq<Event>, e: Event, c: CommandId)
    ensures WritesOf(log + [e], c) == if e.Wrote? && e.id == c then WritesOf(log, c) + [e] else WritesOf(log, c)
  {
    assert (log + [e])[..|log|] == log;
  }

  lemma StopsOnceAppend(env: Env, log: seq<Event>, e: Event)
    requires env.policy.Valid() && StopsOnce(log) && MayAppend(env, log, e)
    ensures StopsOnce(log + [e])
  {
    var longer := log + [e];
    forall i, j | 0 <= i < j < |longer| && longer[i].StopIssued? && longer[j].StopIssued?
      ensures longer[i].id != longer[j].id
    {
      if j == |log| {
        assert log[i] in log;
      }
    }
  }

  lemma CancelIsFinalAppend(env: Env, log: seq<Event>, e: Event)
    requires env.policy.Valid() && CancelIsFinal(log) && MayAppend(env, log, e)
    ensures CancelIsFinal(log + [e])
  {
    var longer := log + [e];
    forall i, j, c | 0 <= i < j < |longer| && longer[i] == Bumped(Some(c))
      ensures !(longer[j].Wrote? && longer[j].id == c) && longer[j] != Returned(c, Succeeded)
    {
      if j == |log| {
        assert log[i] in log;
      }
    }
  }

  lemma FollowsPlanAppend(env: Env, log: seq<Event>, e: Event, c: CommandId)
    requires env.policy.Valid() && FollowsPlan(env, log, c) && MayAppend(env, log, e)
    ensures FollowsPlan(env, log + [e], c)
  {
    WritesAppend(log, e, c);
    if e.Wrote? && e.id == c {
      WriteKeepsPlan(env, log, e, c);
    } else {
      OtherKeepsPlan(env, log, e, c);
    }
  }

  lemma {:induction false} WriteKeepsPlan(env: Env, log: seq<Event>, e: Event, c: CommandId)
    requires env.policy.Valid() && FollowsPlan(env, log, c) && MayAppend(env, log, e) && e.Wrote? && e.id == c
    requires WritesOf(log + [e], c) == WritesOf(log, c) + [e]
    ensures FollowsPlan(env, log + [e], c)
  {
    hide Safe, TimesIncrease, WritesOf;
    var longer, before := log + [e], WritesOf(log, c);
    forall measured: JointVector, points: seq<TrajectoryPoint> | Accepted(c, measured, points) in longer
      ensures Safe(env.policy, env.kin, measured, points) && TimesIncrease(points) && WritesFit(before + [e], points)
      ensures forall t: real | Started(c, t) in longer :: WritesOnTime(before + [e], points, t)
    {
      assert Accepted(c, measured, points) in log;
      forall t: real | Started(c, t) in longer
        ensures WritesOnTime(before + [e], points, t)
      {
        assert Started(c, t) in log;
        assert WritesOnTime(before, points, t);
      }
    }
    var measured, points :| Accepted(c, measured, points) in log;
    assert Accepted(c, measured, points) in longer;
    var t :| Started(c, t) in log;
    assert Started(c, t) in longer;
  }

  lemma {:induction false} OtherKeepsPlan(env: Env, log: seq<Event>, e: Event, c: CommandId)
    requires env.policy.Valid() && FollowsPlan(env, log, c) && MayAppend(env, log, e)
    requires WritesOf(log + [e], c) == WritesOf(log, c)
    requires !(e.Wrote? && e.id == c)
    ensures FollowsPlan(env, log + [e], c)
  {
    hide Safe, TimesIncrease, WritesOf;
    var longer, writes := log + [e], WritesOf(log, c);
    forall measured: JointVector, points: seq<TrajectoryPoint> | Accepted(c, measured, points) in longer
      ensures Safe(env.policy, env.kin, measured, points) && TimesIncrease(points) && WritesFit(writes, points)
      ensures forall t: real | Started(c, t) in longer :: WritesOnTime(writes, points, t)
    {
      assert writes != [] ==> Accepted(c, measured, points) in log;
      forall t: real | Started(c, t) in longer
        ensures WritesOnTime(writes, points, t)
      {
        assert writes != [] ==> Started(c, t) in log;
      }
    }
    if writes != [] {
      var measured, points :| Accepted(c, measured, points) in log;
      assert Accepted(c, measured, points) in longer;
      var t :| Started(c, t) in log;
      assert Started(c, t) in longer;
    }
  }

  lemma ResultOkAppend(env: Env, log: seq<Event>, e: Event, c: CommandId, status: Status)
    requires env.policy.Valid() && MayAppend(env, log, e)
    requires ResultOk(log, c, status) && (Returned(c, status) in log || e == Returned(c, status))
    ensures ResultOk(log + [e], c, status)
  {
    WritesAppend(log, e, c);
    hide WritesOf, FollowsPlan;
    if status == Succeeded {
      var measured, points :| Accepted(c, measured, points) in log;
      assert Accepted(c, measured, points) in log + [e];
    }
  }

  lemma AppendKeepsLog(env: Env, log: seq<Event>, e: Event)
    requires env.policy.Valid() && LogOk(env, log) && MayAppend(env, log, e)
    ensures LogOk(env, log + [e])
  {
    StopsOnceAppend(env, log, e);
    CancelIsFinalAppend(env, log, e);
    forall c: CommandId
      ensures FollowsPlan(env, log + [e], c)
    {
      FollowsPlanAppend(env, log, e, c);
    }
    forall c, status | Returned(c, status) in log + [e]
      ensures ResultOk(log + [e], c, status)
    {
      ResultOkAppend(env, log, e, c, status);
    }
  }
}
