/** The invariant of the command protocol and its preservation by every step. */
module ExecutorInvariant {
  import opened Prelude
  import opened Trajectories
  import opened Safety
  import opened DriverStates
  import opened ExecutorModel
  import opened ExecutorLog

  predicate BeforeAccept(pc: Pc) {
    pc.Admit? || pc.Validate? || pc.Accept?
  }

  predicate Canceling(pc: Pc) {
    pc.CancelStop? || pc.CancelCheck? || pc.CancelApply?
  }

  predicate Failing(pc: Pc) {
    pc.FailStop? || pc.FailCheck? || pc.FailApply?
  }

  predicate Done(pc: Pc) {
    pc.Finally? || pc.Release?
  }

  /** The worker's id is the active command id. */
  predicate Published(w: Worker)
    requires w.Worker?
  {
    w.accepted && w.pc != Finally(Return(Succeeded)) && !w.pc.Release?
  }

  ghost predicate IdsOk(s: System) {
    && (forall e | e in s.log && Subject(e).Some? :: Subject(e).value < s.nextId)
    && (s.active.Some? ==> s.active.value < s.nextId)
    && (s.memo.Stopped? ==> s.memo.id < s.nextId)
    && (s.memo.Stopped? ==> StopIssued(s.memo.id, s.memo.ok) in s.log)
    && (s.worker.Worker? ==> s.worker.id < s.nextId)
  }

  /** Who owns the active command, the lane and the Executing state. */
  predicate OwnerOk(s: System) {
    match s.worker
    case NoWorker => s.active == None && s.driver != Executing && !s.lane.HeldByWorker?
    case Worker(id, _, _, _, _, _, _, pc) =>
      && s.active == (if Published(s.worker) then Some(id) else None)
      && (s.lane.HeldByWorker? ==> Canceling(pc) || (Failing(pc) && !pc.handling))
      && (s.driver == Executing ==> !BeforeAccept(pc) && !pc.ApplyAccepted? && !Done(pc) && s.worker.accepted)
  }

  function WriteCount(w: Worker): nat
    requires w.Worker?
  {
    match w.pc
    case Wait(k) => k
    case Recheck(k) => k
    case WriteLane(k) => k
    case ReadBack(k) => k + 1
    case Commit => |w.points|
    case _ => 0
  }

  /** Facts about the admitted plan, the start time and the writes of the worker's command. */
  ghost predicate PlanOk(env: Env, s: System)
    requires env.policy.Valid() && s.worker.Worker?
  {
    var w := s.worker;
    && PointIndexOk(w)
    && (BeforeAccept(w.pc) ==> !w.accepted)
    && (InBody(w.pc) || Canceling(w.pc) ==> w.accepted)
    && (w.pc.Accept? ==> TimesIncrease(w.points) && Safe(env.policy, env.kin, w.measured, w.points))
    && (!w.accepted ==> WritesOf(s.log, w.id) == [])
    && (!w.accepted ==> forall t: real :: Started(w.id, t) !in s.log)
    && (!w.accepted ==> forall m: JointVector, p: seq<TrajectoryPoint> :: Accepted(w.id, m, p) !in s.log)
    && (w.accepted ==> Accepted(w.id, w.measured, w.points) in s.log)
    && (w.accepted ==> forall m: JointVector, p: seq<TrajectoryPoint> | Accepted(w.id, m, p) in s.log :: p == w.points)
    && (w.pc.ApplyAccepted? || w.pc.ReadClock? ==> forall t: real :: Started(w.id, t) !in s.log)
    && (InBody(w.pc) && !w.pc.ApplyAccepted? && !w.pc.ReadClock? ==>
          Started(w.id, w.start) in s.log && forall t: real | Started(w.id, t) in s.log :: t == w.start)
    && (InBody(w.pc) ==> AllAcknowledged(WritesOf(s.log, w.id)) && |WritesOf(s.log, w.id)| == WriteCount(w))
    && (w.pc.Recheck? || w.pc.WriteLane? ==> IsCanceled(s) || w.start + w.points[w.pc.k].time <= s.now)
  }

  /** Facts about cancellations, stops and the pending result of the worker's command. */
  ghost predicate StopOk(s: System)
    requires s.worker.Worker?
  {
    var w := s.worker;
    && !Ended(s.log, w.id)
    && (!w.accepted ==> !HasCancel(s.log, w.id))
    && (!w.accepted && (BeforeAccept(w.pc) || w.pc.FailStop?) ==> !HasStop(s.log, w.id))
    && (!w.accepted && Failing(w.pc) ==> w.pc.handling)
    && (Published(w) ==> w.generation <= s.generation && (IsCanceled(s) <==> HasCancel(s.log, w.id)))
    && (Published(w) ==> forall ok | StopIssued(w.id, ok) in s.log :: s.memo == Stopped(w.id, ok))
    && (InBody(w.pc) && HasStop(s.log, w.id) ==> IsCanceled(s))
    && (w.pc.CancelStop? ==> IsCanceled(s))
    && (w.pc.CancelCheck? ==> HasCancel(s.log, w.id) && StopIssued(w.id, w.pc.ok) in s.log)
    && (w.pc.CancelApply? ==> HasCancel(s.log, w.id) && StopIssued(w.id, true) in s.log)
    && (w.pc.FailCheck? || w.pc.FailApply? ==> HasStop(s.log, w.id))
    && (Done(w.pc) ==> match w.pc.outcome
                       case Return(status) => ResultOk(s.log, w.id, status)
                       case Escape => HasStop(s.log, w.id))
    && (Done(w.pc) && w.pc.outcome == Return(Rejected) ==> !w.accepted)
    && (Done(w.pc) && w.pc.outcome == Return(Succeeded) ==> w.accepted)
  }

  ghost predicate Inv(env: Env, s: System)
    requires env.policy.Valid()
  {
    && IdsOk(s)
    && OwnerOk(s)
    && (s.worker.Worker? ==> PlanOk(env, s) && StopOk(s))
    && LogOk(env, s.log)
  }

  // ---------------------------------------------------------------------------------------------
  // The worker's steps
  // ---------------------------------------------------------------------------------------------

  lemma ReadStateKeeps(env: Env, s: System)
    requires env.policy.Valid() && Inv(env, s) && s.worker.Worker? && s.worker.pc.Admit?
    ensures Inv(env, ReadStateDo(s))
  {
    hide LogOk, Safe, TimesIncrease, WritesOf, AllAcknowledged;
  }

  lemma ApplyAcceptKeeps(env: Env, s: System)
    requires env.policy.Valid() && Inv(env, s) && s.worker.Worker? && s.worker.pc.ApplyAccepted?
    ensures Inv(env, ApplyAcceptDo(s))
  {
    hide LogOk, Safe, TimesIncrease, WritesOf, AllAcknowledged;
  }

  lemma HandleKeeps(env: Env, s: System)
    requires env.policy.Valid() && Inv(env, s) && s.worker.Worker?
    requires MayRaise(s.worker.pc)
    ensures Inv(env, Handle(s))
  {
    hide LogOk, Safe, TimesIncrease, WritesOf, AllAcknowledged;
  }

  lemma AcceptKeeps(env: Env, s: System)
    requires env.policy.Valid() && Inv(env, s) && s.worker.Worker? && s.worker.pc.Accept? && s.lane.Free?
    ensures Inv(env, AcceptDo(s))
  {
    hide LogOk, Safe, TimesIncrease, WritesOf, AllAcknowledged, ResultOk, FollowsPlan;
    var e := Accepted(s.worker.id, s.worker.measured, s.worker.points);
    WritesAppend(s.log, e, s.worker.id);
    AppendKeepsLog(env, s.log, e);
    assert AllAcknowledged([]) by {
      NothingToAcknowledge();
    }
  }

  lemma NothingToAcknowledge()
    ensures AllAcknowledged([])
  {
  }

  lemma StartClockKeeps(env: Env, s: System)
    requires env.policy.Valid() && Inv(env, s) && s.worker.Worker? && s.worker.pc.ReadClock?
    ensures Inv(env, StartClockDo(s))
  {
    hide LogOk, Safe, TimesIncrease, WritesOf, AllAcknowledged, ResultOk, FollowsPlan, PlanOk;
    StartClockKeepsPlan(env, s);
    var e := Started(s.worker.id, s.now);
    WritesAppend(s.log, e, s.worker.id);
    AppendKeepsLog(env, s.log, e) by {
      StartMayAppend(env, s);
    }
  }

  lemma StartMayAppend(env: Env, s: System)
    requires env.policy.Valid() && Inv(env, s) && s.worker.Worker? && s.worker.pc.ReadClock?
    ensures MayAppend(env, s.log, Started(s.worker.id, s.now))
  {
    hide LogOk, Safe, TimesIncrease, WritesOf, AllAcknowledged, ResultOk, FollowsPlan, IdsOk, OwnerOk;
  }

  lemma StartClockKeepsPlan(env: Env, s: System)
    requires env.policy.Valid() && Inv(env, s) && s.worker.Worker? && s.worker.pc.ReadClock?
    ensures PlanOk(env, StartClockDo(s))
  {
    hide LogOk, Safe, TimesIncrease, WritesOf, AllAcknowledged, ResultOk, FollowsPlan, IdsOk, OwnerOk, StopOk;
    WritesAppend(s.log, Started(s.worker.id, s.now), s.worker.id);
  }

  lemma RecheckKeeps(env: Env, s: System)
    requires env.policy.Valid() && Inv(env, s) && s.worker.Worker? && s.worker.pc.Recheck?
    ensures Inv(env, RecheckDo(s))
  {
    hide LogOk, Safe, TimesIncrease, WritesOf, AllAcknowledged, ResultOk;
  }

  /** Leaving the body keeps what is known about the plan and the writes. */
  lemma PlanOfFinished(env: Env, s: System, t: System)
    requires env.policy.Valid() && s.worker.Worker? && PlanOk(env, s)
    requires t.worker.Worker? && t.worker == s.worker.(pc := t.worker.pc) && t.log == s.log
    requires Canceling(t.worker.pc) || Failing(t.worker.pc) || Done(t.worker.pc)
    requires Canceling(t.worker.pc) ==> s.worker.accepted
    ensures PlanOk(env, t)
  {
    hide Safe, TimesIncrease, WritesOf, AllAcknowledged;
  }

  lemma WriteCanceledKeeps(env: Env, s: System, reply: Reply)
    requires env.policy.Valid() && Inv(env, s) && s.worker.Worker? && s.worker.pc.WriteLane? && PointIndexOk(s.worker)
    requires s.lane.Free? && IsCanceled(s)
    ensures Inv(env, WriteDo(s, reply))
  {
    hide LogOk, PlanOk, ResultOk, Inv;
    assert IdsOk(s) && OwnerOk(s) && PlanOk(env, s) && StopOk(s) && LogOk(env, s.log) by {
      InvParts(env, s);
    }
    var t := WriteDo(s, reply);
    PlanOfFinished(env, s, t) by {
      assert s.worker.accepted by { BodyIsAccepted(env, s); }
    }
    InvFromParts(env, t);
  }

  /** Other threads' steps keep what is known about the plan and the writes. */
  lemma PlanOfUndisturbed(env: Env, s: System, t: System)
    requires env.policy.Valid() && s.worker.Worker? && PlanOk(env, s)
    requires t.worker == s.worker && s.now <= t.now
    requires InBody(s.worker.pc) && IsCanceled(s) ==> IsCanceled(t)
    requires WritesOf(t.log, s.worker.id) == WritesOf(s.log, s.worker.id)
    requires forall e: Event | e.Accepted? || e.Started? :: e in t.log <==> e in s.log
    ensures PlanOk(env, t)
  {
    hide Safe, TimesIncrease, WritesOf, AllAcknowledged;
  }

  lemma BodyIsAccepted(env: Env, s: System)
    requires env.policy.Valid() && s.worker.Worker? && PlanOk(env, s) && (InBody(s.worker.pc) || Canceling(s.worker.pc))
    ensures s.worker.accepted
  {
  }

  lemma InvParts(env: Env, s: System)
    requires env.policy.Valid() && Inv(env, s) && s.worker.Worker?
    ensures IdsOk(s) && OwnerOk(s) && PlanOk(env, s) && StopOk(s) && LogOk(env, s.log)
  {
    hide IdsOk, OwnerOk, PlanOk, StopOk, LogOk;
  }

  lemma OwnerPart(env: Env, s: System)
    requires env.policy.Valid() && Inv(env, s)
    ensures OwnerOk(s)
  {
  }

  lemma InvFromParts(env: Env, s: System)
    requires env.policy.Valid() && s.worker.Worker?
    requires IdsOk(s) && OwnerOk(s) && PlanOk(env, s) && StopOk(s) && LogOk(env, s.log)
    ensures Inv(env, s)
  {
    hide IdsOk, OwnerOk, PlanOk, StopOk, LogOk;
  }

  lemma WriteAcknowledgedKeeps(env: Env, s: System)
    requires env.policy.Valid() && Inv(env, s) && s.worker.Worker? && s.worker.pc.WriteLane? && PointIndexOk(s.worker)
    requires s.lane.Free? && !IsCanceled(s)
    ensures Inv(env, WriteDo(s, Acknowledged))
  {
    hide LogOk, Safe, TimesIncrease, WritesOf, AllAcknowledged, ResultOk, FollowsPlan, MayAppend, PlanOk;
    var w := s.worker;
    var e := Wrote(w.id, w.pc.k, w.points[w.pc.k].position, s.now, Acknowledged);
    WriteAcknowledgedKeepsPlan(env, s, e);
    AppendKeepsLog(env, s.log, e) by {
      WriteMayAppend(env, s, e);
    }
  }

  lemma WriteAcknowledgedKeepsPlan(env: Env, s: System, e: Event)
    requires env.policy.Valid() && s.worker.Worker? && s.worker.pc.WriteLane? && PointIndexOk(s.worker) && PlanOk(env, s)
    requires !IsCanceled(s)
    requires e == Wrote(s.worker.id, s.worker.pc.k, s.worker.points[s.worker.pc.k].position, s.now, Acknowledged)
    ensures PlanOk(env, WriteDo(s, Acknowledged))
  {
    hide Safe, TimesIncrease, WritesOf, AllAcknowledged;
    WritesAppend(s.log, e, s.worker.id);
    AcknowledgeOneMore(WritesOf(s.log, s.worker.id), e);
  }

  lemma WriteFailedKeeps(env: Env, s: System, reply: Reply)
    requires env.policy.Valid() && Inv(env, s) && s.worker.Worker? && s.worker.pc.WriteLane? && PointIndexOk(s.worker)
    requires s.lane.Free? && !IsCanceled(s) && reply != Acknowledged
    ensures Inv(env, WriteDo(s, reply))
  {
    hide LogOk, WritesOf, ResultOk, MayAppend, PlanOk;
    var w := s.worker;
    var e := Wrote(w.id, w.pc.k, w.points[w.pc.k].position, s.now, reply);
    AppendKeepsLog(env, s.log, e) by {
      WriteMayAppend(env, s, e);
    }
    BodyIsAccepted(env, s);
    PlanOfFailedWrite(env, s, WriteDo(s, reply), e);
  }

  lemma PlanOfFailedWrite(env: Env, s: System, t: System, e: Event)
    requires env.policy.Valid() && s.worker.Worker? && s.worker.accepted && PlanOk(env, s) && e.Wrote?
    requires t.worker.Worker? && t.worker == s.worker.(pc := t.worker.pc) && t.log == s.log + [e] && t.worker.pc.FailStop?
    ensures PlanOk(env, t)
  {
    hide Safe, TimesIncrease, WritesOf, AllAcknowledged;
  }

  /** A worker that reaches the write with its generation current may write its next point. */
  lemma WriteMayAppend(env: Env, s: System, e: Event)
    requires env.policy.Valid() && Inv(env, s) && s.worker.Worker? && s.worker.pc.WriteLane? && PointIndexOk(s.worker)
    requires !IsCanceled(s) && e.Wrote? && e.id == s.worker.id && e.index == s.worker.pc.k
    requires e.target == s.worker.points[e.index].position && e.at == s.now
    ensures MayAppend(env, s.log, e)
  {
    hide LogOk, Safe, TimesIncrease, WritesOf, AllAcknowledged, ResultOk, FollowsPlan;
  }

  lemma AcknowledgeOneMore(writes: seq<Event>, e: Event)
    requires AllAcknowledged(writes) && e.Wrote? && e.reply == Acknowledged
    ensures AllAcknowledged(writes + [e])
  {
  }

  lemma ReadFreshKeeps(env: Env, s: System)
    requires env.policy.Valid() && Inv(env, s) && s.worker.Worker? && s.worker.pc.ReadBack?
    ensures Inv(env, ReadFreshDo(s))
  {
    hide LogOk, Safe, TimesIncrease, WritesOf, AllAcknowledged, ResultOk;
  }

  lemma ReadStaleKeeps(env: Env, s: System)
    requires env.policy.Valid() && Inv(env, s) && s.worker.Worker? && s.worker.pc.ReadBack?
    ensures Inv(env, At(s, FailStop(false)))
  {
    hide LogOk, PlanOk, ResultOk;
    PlanOfFinished(env, s, At(s, FailStop(false)));
    BodyIsAccepted(env, s);
  }

  lemma CommitKeeps(env: Env, s: System)
    requires env.policy.Valid() && Inv(env, s) && s.worker.Worker? && s.worker.pc.Commit? && s.lane.Free?
    ensures Inv(env, CommitDo(s))
  {
    hide LogOk, Safe, TimesIncrease, WritesOf, AllAcknowledged, ResultOk;
    if !IsCanceled(s) {
      CommitResult(env, s);
    }
    PlanOfFinished(env, s, CommitDo(s));
  }

  lemma CommitResult(env: Env, s: System)
    requires env.policy.Valid() && s.worker.Worker? && PlanOk(env, s) && StopOk(s) && s.worker.pc.Commit?
    requires !IsCanceled(s)
    ensures ResultOk(s.log, s.worker.id, Succeeded)
  {
    hide WritesOf, AllAcknowledged, Safe, TimesIncrease;
    var w := s.worker;
    assert Accepted(w.id, w.measured, w.points) in s.log;
  }

  /** A stop issued for the command, or its memoised outcome, with the log kept in order. */
  lemma StopFacts(env: Env, s: System, id: CommandId, ok: bool)
    requires env.policy.Valid() && LogOk(env, s.log) && !Ended(s.log, id)
    requires s.memo.Stopped? ==> StopIssued(s.memo.id, s.memo.ok) in s.log
    requires HasStop(s.log, id) ==> s.memo.Stopped? && s.memo.id == id
    ensures var t := IssueStop(s, id, ok);
      && LogOk(env, t.log)
      && (t.log == s.log || (t.log == s.log + [StopIssued(id, ok)] && !HasStop(s.log, id)))
      && StopIssued(id, StopOutcome(s, id, ok)) in t.log
      && t.memo == Stopped(id, StopOutcome(s, id, ok))
      && forall c :: WritesOf(t.log, c) == WritesOf(s.log, c)
  {
    hide LogOk, WritesOf;
    if !(s.memo.Stopped? && s.memo.id == id) {
      var e := StopIssued(id, ok);
      AppendKeepsLog(env, s.log, e);
      forall c
        ensures WritesOf(s.log + [e], c) == WritesOf(s.log, c)
      {
        WritesAppend(s.log, e, c);
      }
    }
  }

  lemma StopAfterCancelKeeps(env: Env, s: System, ok: bool)
    requires env.policy.Valid() && Inv(env, s) && s.worker.Worker? && s.worker.pc.CancelStop? && LaneOpenToWorker(s)
    ensures Inv(env, StopAfterCancelDo(s, ok))
  {
    hide LogOk, Safe, TimesIncrease, WritesOf, AllAcknowledged, ResultOk, FollowsPlan, IssueStop, StopOutcome;
    StopFacts(env, s, s.worker.id, ok);
    IssueStopFrame(s, s.worker.id, ok);
  }

  lemma IssueStopFrame(s: System, id: CommandId, ok: bool)
    ensures var t := IssueStop(s, id, ok);
      t == s.(log := t.log, memo := t.memo)
  {
  }

  lemma StopAfterFailureKeeps(env: Env, s: System, ok: bool)
    requires env.policy.Valid() && Inv(env, s) && s.worker.Worker? && s.worker.pc.FailStop? && LaneOpenToWorker(s)
    ensures Inv(env, StopAfterFailureDo(s, ok))
  {
    hide LogOk, WritesOf, ResultOk, IssueStop, StopOutcome, PlanOk, IdsOk, Inv;
    InvParts(env, s);
    var t, id := StopAfterFailureDo(s, ok), s.worker.id;
    IdsFacts(s);
    StopFacts(env, s, id, ok);
    IssueStopFrame(s, id, ok);
    var stopped := IssueStop(s, id, ok);
    PlanOfUndisturbed(env, s, stopped);
    PlanOfFinished(env, stopped, t);
    IdsOfStopped(s, t, id, ok, StopOutcome(s, id, ok));
    InvFromParts(env, t);
  }

  lemma IdsFacts(s: System)
    requires IdsOk(s)
    ensures s.memo.Stopped? ==> StopIssued(s.memo.id, s.memo.ok) in s.log
    ensures s.worker.Worker? ==> s.worker.id < s.nextId
  {
  }

  lemma IdsOfStopped(s: System, t: System, id: CommandId, reply: bool, ok: bool)
    requires IdsOk(s) && id < s.nextId && t.nextId == s.nextId && t.active == s.active && t.memo == Stopped(id, ok)
    requires t.worker.Worker? && s.worker.Worker? && t.worker.id == s.worker.id
    requires (t.log == s.log || t.log == s.log + [StopIssued(id, reply)]) && StopIssued(id, ok) in t.log
    ensures IdsOk(t)
  {
  }

  lemma CheckAfterCancelKeeps(env: Env, s: System)
    requires env.policy.Valid() && Inv(env, s) && s.worker.Worker? && s.worker.pc.CancelCheck?
    ensures Inv(env, CheckAfterCancelDo(s))
  {
    hide LogOk, PlanOk;
    PlanOfFinished(env, s, CheckAfterCancelDo(s)) by {
      BodyIsAccepted(env, s);
    }
  }

  lemma ApplyCanceledKeeps(env: Env, s: System)
    requires env.policy.Valid() && Inv(env, s) && s.worker.Worker? && s.worker.pc.CancelApply?
    ensures Inv(env, ApplyCanceledDo(s))
  {
    hide LogOk, PlanOk;
    PlanOfFinished(env, s, ApplyCanceledDo(s)) by {
      BodyIsAccepted(env, s);
    }
  }

  lemma CheckAfterFailureKeeps(env: Env, s: System)
    requires env.policy.Valid() && Inv(env, s) && s.worker.Worker? && s.worker.pc.FailCheck?
    ensures Inv(env, CheckAfterFailureDo(s))
  {
    hide LogOk, PlanOk;
    PlanOfFinished(env, s, CheckAfterFailureDo(s));
  }

  lemma ApplyFaultKeeps(env: Env, s: System)
    requires env.policy.Valid() && Inv(env, s) && s.worker.Worker? && s.worker.pc.FailApply?
    ensures Inv(env, ApplyFaultDo(s))
  {
    hide LogOk, PlanOk, Transition;
    FaultTransition(s.driver);
    PlanOfFinished(env, s, ApplyFaultDo(s));
  }

  lemma ClearActiveKeeps(env: Env, s: System)
    requires env.policy.Valid() && Inv(env, s) && s.worker.Worker? && s.worker.pc.Finally? && s.lane.Free?
    ensures Inv(env, ClearActiveDo(s))
  {
    hide LogOk, Safe, TimesIncrease, WritesOf, AllAcknowledged, ResultOk;
  }

  lemma ReleaseKeeps(env: Env, s: System)
    requires env.policy.Valid() && Inv(env, s) && s.worker.Worker? && s.worker.pc.Release?
    ensures Inv(env, ReleaseDo(s))
  {
    hide LogOk, Safe, TimesIncrease, WritesOf, AllAcknowledged, ResultOk, FollowsPlan;
    var e := if s.worker.pc.outcome.Escape? then Escaped(s.worker.id)
             else Returned(s.worker.id, s.worker.pc.outcome.status);
    AppendKeepsLog(env, s.log, e);
  }

  // ---------------------------------------------------------------------------------------------
  // The steps of other threads
  // ---------------------------------------------------------------------------------------------

  lemma {:induction false} FreshIdWritesNothing(log: seq<Event>, c: CommandId)
    requires forall e | e in log && Subject(e).Some? :: Subject(e).value < c
    ensures WritesOf(log, c) == []
  {
    if log != [] {
      FreshIdWritesNothing(log[..|log| - 1], c);
    }
  }

  lemma BeginKeeps(env: Env, s: System, measured: JointVector, points: seq<TrajectoryPoint>, stamp: Stamp)
    requires env.policy.Valid() && Inv(env, s) && s.worker.NoWorker?
    ensures Inv(env, BeginDo(s, measured, points, stamp))
  {
    hide LogOk, Safe, TimesIncrease, WritesOf, AllAcknowledged, ResultOk;
    FreshIdWritesNothing(s.log, s.nextId);
  }

  lemma FreshIdIsQuiet(s: System)
    requires IdsOk(s)
    ensures !Ended(s.log, s.nextId) && !HasStop(s.log, s.nextId) && !HasCancel(s.log, s.nextId)
    ensures WritesOf(s.log, s.nextId) == []
    ensures !(s.memo.Stopped? && s.memo.id == s.nextId)
  {
    FreshIdWritesNothing(s.log, s.nextId);
  }

  lemma BusyKeeps(env: Env, s: System)
    requires env.policy.Valid() && Inv(env, s) && s.worker.Worker?
    ensures Inv(env, BusyDo(s))
  {
    hide LogOk, WritesOf, ResultOk, FollowsPlan, PlanOk;
    FreshIdIsQuiet(s);
    var e := Returned(s.nextId, Rejected);
    WritesAppend(s.log, e, s.worker.id);
    AppendKeepsLog(env, s.log, e) by {
      RejectedResult(s.log, s.nextId);
    }
    if Done(s.worker.pc) && s.worker.pc.outcome.Return? {
      ResultFrame(s.log, e, s.worker.id, s.worker.pc.outcome.status);
    }
    PlanOfUndisturbed(env, s, BusyDo(s));
  }

  lemma {:induction false} RejectedResult(log: seq<Event>, c: CommandId)
    requires !HasStop(log, c) && !HasCancel(log, c) && WritesOf(log, c) == []
    ensures ResultOk(log, c, Rejected)
  {
  }

  /** An event about another command does not touch a pending result; a further cancel of the same
      command does not touch a cancelled or failed one. */
  lemma ResultFrame(log: seq<Event>, e: Event, c: CommandId, status: Status)
    requires ResultOk(log, c, status)
    requires Subject(e) != Some(c) || (e == Bumped(Some(c)) && (status == Canceled || status == Failed))
    ensures ResultOk(log + [e], c, status)
  {
    hide WritesOf;
    WritesAppend(log, e, c);
    if status == Succeeded {
      var measured, points :| Accepted(c, measured, points) in log;
      assert Accepted(c, measured, points) in log + [e];
    }
  }

  /** The bump and the stop of a cancel or stop call, with the log kept in order. */
  lemma CancelFacts(env: Env, s: System, id: CommandId, nextId: CommandId, ok: bool)
    requires env.policy.Valid() && LogOk(env, s.log) && IdsOk(s) && !Ended(s.log, id)
    requires s.active.Some? ==> s.active.value == id
    requires HasStop(s.log, id) ==> s.memo.Stopped? && s.memo.id == id
    ensures var t := CancelDo(s, id, nextId, ok);
      var bumped := s.log + [Bumped(s.active)];
      && LogOk(env, t.log)
      && (t.log == bumped || (t.log == bumped + [StopIssued(id, ok)] && !HasStop(s.log, id)))
      && StopIssued(id, StopOutcome(s, id, ok)) in t.log
      && t == s.(log := t.log, memo := Stopped(id, StopOutcome(s, id, ok)), generation := s.generation + 1,
                 nextId := nextId, lane := t.lane)
      && !t.lane.HeldByWorker?
      && forall c :: WritesOf(t.log, c) == WritesOf(s.log, c)
  {
    hide LogOk, WritesOf;
    var e := Bumped(s.active);
    AppendKeepsLog(env, s.log, e);
    var bumped := Log(s, e).(generation := s.generation + 1, nextId := nextId);
    forall c
      ensures WritesOf(bumped.log, c) == WritesOf(s.log, c)
    {
      WritesAppend(s.log, e, c);
    }
    StopFacts(env, bumped, id, ok);
  }

  lemma CancelActiveKeeps(env: Env, s: System, ok: bool)
    requires env.policy.Valid() && Inv(env, s) && s.lane.Free? && s.active.Some?
    ensures Inv(env, CancelDo(s, s.active.value, s.nextId, ok))
  {
    hide LogOk, WritesOf, ResultOk, FollowsPlan, CancelDo, StopOutcome, PlanOk;
    var id, w := s.active.value, s.worker;
    CancelFacts(env, s, id, s.nextId, ok);
    PlanOfUndisturbed(env, s, CancelDo(s, id, s.nextId, ok));
    if Done(w.pc) && w.pc.outcome.Return? {
      PendingResultSurvives(s.log, CancelDo(s, id, s.nextId, ok).log, s.active, id, ok, id, w.pc.outcome.status);
    }
  }

  /** A pending result survives a cancel or stop call. */
  lemma PendingResultSurvives(log: seq<Event>, after: seq<Event>, active: Option<CommandId>, stopped: CommandId,
                              ok: bool, c: CommandId, status: Status)
    requires ResultOk(log, c, status)
    requires var bumped := log + [Bumped(active)];
      after == bumped || (after == bumped + [StopIssued(stopped, ok)])
    requires (active != Some(c) && stopped != c) || status == Canceled || status == Failed
    ensures ResultOk(after, c, status)
  {
    hide WritesOf;
    var e := Bumped(active);
    ResultFrame(log, e, c, status);
    if after != log + [e] {
      var stop := StopIssued(stopped, ok);
      WritesAppend(log + [e], stop, c);
      if status == Succeeded {
        ResultFrame(log + [e], stop, c, status);
      }
    }
  }

  lemma StopIdleKeeps(env: Env, s: System, ok: bool)
    requires env.policy.Valid() && Inv(env, s) && s.lane.Free? && s.active.None?
    ensures Inv(env, CancelDo(s, s.nextId, s.nextId + 1, ok))
  {
    hide LogOk, WritesOf, ResultOk, FollowsPlan, CancelDo, StopOutcome, PlanOk;
    FreshIdIsQuiet(s);
    CancelFacts(env, s, s.nextId, s.nextId + 1, ok);
    var w := s.worker;
    if w.Worker? {
      if InBody(w.pc) || Canceling(w.pc) {
        BodyIsAccepted(env, s);
      }
      PlanOfUndisturbed(env, s, CancelDo(s, s.nextId, s.nextId + 1, ok));
    }
    if w.Worker? && Done(w.pc) && w.pc.outcome.Return? {
      PendingResultSurvives(s.log, CancelDo(s, s.nextId, s.nextId + 1, ok).log, s.active, s.nextId, ok, w.id,
                            w.pc.outcome.status);
    }
  }

  lemma CheckStopKeeps(env: Env, s: System)
    requires env.policy.Valid() && Inv(env, s) && s.lane.Checking?
    ensures Inv(env, CheckStopDo(s))
  {
    hide LogOk, ResultOk, PlanOk, WritesOf;
    if s.worker.Worker? {
      PlanOfUndisturbed(env, s, CheckStopDo(s));
    }
  }

  lemma FaultTransition(state: DriverState)
    ensures Transition(state, FaultDetected) == if state == Idle || state == Executing then Some(Fault) else None
  {
  }

  lemma FaultStopKeeps(env: Env, s: System)
    requires env.policy.Valid() && Inv(env, s) && s.lane.Faulting?
    ensures Inv(env, FaultStopDo(s))
  {
    hide LogOk, ResultOk, PlanOk, WritesOf, Transition;
    FaultTransition(s.driver);
    if s.worker.Worker? {
      PlanOfUndisturbed(env, s, FaultStopDo(s));
    }
  }

  /** Only the stop of a disconnect touches more than the driver state and the session's own fields. */
  lemma SessionKeeps(env: Env, s: System, act: Act)
    requires env.policy.Valid() && Inv(env, s) && SessionEnabled(s, act)
    ensures Inv(env, SessionDo(s, act))
  {
    if act.StopForClose? {
      hide Inv, CancelDo;
      var ok := StopReply(s, act.ok);
      if s.active.Some? {
        CancelActiveKeeps(env, s, ok);
      } else {
        StopIdleKeeps(env, s, ok);
      }
      SessionFrame(env, StopNowDo(s, ok), StopNowDo(s, ok).driver, SessionDo(s, act));
    } else {
      hide Inv, StopNowDo, AfterRead;
      SessionFrame(env, s, SessionDo(s, act).driver, SessionDo(s, act));
    }
  }

  lemma SessionFrame(env: Env, s: System, driver: DriverState, t: System)
    requires env.policy.Valid() && Inv(env, s)
    requires t == s.(driver := driver, connected := t.connected, lifecycle := t.lifecycle, recoveries := t.recoveries)
    requires driver == s.driver || driver != Executing
    ensures Inv(env, t)
  {
    hide LogOk, Safe, TimesIncrease, WritesOf, AllAcknowledged, ResultOk;
  }

  lemma TickKeeps(env: Env, s: System, dt: real)
    requires env.policy.Valid() && Inv(env, s) && dt >= 0.0
    ensures Inv(env, s.(now := s.now + dt))
  {
    hide LogOk, Safe, TimesIncrease, WritesOf, AllAcknowledged, ResultOk;
  }

  lemma WaitReturnsKeeps(env: Env, s: System)
    requires env.policy.Valid() && Inv(env, s) && s.worker.Worker? && s.worker.pc.Wait? && PointIndexOk(s.worker)
    requires IsCanceled(s) || s.worker.start + s.worker.points[s.worker.pc.k].time <= s.now
    ensures Inv(env, At(s, Recheck(s.worker.pc.k)))
  {
    hide LogOk, Safe, TimesIncrease, WritesOf, AllAcknowledged, ResultOk;
  }

  lemma ValidateKeeps(env: Env, s: System)
    requires env.policy.Valid() && Inv(env, s) && s.worker.Worker? && s.worker.pc.Validate?
    ensures Inv(env, Leave(s, Return(Rejected)))
    ensures Safe(env.policy, env.kin, s.worker.measured, s.worker.points) && TimesIncrease(s.worker.points) ==>
              Inv(env, At(s, Accept))
  {
    hide LogOk, Safe, TimesIncrease, WritesOf, AllAcknowledged;
  }

  // ---------------------------------------------------------------------------------------------
  // Every step
  // ---------------------------------------------------------------------------------------------

  lemma StepKeepsInv(env: Env, s: System, step: Step)
    requires env.policy.Valid() && Inv(env, s) && Enabled(env, s, step)
    ensures Inv(env, Do(env, s, step))
  {
    hide Inv, Safe, TimesIncrease, ReadStateDo, AcceptDo, ApplyAcceptDo, StartClockDo, RecheckDo, WriteDo, ReadFreshDo,
      CommitDo, StopAfterCancelDo, CheckAfterCancelDo, ApplyCanceledDo, StopAfterFailureDo, CheckAfterFailureDo,
      ApplyFaultDo, ClearActiveDo, ReleaseDo, BeginDo, BusyDo, CancelDo, CheckStopDo, FaultStopDo, SessionDo, SessionEnabled, StopReply, WriteReply, At, Leave, Handle;
    match step
    case Begin(measured, points, stamp) => BeginKeeps(env, s, measured, points, stamp);
    case Busy => BusyKeeps(env, s);
    case CancelCall(ok) => CancelActiveKeeps(env, s, StopReply(s, ok));
    case StopNowCall(ok) => if s.active.Some? { CancelActiveKeeps(env, s, StopReply(s, ok)); } else { StopIdleKeeps(env, s, StopReply(s, ok)); }
    case CancellerCheck => CheckStopKeeps(env, s);
    case CancellerApply => FaultStopKeeps(env, s);
    case Session(act) => SessionKeeps(env, s, act);
    case Tick(dt) => TickKeeps(env, s, dt);
    case ReadState => ReadStateKeeps(env, s);
    case ValidatePasses => ValidateKeeps(env, s);
    case ValidateRejects => ValidateKeeps(env, s);
    case AcceptLane => AcceptKeeps(env, s);
    case ApplyAccept => ApplyAcceptKeeps(env, s);
    case StartClock => StartClockKeeps(env, s);
    case WaitReturns => WaitReturnsKeeps(env, s);
    case RecheckCancel => RecheckKeeps(env, s);
    case WriteTarget(reply) =>
      if IsCanceled(s) { WriteCanceledKeeps(env, s, WriteReply(s, reply)); }
      else if WriteReply(s, reply) == Acknowledged { WriteAcknowledgedKeeps(env, s); }
      else { WriteFailedKeeps(env, s, WriteReply(s, reply)); }
    case ReadFresh => ReadFreshKeeps(env, s);
    case ReadStale => ReadStaleKeeps(env, s);
    case CommitLane => CommitKeeps(env, s);
    case Raise => HandleKeeps(env, s);
    case StopAfterCancel(ok) => StopAfterCancelKeeps(env, s, StopReply(s, ok));
    case CheckAfterCancel => CheckAfterCancelKeeps(env, s);
    case ApplyCanceled => ApplyCanceledKeeps(env, s);
    case StopAfterFailure(ok) => StopAfterFailureKeeps(env, s, StopReply(s, ok));
    case CheckAfterFailure => CheckAfterFailureKeeps(env, s);
    case ApplyFault => ApplyFaultKeeps(env, s);
    case ClearActive => ClearActiveKeeps(env, s);
    case ReleaseLock => ReleaseKeeps(env, s);
  }

  lemma {:induction false} RunKeepsInv(env: Env, states: seq<System>, steps: seq<Step>, i: nat)
    requires env.policy.Valid() && Run(env, states, steps) && i < |states|
    ensures Inv(env, states[i])
  {
    hide Inv, Do, Enabled;
    if i == 0 {
      InitialInv(env);
    } else {
      RunKeepsInv(env, states, steps, i - 1);
      StepKeepsInv(env, states[i - 1], steps[i - 1]);
    }
  }

  lemma InitialInv(env: Env)
    requires env.policy.Valid()
    ensures Inv(env, INITIAL)
  {
  }
}
