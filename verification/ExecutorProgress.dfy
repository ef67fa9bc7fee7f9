/**
 What a command comes to, over whole runs: a rejection always has its reason, an undisturbed command whose
 hardware answers well succeeds, and a failed one leaves the driver in FAULT.
 */
module ExecutorProgress {
  import opened Prelude
  import opened Trajectories
  import opened Safety
  import opened DriverStates
  import opened ExecutorModel
  import opened ExecutorLifecycle

  /** What the executing thread meets, command by command: the replies of the attached adapter to the write
      and to the read after it, whether a call at a place of the body raises, and the reply to a stop. */
  datatype Hardware = Hardware(write: (CommandId, nat) -> Reply, read: (CommandId, nat) -> Reply,
                               raises: (CommandId, Pc) -> bool, stop: CommandId -> bool)

  /** A step of the executing thread is the one that the hardware's answer leads to. */
  predicate Answered(hardware: Hardware, s: System, step: Step) {
    s.worker.Worker? ==>
      var id := s.worker.id;
      match step
      case WriteTarget(reply) => s.worker.pc.WriteLane? ==> reply == hardware.write(id, s.worker.pc.k)
      case ReadFresh => s.worker.pc.ReadBack? ==> hardware.read(id, s.worker.pc.k) == Acknowledged
      case ReadStale => s.worker.pc.ReadBack? ==> hardware.read(id, s.worker.pc.k) == Refused
      case Raise =>
        if s.worker.pc.ReadBack? then !s.connected || hardware.read(id, s.worker.pc.k) == Raised
        else hardware.raises(id, s.worker.pc)
      case StopAfterCancel(ok) => ok == hardware.stop(id)
      case StopAfterFailure(ok) => ok == hardware.stop(id)
      case _ => true
  }

  ghost predicate ByHardware(hardware: Hardware, states: seq<System>, steps: seq<Step>) {
    |states| == |steps| + 1 && forall i | 0 <= i < |steps| :: Answered(hardware, states[i], steps[i])
  }

  /** Every write of n points is acknowledged, every read is fresh, and nothing raises. */
  ghost predicate Willing(hardware: Hardware, id: CommandId, n: nat) {
    && (forall k: nat | k < n :: hardware.write(id, k) == Acknowledged && hardware.read(id, k) == Acknowledged)
    && forall pc: Pc :: !hardware.raises(id, pc)
  }

  // ---------------------------------------------------------------------------------------------
  // Rejections
  // ---------------------------------------------------------------------------------------------

  /** The same command, wherever it is. */
  predicate SameCommand(v: Worker, w: Worker) {
    v.Worker? && w.Worker? && v.id == w.id && v.measured == w.measured && v.points == w.points && v.stamp == w.stamp
  }

  /** A command keeps its trajectory, its measured state and its id. */
  predicate KeepsCommand(s: System, id: CommandId, measured: JointVector, points: seq<TrajectoryPoint>, stamp: Stamp) {
    && s.nextId > id
    && (s.worker.Worker? && s.worker.id == id ==>
          s.worker.measured == measured && s.worker.points == points && s.worker.stamp == stamp)
  }

  lemma StepKeepsCommand(env: Env, s: System, step: Step, id: CommandId, measured: JointVector, points: seq<TrajectoryPoint>,
                         stamp: Stamp)
    requires env.policy.Valid() && Enabled(env, s, step) && KeepsCommand(s, id, measured, points, stamp)
    ensures KeepsCommand(Do(env, s, step), id, measured, points, stamp)
  {
    hide Enabled, Do;
    if ByOtherThread(step) && !step.Begin? {
      OtherStepKeepsWorker(env, s, step);
    } else if Ending(step) {
      EndKeepsCommand(env, s, step, id, measured, points, stamp);
    } else {
      BodyKeepsCommand(env, s, step, id, measured, points, stamp);
    }
  }

  lemma EndKeepsCommand(env: Env, s: System, step: Step, id: CommandId, measured: JointVector, points: seq<TrajectoryPoint>,
                        stamp: Stamp)
    requires env.policy.Valid() && Enabled(env, s, step) && KeepsCommand(s, id, measured, points, stamp) && Ending(step)
    ensures KeepsCommand(Do(env, s, step), id, measured, points, stamp)
  {
    hide Admissible, TimesIncrease, StopOutcome, Transition, OtherEnabled, BeginDo, BusyDo, CancelDo, StopNowDo, CheckStopDo,
      FaultStopDo, SessionDo, SessionEnabled, ReadStateDo, AcceptDo, ApplyAcceptDo, StartClockDo, RecheckDo, WriteDo, ReadFreshDo,
      CommitDo;
  }

  lemma BodyKeepsCommand(env: Env, s: System, step: Step, id: CommandId, measured: JointVector, points: seq<TrajectoryPoint>,
                         stamp: Stamp)
    requires env.policy.Valid() && Enabled(env, s, step) && KeepsCommand(s, id, measured, points, stamp)
    requires (!ByOtherThread(step) || step.Begin?) && !Ending(step)
    ensures KeepsCommand(Do(env, s, step), id, measured, points, stamp)
  {
    hide Admissible, TimesIncrease, Transition, StopOutcome, BusyDo, CancelDo, StopNowDo, CheckStopDo, FaultStopDo, SessionDo,
      SessionEnabled, StopAfterCancelDo, CheckAfterCancelDo, ApplyCanceledDo, StopAfterFailureDo, CheckAfterFailureDo, ApplyFaultDo,
      ClearActiveDo, ReleaseDo, IsCanceled;
  }

  lemma {:induction false} CommandIsKept(env: Env, states: seq<System>, steps: seq<Step>, b: nat, e: nat)
    requires env.policy.Valid() && Run(env, states, steps) && b < e < |states| && steps[b].Begin?
    ensures KeepsCommand(states[e], states[b].nextId, steps[b].measured, steps[b].points, steps[b].stamp)
  {
    hide Enabled, Do, KeepsCommand;
    if e == b + 1 {
      BeginsCommand(env, states[b], steps[b]);
    } else {
      CommandIsKept(env, states, steps, b, e - 1);
      StepKeepsCommand(env, states[e - 1], steps[e - 1], states[b].nextId, steps[b].measured, steps[b].points, steps[b].stamp);
    }
  }

  lemma BeginsCommand(env: Env, s: System, step: Step)
    requires env.policy.Valid() && Enabled(env, s, step) && step.Begin?
    ensures KeepsCommand(Do(env, s, step), s.nextId, step.measured, step.points, step.stamp)
  {
  }

  /** The admission declines the worker's command here: it reads another state than IDLE, or validates a
      command that is not admissible. */
  predicate Declines(env: Env, s: System, step: Step)
    requires env.policy.Valid()
  {
    s.worker.Worker? &&
    ((step == ReadState && s.driver != Idle) || (step == ValidateRejects && !Admissible(env, s.worker, s.now)))
  }

  predicate IsRejected(w: Worker) {
    w.Worker? && (w.pc == Finally(Return(Rejected)) || w.pc == Release(Return(Rejected)))
  }

  lemma RejectedStep(env: Env, s: System, step: Step)
    requires env.policy.Valid() && Enabled(env, s, step) && IsRejected(Do(env, s, step).worker)
    ensures SameCommand(s.worker, Do(env, s, step).worker) && (IsRejected(s.worker) || Declines(env, s, step))
  {
    hide Enabled, Do;
    if ByOtherThread(step) && !step.Begin? {
      OtherStepKeepsWorker(env, s, step);
    } else {
      RejectedByWorker(env, s, step);
    }
  }

  lemma RejectedByWorker(env: Env, s: System, step: Step)
    requires env.policy.Valid() && Enabled(env, s, step) && (!ByOtherThread(step) || step.Begin?)
    requires IsRejected(Do(env, s, step).worker)
    ensures SameCommand(s.worker, Do(env, s, step).worker) && (IsRejected(s.worker) || Declines(env, s, step))
  {
    hide Enabled, Do;
    if Ending(step) {
      RejectedAtEnd(env, s, step);
    } else {
      RejectedInBody(env, s, step);
    }
  }

  lemma RejectedAtEnd(env: Env, s: System, step: Step)
    requires env.policy.Valid() && Enabled(env, s, step) && Ending(step) && IsRejected(Do(env, s, step).worker)
    ensures SameCommand(s.worker, Do(env, s, step).worker) && IsRejected(s.worker)
  {
    hide Admissible, TimesIncrease, StopOutcome, Transition, OtherEnabled, BeginDo, BusyDo, CancelDo, StopNowDo, CheckStopDo, FaultStopDo,
      SessionDo, SessionEnabled, ReadStateDo, AcceptDo, ApplyAcceptDo, StartClockDo, RecheckDo, WriteDo, ReadFreshDo, CommitDo;
  }

  lemma RejectedInBody(env: Env, s: System, step: Step)
    requires env.policy.Valid() && Enabled(env, s, step) && (!ByOtherThread(step) || step.Begin?) && !Ending(step)
    requires IsRejected(Do(env, s, step).worker)
    ensures SameCommand(s.worker, Do(env, s, step).worker) && Declines(env, s, step)
  {
    if Moves(step) {
      hide Enabled, Do;
      MovingIsNotRejected(env, s, step);
    } else {
      hide Admissible, TimesIncrease, Transition, StopOutcome, BusyDo, CancelDo, StopNowDo, CheckStopDo, FaultStopDo, SessionDo,
        SessionEnabled, StopAfterCancelDo, CheckAfterCancelDo, ApplyCanceledDo, StopAfterFailureDo, CheckAfterFailureDo, ApplyFaultDo,
        ClearActiveDo, ReleaseDo, IsCanceled, StartClockDo, RecheckDo, WriteDo, ReadFreshDo, CommitDo;
    }
  }

  /** The steps of a command after its acceptance, up to its end. */
  predicate Moves(step: Step) {
    || step.StartClock? || step.WaitReturns? || step.RecheckCancel? || step.WriteTarget? || step.ReadFresh? || step.ReadStale?
    || step.CommitLane?
  }

  lemma MovingIsNotRejected(env: Env, s: System, step: Step)
    requires env.policy.Valid() && Enabled(env, s, step) && Moves(step)
    ensures !IsRejected(Do(env, s, step).worker)
  {
    hide Admissible, TimesIncrease, Transition, StopOutcome, OtherEnabled, BeginDo, BusyDo, CancelDo, StopNowDo, CheckStopDo,
      FaultStopDo, SessionDo, SessionEnabled, StopAfterCancelDo, CheckAfterCancelDo, ApplyCanceledDo, StopAfterFailureDo,
      CheckAfterFailureDo, ApplyFaultDo, ClearActiveDo, ReleaseDo, ReadStateDo, AcceptDo, ApplyAcceptDo;
  }

  lemma OtherStepKeepsWorker(env: Env, s: System, step: Step)
    requires env.policy.Valid() && Enabled(env, s, step) && ByOtherThread(step) && !step.Begin?
    ensures Do(env, s, step).worker == s.worker && Do(env, s, step).nextId >= s.nextId
    ensures !step.Session? && !step.CancellerApply? ==> Do(env, s, step).driver == s.driver
    ensures !step.Session? ==> Do(env, s, step).connected == s.connected
    ensures !step.Session? && !step.CancelCall? && !step.StopNowCall? ==> Do(env, s, step).generation == s.generation
    ensures step.CancellerApply? ==> Do(env, s, step).driver in {s.driver, Fault}
  {
    hide WorkerEnabled, SessionDo, SessionEnabled;
    if step.Session? {
      SessionKeepsWorker(s, step.act);
    }
  }

  lemma SessionKeepsWorker(s: System, act: Act)
    requires SessionEnabled(s, act)
    ensures SessionDo(s, act).worker == s.worker && SessionDo(s, act).nextId >= s.nextId
  {
    hide Transition;
  }

  /** In every run a rejected command was declined: admission read another state than IDLE, or at the time
      of the validation the names, the age of the measured state or the trajectory itself were wrong. */
  lemma {:induction false} RejectedForAReason(env: Env, states: seq<System>, steps: seq<Step>, e: nat) returns (v: nat)
    requires env.policy.Valid() && Run(env, states, steps) && e < |states| && IsRejected(states[e].worker)
    ensures v < e && Declines(env, states[v], steps[v]) && SameCommand(states[v].worker, states[e].worker)
    ensures forall b | 0 <= b < e && steps[b].Begin? && states[b].nextId == states[e].worker.id :: b < v
  {
    hide Enabled, Do, Admissible;
    v := e - 1;
    RejectedStep(env, states[v], steps[v]);
    BeginIsNotRejected(env, states[v], steps[v]);
    if !Declines(env, states[v], steps[v]) {
      v := RejectedForAReason(env, states, steps, v);
    }
  }

  lemma BeginIsNotRejected(env: Env, s: System, step: Step)
    requires env.policy.Valid() && Enabled(env, s, step)
    ensures step.Begin? ==> !IsRejected(Do(env, s, step).worker)
  {
    hide Admissible, TimesIncrease, WorkerEnabled;
  }

  // ---------------------------------------------------------------------------------------------
  // Success
  // ---------------------------------------------------------------------------------------------

  /** The steps of other threads that can keep a command from succeeding. */
  predicate Disturbs(step: Step) {
    step.CancelCall? || step.StopNowCall? || step.CancellerApply? || step.Session?
  }

  /** The command has not failed so far, and will be rejected or succeed. */
  predicate OnItsWay(s: System, id: CommandId, points: seq<TrajectoryPoint>) {
    && s.nextId > id && s.connected
    && (s.worker.Worker? && s.worker.id == id ==>
          && s.worker.points == points
          && match s.worker.pc
             case Admit => s.driver == Idle
             case Validate => s.driver == Idle
             case Accept => s.driver == Idle
             case ApplyAccepted => s.driver == Idle && !IsCanceled(s)
             case Finally(outcome) => outcome == Return(Succeeded) || outcome == Return(Rejected)
             case Release(outcome) => outcome == Return(Succeeded) || outcome == Return(Rejected)
             case _ => InBody(s.worker.pc) && s.driver == Executing && !IsCanceled(s))
  }

  lemma StaysOnItsWay(env: Env, hardware: Hardware, s: System, step: Step, id: CommandId, points: seq<TrajectoryPoint>)
    requires env.policy.Valid() && Enabled(env, s, step) && OnItsWay(s, id, points)
    requires !Disturbs(step) && Answered(hardware, s, step) && Willing(hardware, id, |points|)
    ensures OnItsWay(Do(env, s, step), id, points)
  {
    hide Enabled, Do;
    if ByOtherThread(step) && !step.Begin? {
      OtherStepKeepsWorker(env, s, step);
    } else {
      WorkerStaysOnItsWay(env, hardware, s, step, id, points);
    }
  }

  lemma WorkerStaysOnItsWay(env: Env, hardware: Hardware, s: System, step: Step, id: CommandId, points: seq<TrajectoryPoint>)
    requires env.policy.Valid() && Enabled(env, s, step) && OnItsWay(s, id, points) && (!ByOtherThread(step) || step.Begin?)
    requires !Disturbs(step) && Answered(hardware, s, step) && Willing(hardware, id, |points|)
    ensures OnItsWay(Do(env, s, step), id, points)
  {
    hide Enabled, Do;
    if Ending(step) {
      EndStaysOnItsWay(env, s, step, id, points);
    } else {
      BodyStaysOnItsWay(env, hardware, s, step, id, points);
    }
  }

  lemma EndStaysOnItsWay(env: Env, s: System, step: Step, id: CommandId, points: seq<TrajectoryPoint>)
    requires env.policy.Valid() && Enabled(env, s, step) && OnItsWay(s, id, points) && Ending(step)
    ensures OnItsWay(Do(env, s, step), id, points)
  {
    hide Admissible, TimesIncrease, StopOutcome, OtherEnabled, BeginDo, BusyDo, CancelDo, StopNowDo, CheckStopDo, FaultStopDo,
      SessionDo, SessionEnabled, ReadStateDo, AcceptDo, ApplyAcceptDo, StartClockDo, RecheckDo, WriteDo, ReadFreshDo, CommitDo;
  }

  lemma BodyStaysOnItsWay(env: Env, hardware: Hardware, s: System, step: Step, id: CommandId, points: seq<TrajectoryPoint>)
    requires env.policy.Valid() && Enabled(env, s, step) && OnItsWay(s, id, points) && (!ByOtherThread(step) || step.Begin?)
    requires !Ending(step) && !Disturbs(step) && Answered(hardware, s, step) && Willing(hardware, id, |points|)
    ensures OnItsWay(Do(env, s, step), id, points)
  {
    hide Admissible, TimesIncrease, StopOutcome, BusyDo, CancelDo, StopNowDo, CheckStopDo, FaultStopDo, SessionDo,
      SessionEnabled, StopAfterCancelDo, CheckAfterCancelDo, ApplyCanceledDo, StopAfterFailureDo, CheckAfterFailureDo, ApplyFaultDo,
      ClearActiveDo, ReleaseDo;
  }

  /** From its begin with an IDLE driver and an attached adapter on, a command that no cancel, stop,
      session operation or late fault disturbs and whose hardware is willing never leaves its way. */
  lemma {:induction false} UndisturbedCommand(env: Env, hardware: Hardware, states: seq<System>, steps: seq<Step>,
                                              b: nat, e: nat, id: CommandId)
    requires env.policy.Valid() && Run(env, states, steps) && ByHardware(hardware, states, steps) && b < e < |states|
    requires steps[b].Begin? && states[b].nextId == id && states[b].driver == Idle && states[b].connected
    requires Willing(hardware, id, |steps[b].points|) && forall m | b < m < e :: !Disturbs(steps[m])
    ensures OnItsWay(states[e], id, steps[b].points)
  {
    hide Enabled, Do, Answered, Willing, OnItsWay;
    if e == b + 1 {
      BeginsOnItsWay(env, states[b], steps[b]);
    } else {
      UndisturbedCommand(env, hardware, states, steps, b, e - 1, id);
      StaysOnItsWay(env, hardware, states[e - 1], steps[e - 1], id, steps[b].points);
    }
  }

  /** An undisturbed command with willing hardware succeeds, if it began with an IDLE driver and an attached
      adapter and was admissible when it was validated. */
  lemma UndisturbedCommandSucceeds(env: Env, hardware: Hardware, states: seq<System>, steps: seq<Step>, b: nat, e: nat)
    requires env.policy.Valid() && Run(env, states, steps) && ByHardware(hardware, states, steps) && b < e < |states|
    requires steps[b].Begin? && states[b].driver == Idle && states[b].connected
    requires Willing(hardware, states[b].nextId, |steps[b].points|)
    requires forall m | b < m < e :: !steps[m].CancelCall? && !steps[m].StopNowCall? && !steps[m].CancellerApply? && !steps[m].Session?
    requires forall m | b < m < e && steps[m] == ValidateRejects && states[m].worker.Worker? && states[m].worker.id == states[b].nextId ::
               Admissible(env, states[m].worker, states[m].now)
    requires states[e].worker.Worker? && states[e].worker.id == states[b].nextId && states[e].worker.pc.Release?
    ensures states[e].worker.pc.outcome == Return(Succeeded)
  {
    hide Enabled, Do, Answered, Willing, Admissible;
    var id := states[b].nextId;
    UndisturbedCommand(env, hardware, states, steps, b, e, id);
    if IsRejected(states[e].worker) {
      var v := RejectedForAReason(env, states, steps, e);
      UndisturbedCommand(env, hardware, states, steps, b, v, id);
      ReadsIdle(env, states[v], steps[v], id, steps[b].points);
    }
  }

  lemma ReadsIdle(env: Env, s: System, step: Step, id: CommandId, points: seq<TrajectoryPoint>)
    requires env.policy.Valid() && Enabled(env, s, step) && OnItsWay(s, id, points)
    requires s.worker.Worker? && s.worker.id == id && step == ReadState
    ensures s.driver == Idle
  {
    hide Admissible, TimesIncrease;
  }

  lemma BeginsOnItsWay(env: Env, s: System, step: Step)
    requires env.policy.Valid() && Enabled(env, s, step) && step.Begin? && s.driver == Idle && s.connected
    ensures OnItsWay(Do(env, s, step), s.nextId, step.points)
  {
  }

  // ---------------------------------------------------------------------------------------------
  // Failure
  // ---------------------------------------------------------------------------------------------

  /** Where a command can leave the driver when no session operation takes part; `alone`: and no thread
      applies a fault of its own. */
  predicate FaultFollows(s: System, id: CommandId, alone: bool) {
    && s.nextId > id && s.driver in {Idle, Executing, Fault}
    && (s.worker.Worker? && s.worker.id == id ==>
          && (s.worker.pc.FailApply? && alone ==> s.driver in {Idle, Executing})
          && (s.worker.pc.Finally? || s.worker.pc.Release? ==>
                && (s.worker.pc.outcome == Return(Failed) ==> s.driver == Fault)
                && (s.worker.pc.outcome == Escape ==> !alone)))
  }

  lemma StepKeepsFault(env: Env, s: System, step: Step, id: CommandId, alone: bool)
    requires env.policy.Valid() && Enabled(env, s, step) && FaultFollows(s, id, alone)
    requires !step.Session? && (alone ==> !step.CancellerApply?)
    ensures FaultFollows(Do(env, s, step), id, alone)
  {
    hide Enabled, Do;
    if ByOtherThread(step) && !step.Begin? {
      OtherStepKeepsWorker(env, s, step);
    } else {
      WorkerKeepsFault(env, s, step, id, alone);
    }
  }

  lemma WorkerKeepsFault(env: Env, s: System, step: Step, id: CommandId, alone: bool)
    requires env.policy.Valid() && Enabled(env, s, step) && FaultFollows(s, id, alone) && (!ByOtherThread(step) || step.Begin?)
    ensures FaultFollows(Do(env, s, step), id, alone)
  {
    hide Enabled, Do;
    if Ending(step) {
      EndKeepsFault(env, s, step, id, alone);
    } else {
      BodyKeepsFault(env, s, step, id, alone);
    }
  }

  lemma EndKeepsFault(env: Env, s: System, step: Step, id: CommandId, alone: bool)
    requires env.policy.Valid() && Enabled(env, s, step) && FaultFollows(s, id, alone) && Ending(step)
    ensures FaultFollows(Do(env, s, step), id, alone)
  {
    if step.StopAfterFailure? || step.CheckAfterFailure? || step.ApplyFault? {
      FailureKeepsFault(env, s, step, id, alone);
    } else {
      hide Admissible, TimesIncrease, StopOutcome, OtherEnabled, BeginDo, BusyDo, CancelDo, StopNowDo, CheckStopDo, FaultStopDo,
        SessionDo, SessionEnabled, ReadStateDo, AcceptDo, ApplyAcceptDo, StartClockDo, RecheckDo, WriteDo, ReadFreshDo, CommitDo,
        StopAfterFailureDo, CheckAfterFailureDo, ApplyFaultDo;
    }
  }

  lemma FailureKeepsFault(env: Env, s: System, step: Step, id: CommandId, alone: bool)
    requires env.policy.Valid() && Enabled(env, s, step) && FaultFollows(s, id, alone)
    requires step.StopAfterFailure? || step.CheckAfterFailure? || step.ApplyFault?
    ensures FaultFollows(Do(env, s, step), id, alone)
  {
    hide Admissible, TimesIncrease, StopOutcome, OtherEnabled, BeginDo, BusyDo, CancelDo, StopNowDo, CheckStopDo, FaultStopDo,
      SessionDo, SessionEnabled, ReadStateDo, AcceptDo, ApplyAcceptDo, StartClockDo, RecheckDo, WriteDo, ReadFreshDo, CommitDo,
      StopAfterCancelDo, CheckAfterCancelDo, ApplyCanceledDo, ClearActiveDo, ReleaseDo;
  }

  lemma BodyKeepsFault(env: Env, s: System, step: Step, id: CommandId, alone: bool)
    requires env.policy.Valid() && Enabled(env, s, step) && FaultFollows(s, id, alone)
    requires (!ByOtherThread(step) || step.Begin?) && !Ending(step)
    ensures FaultFollows(Do(env, s, step), id, alone)
  {
    if Moves(step) {
      hide Enabled, Do;
      MovingKeepsFault(env, s, step, id, alone);
    } else {
      hide Admissible, TimesIncrease, StopOutcome, BusyDo, CancelDo, StopNowDo, CheckStopDo, FaultStopDo, SessionDo,
        SessionEnabled, StopAfterCancelDo, CheckAfterCancelDo, ApplyCanceledDo, StopAfterFailureDo, CheckAfterFailureDo, ApplyFaultDo,
        ClearActiveDo, ReleaseDo, IsCanceled, StartClockDo, RecheckDo, WriteDo, ReadFreshDo, CommitDo;
    }
  }

  lemma MovingKeepsFault(env: Env, s: System, step: Step, id: CommandId, alone: bool)
    requires env.policy.Valid() && Enabled(env, s, step) && FaultFollows(s, id, alone) && Moves(step)
    ensures FaultFollows(Do(env, s, step), id, alone)
  {
    hide Admissible, TimesIncrease, StopOutcome, OtherEnabled, BeginDo, BusyDo, CancelDo, StopNowDo, CheckStopDo,
      FaultStopDo, SessionDo, SessionEnabled, StopAfterCancelDo, CheckAfterCancelDo, ApplyCanceledDo, StopAfterFailureDo,
      CheckAfterFailureDo, ApplyFaultDo, ClearActiveDo, ReleaseDo, ReadStateDo, AcceptDo, ApplyAcceptDo, IsCanceled;
    if step.CommitLane? {
      hide WriteDo, ReadFreshDo, StartClockDo, RecheckDo;
    } else {
      hide CommitDo, Transition;
    }
  }

  lemma {:induction false} FaultFollowsBegin(env: Env, states: seq<System>, steps: seq<Step>, b: nat, e: nat, id: CommandId,
                                              alone: bool)
    requires env.policy.Valid() && Run(env, states, steps) && b < e < |states|
    requires steps[b].Begin? && states[b].nextId == id && states[b].driver in {Idle, Executing, Fault}
    requires forall m | b < m < e :: !steps[m].Session? && (alone ==> !steps[m].CancellerApply?)
    ensures FaultFollows(states[e], id, alone)
  {
    hide Enabled, Do, FaultFollows;
    if e == b + 1 {
      BeginsWithoutFault(env, states[b], steps[b], alone);
    } else {
      FaultFollowsBegin(env, states, steps, b, e - 1, id, alone);
      StepKeepsFault(env, states[e - 1], steps[e - 1], id, alone);
    }
  }

  lemma BeginsWithoutFault(env: Env, s: System, step: Step, alone: bool)
    requires env.policy.Valid() && Enabled(env, s, step) && step.Begin? && s.driver in {Idle, Executing, Fault}
    ensures FaultFollows(Do(env, s, step), s.nextId, alone)
  {
  }

  /** A command that fails leaves the driver in FAULT, unless a session operation acted since it began;
      and its exception escapes only if one did or another thread applied a fault. */
  lemma FailureEndsInFault(env: Env, states: seq<System>, steps: seq<Step>, b: nat, e: nat)
    requires env.policy.Valid() && Run(env, states, steps) && b < e < |states|
    requires steps[b].Begin? && states[b].driver in {Idle, Executing, Fault}
    requires states[e].worker.Worker? && states[e].worker.id == states[b].nextId && states[e].worker.pc.Release?
    requires forall m | b < m < e :: !steps[m].Session?
    ensures states[e].worker.pc.outcome == Return(Failed) ==> states[e].driver == Fault
    ensures states[e].worker.pc.outcome == Escape ==> exists m :: b < m < e && steps[m] == CancellerApply
  {
    hide Enabled, Do;
    FaultFollowsBegin(env, states, steps, b, e, states[b].nextId, false);
    if forall m | b < m < e :: steps[m] != CancellerApply {
      FaultFollowsBegin(env, states, steps, b, e, states[b].nextId, true);
    }
  }
}
