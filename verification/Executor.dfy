/**
 TrajectoryExecutor as an object: the lock-protected blocks of executor.py update its fields, each
 proved to be one step of the protocol, and `Execute` runs them in order while other threads
 interfere between any two. The ghost run makes every theorem about runs a theorem about this code.
 */
module Executor {
  import opened Prelude
  import opened Trajectories
  import opened Safety
  import opened DriverStates
  import opened ExecutorModel
  import opened ExecutorLog
  import opened ExecutorInvariant
  import opened ExecutorLifecycle
  import opened ExecutorProgress
  import opened ExecutorTheorems
  import opened Validator

  /** How a part of the try body ended: it reached its outcome, or an exception is on its way. */
  datatype Ending = Ended(outcome: Outcome) | Raising

  // Each lemma below says when one step can be taken and what it leaves behind.

  lemma CancelStep(env: Env, s: System, ok: bool)
    requires env.policy.Valid() && s.lane.Free? && s.active.Some?
    ensures Enabled(env, s, CancelCall(ok))
    ensures var t := Do(env, s, CancelCall(ok));
      var outcome := StopOutcome(s, s.active.value, StopReply(s, ok));
      t == s.(generation := s.generation + 1, memo := Stopped(s.active.value, outcome),
              lane := Checking(s.active.value, outcome), log := t.log)
  {
  }

  lemma StopNowStep(env: Env, s: System, ok: bool)
    requires env.policy.Valid() && s.lane.Free?
    ensures Enabled(env, s, StopNowCall(ok))
    ensures var t := Do(env, s, StopNowCall(ok));
      var id := if s.active.Some? then s.active.value else s.nextId;
      var outcome := StopOutcome(s, id, StopReply(s, ok));
      t == s.(generation := s.generation + 1, memo := Stopped(id, outcome), lane := Checking(id, outcome), log := t.log,
              nextId := if s.active.Some? then s.nextId else s.nextId + 1)
  {
  }

  lemma StopAfterFailureStep(env: Env, s: System, ok: bool)
    requires env.policy.Valid() && s.worker.Worker? && s.worker.pc.FailStop? && LaneOpenToWorker(s)
    ensures Enabled(env, s, StopAfterFailure(ok))
    ensures var t := Do(env, s, StopAfterFailure(ok));
      t == At(s, FailCheck(s.worker.pc.handling)).(memo := Stopped(s.worker.id, StopOutcome(s, s.worker.id, StopReply(s, ok))), log := t.log)
  {
  }

  lemma CheckAfterFailureStep(env: Env, s: System)
    requires env.policy.Valid() && s.worker.Worker? && s.worker.pc.FailCheck?
    ensures Enabled(env, s, CheckAfterFailure)
    ensures Do(env, s, CheckAfterFailure) == CheckAfterFailureDo(s)
  {
  }

  lemma ApplyFaultStep(env: Env, s: System)
    requires env.policy.Valid() && s.worker.Worker? && s.worker.pc.FailApply?
    ensures Enabled(env, s, ApplyFault)
    ensures Do(env, s, ApplyFault) == ApplyFaultDo(s)
  {
  }

  lemma StopAfterCancelStep(env: Env, s: System, ok: bool)
    requires env.policy.Valid() && s.worker.Worker? && s.worker.pc.CancelStop? && LaneOpenToWorker(s)
    ensures Enabled(env, s, StopAfterCancel(ok))
    ensures var t := Do(env, s, StopAfterCancel(ok));
      var outcome := StopOutcome(s, s.worker.id, StopReply(s, ok));
      t == At(s, CancelCheck(outcome)).(memo := Stopped(s.worker.id, outcome), log := t.log)
  {
  }

  lemma CheckAfterCancelStep(env: Env, s: System)
    requires env.policy.Valid() && s.worker.Worker? && s.worker.pc.CancelCheck?
    ensures Enabled(env, s, CheckAfterCancel)
    ensures Do(env, s, CheckAfterCancel) == CheckAfterCancelDo(s)
  {
  }

  lemma ApplyCanceledStep(env: Env, s: System)
    requires env.policy.Valid() && s.worker.Worker? && s.worker.pc.CancelApply?
    ensures Enabled(env, s, ApplyCanceled)
    ensures Do(env, s, ApplyCanceled) == ApplyCanceledDo(s)
  {
  }

  lemma AcceptStep(env: Env, s: System)
    requires env.policy.Valid() && s.worker.Worker? && s.worker.pc.Accept? && s.lane.Free?
    ensures Enabled(env, s, AcceptLane)
    ensures var t := Do(env, s, AcceptLane);
      t == s.(worker := s.worker.(accepted := true, generation := s.generation, pc := ApplyAccepted),
              active := Some(s.worker.id), memo := NoStop, log := t.log)
  {
  }

  lemma ApplyAcceptStep(env: Env, s: System)
    requires env.policy.Valid() && s.worker.Worker? && s.worker.pc.ApplyAccepted?
    ensures Enabled(env, s, ApplyAccept) && Do(env, s, ApplyAccept) == ApplyAcceptDo(s)
  {
  }

  lemma StartClockStep(env: Env, s: System)
    requires env.policy.Valid() && s.worker.Worker? && s.worker.pc.ReadClock?
    ensures Enabled(env, s, StartClock)
    ensures var t := Do(env, s, StartClock);
      t == s.(worker := s.worker.(start := s.now, pc := AfterPoint(s.worker, 0)), log := t.log)
  {
  }

  lemma WriteStep(env: Env, s: System, reply: Reply)
    requires env.policy.Valid() && s.worker.Worker? && s.worker.pc.WriteLane? && PointIndexOk(s.worker) && s.lane.Free?
    ensures Enabled(env, s, WriteTarget(reply))
    ensures var t := Do(env, s, WriteTarget(reply));
      && t == s.(worker := t.worker, lane := t.lane, log := t.log)
      && t.lane == (if IsCanceled(s) then HeldByWorker else Free)
      && t.worker == s.worker.(pc := if IsCanceled(s) then CancelStop
                                     else match WriteReply(s, reply)
                                          case Acknowledged => ReadBack(s.worker.pc.k)
                                          case Refused => FailStop(false)
                                          case Raised => FailStop(true))
  {
  }

  lemma CommitStep(env: Env, s: System)
    requires env.policy.Valid() && s.worker.Worker? && s.worker.pc.Commit? && s.lane.Free?
    ensures Enabled(env, s, CommitLane) && Do(env, s, CommitLane) == CommitDo(s)
  {
  }

  lemma BeginStep(env: Env, s: System, measured: JointVector, points: seq<TrajectoryPoint>, stamp: Stamp)
    requires env.policy.Valid() && !s.worker.Worker?
    ensures Enabled(env, s, Begin(measured, points, stamp))
    ensures Do(env, s, Begin(measured, points, stamp)) == BeginDo(s, measured, points, stamp)
  {
  }

  lemma WaitReturnsStep(env: Env, s: System)
    requires env.policy.Valid() && s.worker.Worker? && s.worker.pc.Wait? && PointIndexOk(s.worker)
    requires IsCanceled(s) || s.worker.start + s.worker.points[s.worker.pc.k].time <= s.now
    ensures Enabled(env, s, WaitReturns)
    ensures Do(env, s, WaitReturns) == At(s, Recheck(s.worker.pc.k))
  {
  }

  lemma AdmissionSteps(env: Env, s: System)
    requires env.policy.Valid() && s.worker.Worker?
    ensures s.worker.pc.Admit? ==> Enabled(env, s, ReadState) && Do(env, s, ReadState) == ReadStateDo(s)
    ensures s.worker.pc.Validate? && !Admissible(env, s.worker, s.now) ==>
      Enabled(env, s, ValidateRejects) && Do(env, s, ValidateRejects) == Leave(s, Return(Rejected))
    ensures s.worker.pc.Validate? && s.worker.points != [] && TimesIncrease(s.worker.points)
            && Admissible(env, s.worker, s.now) ==>
      Enabled(env, s, ValidatePasses) && Do(env, s, ValidatePasses) == At(s, Accept)
  {
    hide Admissible, TimesIncrease;
  }

  lemma AdmissibleAnywhere(env: Env, w: Worker, pc: Pc, now: real)
    requires env.policy.Valid() && w.Worker?
    ensures Admissible(env, w.(pc := pc), now) == Admissible(env, w, now)
  {
    hide Safe;
  }

  lemma ReadSteps(env: Env, s: System)
    requires env.policy.Valid() && s.worker.Worker? && s.worker.pc.ReadBack? && PointIndexOk(s.worker)
    ensures s.connected ==> Enabled(env, s, ReadFresh) && Do(env, s, ReadFresh) == ReadFreshDo(s)
    ensures s.connected ==> Enabled(env, s, ReadStale) && Do(env, s, ReadStale) == At(s, FailStop(false))
  {
  }

  lemma RaiseStep(env: Env, s: System)
    requires env.policy.Valid() && s.worker.Worker? && PointIndexOk(s.worker) && MayRaise(s.worker.pc)
    ensures Enabled(env, s, Raise) && Do(env, s, Raise) == Handle(s)
  {
  }

  lemma ClearStep(env: Env, s: System)
    requires env.policy.Valid() && s.worker.Worker? && s.worker.pc.Finally? && s.lane.Free?
    ensures Enabled(env, s, ClearActive) && Do(env, s, ClearActive) == ClearActiveDo(s)
  {
  }

  lemma ReleaseStep(env: Env, s: System)
    requires env.policy.Valid() && s.worker.Worker? && s.worker.pc.Release?
    ensures Enabled(env, s, ReleaseLock) && Do(env, s, ReleaseLock) == ReleaseDo(s)
  {
  }

  /** The event that a step hands to the shared state machine, which may refuse it. */
  function AppliedEvent(s: System, step: Step): Option<DriverEvent> {
    match step
    case CancellerApply => Some(FaultDetected)
    case ApplyAccept => Some(ExecutionAccepted)
    case CommitLane => if s.worker.Worker? && IsCanceled(s) then None else Some(ExecutionSucceeded)
    case ApplyCanceled => Some(ExecutionCanceled)
    case ApplyFault => Some(FaultDetected)
    case Session(OpenRequest) => Some(ConnectRequested)
    case Session(OpenApply) => Some(ConnectSucceeded)
    case Session(FailOpen) => Some(ConnectFailed)
    case Session(Withdraw) => Some(DisconnectRequested)
    case Session(Close) => Some(DisconnectRequested)
    case Session(RecoverRequest) => Some(RecoveryRequested)
    case Session(RecoverApply(ok)) => Some(if ok then RecoverySucceeded else RecoveryFailed)
    case _ => None
  }

  function DriverAfter(driver: DriverState, event: Option<DriverEvent>): DriverState {
    match event
    case Some(e) => (match Transition(driver, e) case Some(next) => next case None => driver)
    case None => driver
  }

  /** Whatever thread takes it, a step changes the driver state only through that event. */
  lemma EventOfStep(env: Env, s: System, step: Step)
    requires env.policy.Valid() && Enabled(env, s, step)
    ensures Do(env, s, step).driver == DriverAfter(s.driver, AppliedEvent(s, step))
  {
    hide Enabled, Do;
    if step.Session? {
      EventOfSessionStep(env, s, step);
    } else if ByOtherThread(step) {
      EventOfOtherStep(env, s, step);
    } else {
      EventOfWorkerStep(env, s, step);
    }
  }

  lemma EventOfSessionStep(env: Env, s: System, step: Step)
    requires env.policy.Valid() && Enabled(env, s, step) && step.Session?
    ensures Do(env, s, step).driver == DriverAfter(s.driver, AppliedEvent(s, step))
  {
    hide Safe, TimesIncrease, WorkerEnabled, StopNowDo, Transition;
    if step.act.StopForClose? {
      StopNowFrame(s, StopReply(s, step.act.ok));
    }
  }

  lemma EventOfOtherStep(env: Env, s: System, step: Step)
    requires env.policy.Valid() && Enabled(env, s, step) && ByOtherThread(step) && !step.Session?
    ensures Do(env, s, step).driver == DriverAfter(s.driver, AppliedEvent(s, step))
  {
    hide Safe, TimesIncrease, WorkerEnabled, SessionEnabled, SessionDo, Transition, StopOutcome;
  }

  lemma EventOfWorkerStep(env: Env, s: System, step: Step)
    requires env.policy.Valid() && Enabled(env, s, step) && !ByOtherThread(step)
    ensures Do(env, s, step).driver == DriverAfter(s.driver, AppliedEvent(s, step))
  {
    hide Safe, TimesIncrease, OtherEnabled, Transition, StopOutcome;
  }

  lemma SessionStepMoves(env: Env, s: System, act: Act)
    requires env.policy.Valid() && SessionEnabled(s, act)
    ensures Enabled(env, s, Session(act)) && Do(env, s, Session(act)) == SessionDo(s, act)
    ensures SessionDo(s, act).now == s.now && (SessionDo(s, act).lane.HeldByWorker? <==> s.lane.HeldByWorker?)
  {
    hide Safe, TimesIncrease, WorkerEnabled, StopOutcome, Transition;
  }

  /** The blocks of the thread that holds the session's lifecycle lock, in the order they were taken. */
  function LifecycleActs(trace: seq<Step>): seq<Act> {
    if trace == [] then []
    else
      var last := trace[|trace| - 1];
      LifecycleActs(trace[..|trace| - 1]) + (if last.Session? && !ByRecover(last.act) then [last.act] else [])
  }

  predicate ByRecover(act: Act) {
    act.RecoverRequest? || act.RecoverRead? || act.RecoverApply?
  }

  lemma {:induction false} OneMoreAct(trace: seq<Step>, step: Step)
    ensures LifecycleActs(trace + [step])
         == LifecycleActs(trace) + (if step.Session? && !ByRecover(step.act) then [step.act] else [])
  {
    assert (trace + [step])[..|trace|] == trace;
  }

  /** Whether a step can be one of another thread than the caller, who may hold the lifecycle lock and
      may have some of the recoveries under way as its own. */
  predicate Foreign(s: System, step: Step, holdsLifecycle: bool, mine: Recoveries) {
    && (holdsLifecycle && step.Session? ==> ByRecover(step.act))
    && (holdsLifecycle && s.lifecycle.StopHeld? ==> !step.CancellerCheck? && !step.CancellerApply?)
    && (step.Session? && step.act.RecoverRead? ==> s.recoveries.reading > mine.reading)
    && (step.Session? && step.act.RecoverApply? ==>
          if step.act.ok then s.recoveries.succeeded > mine.succeeded else s.recoveries.failed > mine.failed)
  }

  predicate Covers(all: Recoveries, mine: Recoveries) {
    all.reading >= mine.reading && all.succeeded >= mine.succeeded && all.failed >= mine.failed
  }

  /** What steps of other threads leave to the holder of the lifecycle lock. */
  predicate KeepsForLifecycle(s: System, t: System) {
    && t.lifecycle == s.lifecycle && t.connected == s.connected
    && (t.driver == Disconnected <==> s.driver == Disconnected)
    && (s.lifecycle.StopHeld? ==> t.lane == s.lane)
  }

  /** A step of another thread leaves the caller's lock and recoveries alone. */
  lemma ForeignStepFrame(env: Env, s: System, step: Step, holdsLifecycle: bool, mine: Recoveries)
    requires env.policy.Valid() && Enabled(env, s, step) && LifecycleOk(s)
    requires Foreign(s, step, holdsLifecycle, mine) && Covers(s.recoveries, mine)
    ensures Covers(Do(env, s, step).recoveries, mine)
    ensures holdsLifecycle ==> KeepsForLifecycle(s, Do(env, s, step))
  {
    hide Enabled, Do;
    DisconnectedStep(env, s, step);
    if ByOtherThread(step) {
      ForeignOtherStepFrame(env, s, step, holdsLifecycle, mine);
    } else {
      WorkerStepFrame(env, s, step);
    }
  }

  lemma ForeignOtherStepFrame(env: Env, s: System, step: Step, holdsLifecycle: bool, mine: Recoveries)
    requires env.policy.Valid() && Enabled(env, s, step) && LifecycleOk(s) && ByOtherThread(step)
    requires Foreign(s, step, holdsLifecycle, mine) && Covers(s.recoveries, mine)
    ensures var t := Do(env, s, step);
      && Covers(t.recoveries, mine)
      && (holdsLifecycle ==> t.lifecycle == s.lifecycle && t.connected == s.connected)
      && (holdsLifecycle && s.lifecycle.StopHeld? ==> t.lane == s.lane)
  {
    hide Safe, TimesIncrease, WorkerEnabled, Transition, CancelDo, StopNowDo, SessionEnabled, SessionDo;
    match step
    case CancelCall(ok) => CancelFrame(s, s.active.value, s.nextId, StopReply(s, ok));
    case StopNowCall(ok) => StopNowKeepsSession(s, StopReply(s, ok));
    case Session(act) => ForeignSessionFrame(s, act, holdsLifecycle, mine);
    case _ =>
  }

  lemma CancelFrame(s: System, id: CommandId, nextId: CommandId, ok: bool)
    ensures var t := CancelDo(s, id, nextId, ok);
      t.lifecycle == s.lifecycle && t.connected == s.connected && t.recoveries == s.recoveries
  {
  }

  lemma ForeignSessionFrame(s: System, act: Act, holdsLifecycle: bool, mine: Recoveries)
    requires SessionEnabled(s, act) && Foreign(s, Session(act), holdsLifecycle, mine) && Covers(s.recoveries, mine)
    ensures var t := SessionDo(s, act);
      && Covers(t.recoveries, mine)
      && (holdsLifecycle ==> t.lifecycle == s.lifecycle && t.connected == s.connected && t.lane == s.lane)
  {
    hide StopNowDo, Transition;
    if act.StopForClose? {
      StopNowKeepsSession(s, StopReply(s, act.ok));
    }
  }

  /** The next step of whoever holds the command lane. */
  function LaneStep(s: System, reply: bool): Step
    requires !s.lane.Free? && (s.lane.HeldByWorker? ==> s.worker.Worker?)
  {
    match s.lane
    case Checking(_, _) => CancellerCheck
    case Faulting(_) => CancellerApply
    case HeldByWorker =>
      match s.worker.pc
      case CancelStop => StopAfterCancel(reply)
      case CancelCheck(_) => CheckAfterCancel
      case CancelApply => ApplyCanceled
      case FailStop(_) => StopAfterFailure(reply)
      case FailCheck(_) => CheckAfterFailure
      case _ => ApplyFault
  }

  /** How many steps of its holder the lane is away from being free. */
  function LaneRank(s: System): nat {
    match s.lane
    case Free => 0
    case Checking(_, _) => 2
    case Faulting(_) => 1
    case HeldByWorker =>
      if !s.worker.Worker? then 9
      else
        match s.worker.pc
        case CancelStop => 8
        case CancelCheck(_) => 7
        case CancelApply => 6
        case FailStop(_) => 5
        case FailCheck(_) => 4
        case _ => 3
  }

  lemma LaneIsReleased(env: Env, s: System, reply: bool)
    requires env.policy.Valid() && OwnerOk(s) && !s.lane.Free?
    ensures s.lane.HeldByWorker? ==> s.worker.Worker?
    ensures Enabled(env, s, LaneStep(s, reply)) && LaneRank(Do(env, s, LaneStep(s, reply))) < LaneRank(s)
  {
    hide Safe, TimesIncrease, StopOutcome;
    match s.lane
    case Checking(_, _) =>
    case Faulting(_) =>
    case HeldByWorker => WorkerReleasesLane(env, s, reply);
  }

  lemma WorkerReleasesLane(env: Env, s: System, reply: bool)
    requires env.policy.Valid() && OwnerOk(s) && s.lane.HeldByWorker?
    ensures s.worker.Worker?
    ensures Enabled(env, s, LaneStep(s, reply)) && LaneRank(Do(env, s, LaneStep(s, reply))) < LaneRank(s)
  {
    hide Safe, TimesIncrease, StopOutcome, Transition;
  }

  lemma LaneStepIsForeign(s: System, reply: bool, mine: Recoveries)
    requires !s.lane.Free? && (s.lane.HeldByWorker? ==> s.worker.Worker?) && s.lifecycle.StopPending?
    ensures Foreign(s, LaneStep(s, reply), true, mine)
  {
  }

  lemma LaneStepIsAnswered(hardware: Hardware, s: System, reply: bool)
    requires !s.lane.Free? && (s.lane.HeldByWorker? ==> s.worker.Worker?)
    requires s.worker.Worker? ==> reply == hardware.stop(s.worker.id)
    ensures Answered(hardware, s, LaneStep(s, reply))
  {
  }

  lemma ForeignAct(s: System, step: Step, mine: Recoveries)
    requires Foreign(s, step, true, mine)
    ensures step.Session? ==> ByRecover(step.act)
  {
  }

  lemma LaneStepMoves(env: Env, s: System)
    requires env.policy.Valid()
    ensures s.lane.Checking? ==> Enabled(env, s, CancellerCheck) && Do(env, s, CancellerCheck) == CheckStopDo(s)
    ensures s.lane.Faulting? ==> Enabled(env, s, CancellerApply) && Do(env, s, CancellerApply) == FaultStopDo(s)
  {
    hide CheckStopDo, FaultStopDo;
  }

  lemma SucceededIsAccepted(env: Env, s: System)
    requires env.policy.Valid() && Inv(env, s) && s.worker.Worker? && s.worker.pc == Release(Return(Succeeded))
    ensures Accepted(s.worker.id, s.worker.measured, s.worker.points) in s.log
  {
    hide LogOk, IdsOk, OwnerOk, WritesOf, Safe, TimesIncrease, AllAcknowledged;
  }

  lemma {:induction false} SuccessIsWritten(env: Env, log: seq<Event>, id: CommandId, measured: JointVector, points: seq<TrajectoryPoint>)
    requires env.policy.Valid() && LogOk(env, log) && ResultOk(log, id, Succeeded) && Accepted(id, measured, points) in log
    ensures var writes := WritesOf(log, id);
      && |writes| == |points|
      && forall k | 0 <= k < |points| ::
           writes[k].Wrote? && writes[k].index == k && writes[k].target == points[k].position && writes[k].reply == Acknowledged
  {
    hide Safe, TimesIncrease, WritesOf;
    assert FollowsPlan(env, log, id);
    assert WritesFit(WritesOf(log, id), points);
  }

  class TrajectoryExecutor {
    const env: Env
    const hardware: Hardware
    const machine: DriverStateMachine
    const validator: TrajectoryValidator
    var cancellationGeneration: nat
    var activeCommandId: Option<CommandId>
    var stopOutcome: Memo
    var lane: Lane
    var executing: bool
    var clock: real
    var nextId: CommandId
    var connected: bool
    var lifecycle: Lifecycle
    var recoveries: Recoveries
    var protocol: System
    ghost var states: seq<System>
    ghost var trace: seq<Step>

    ghost predicate Valid()
      reads this, machine
    {
      && env.policy.Valid() && validator.policy == env.policy && validator.kinematics == env.kin
      && machine.Valid()
      && Run(env, states, trace) && ByHardware(hardware, states, trace)
      && protocol == states[|trace|]
      && Mirrors(protocol)
    }

    /** The fields show the present state of the protocol, whose value `protocol` also has the place of
        the executing thread and the log: on these depends what other threads can do next. */
    ghost predicate Mirrors(s: System)
      reads this, machine
    {
      && s.driver == machine.state
      && s.generation == cancellationGeneration
      && s.active == activeCommandId
      && s.memo == stopOutcome
      && s.lane == lane
      && s.worker.Worker? == executing
      && s.now == clock
      && s.nextId == nextId
      && s.connected == connected && s.lifecycle == lifecycle && s.recoveries == recoveries
    }

    ghost function Now(): System
      reads this, machine
      requires Valid()
    {
      states[|trace|]
    }

    /** The run has been extended by exactly this step. */
    ghost predicate Took(before: seq<System>, earlier: seq<Step>, step: Step)
      reads this`states, this`trace
      requires env.policy.Valid()
    {
      && |before| == |earlier| + 1
      && Enabled(env, before[|earlier|], step)
      && states == before + [Do(env, before[|earlier|], step)]
      && trace == earlier + [step]
    }

    twostate predicate Extended()
      reads this`states, this`trace
    {
      old(states) <= states && old(trace) <= trace
    }

    /** What steps of other threads leave to the executing thread: its own place, the lane if it holds
        it, and a clock that does not run backwards. */
    twostate predicate OthersActed()
      requires old(Valid()) && Valid()
      reads this, machine
    {
      && Extended()
      && Now().worker == old(Now().worker)
      && (old(lane).HeldByWorker? <==> lane.HeldByWorker?)
      && clock >= old(clock)
    }

    constructor (hardware: Hardware, validator: TrajectoryValidator, machine: DriverStateMachine)
      requires validator.policy.Valid() && machine.Valid() && machine.state == Disconnected
      ensures Valid() && this.validator == validator && this.machine == machine && this.hardware == hardware && Now() == INITIAL
    {
      this.hardware := hardware;
      this.env := Env(validator.policy, validator.kinematics);
      this.validator := validator;
      this.machine := machine;
      cancellationGeneration, activeCommandId, stopOutcome, lane := 0, None, NoStop, Free;
      executing, clock, nextId := false, 0.0, 0;
      connected, lifecycle, recoveries, protocol := false, Resting, Recoveries(0, 0, 0), INITIAL;
      states, trace := [INITIAL], [];
    }

    method Take(step: Step)
      requires env.policy.Valid() && Run(env, states, trace) && protocol == states[|trace|] && Enabled(env, protocol, step)
      requires ByHardware(hardware, states, trace) && Answered(hardware, protocol, step)
      modifies this`protocol, this`states, this`trace
      ensures Run(env, states, trace) && ByHardware(hardware, states, trace) && Took(old(states), old(trace), step) && Extended()
      ensures protocol == states[|trace|] == Do(env, old(states[|trace|]), step) && trace == old(trace) + [step]
    {
      hide Do, Enabled, Answered;
      protocol := Do(env, protocol, step);
      states, trace := states + [protocol], trace + [step];
    }

    /** One step of whatever thread takes it. */
    method AnyStep(step: Step)
      requires Valid() && Enabled(env, protocol, step) && Answered(hardware, protocol, step)
      modifies this, machine
      ensures Valid() && Took(old(states), old(trace), step) && Extended()
      ensures protocol == Do(env, old(protocol), step) && trace == old(trace) + [step]
    {
      hide Run, ByHardware, Took, Enabled, Do, AppliedEvent, Transition, Chained;
      var event := AppliedEvent(protocol, step);
      EventOfStep(env, protocol, step);
      if event.Some? {
        var r := machine.Apply(event.value, "shared state machine", None, clock);
      }
      Take(step);
      Follow();
    }

    /** The fields take the values of the protocol. */
    method Follow()
      modifies this`cancellationGeneration, this`activeCommandId, this`stopOutcome, this`lane, this`executing, this`clock,
        this`nextId, this`connected, this`lifecycle, this`recoveries
      ensures machine.state == protocol.driver ==> Mirrors(protocol)
    {
      cancellationGeneration, activeCommandId, stopOutcome := protocol.generation, protocol.active, protocol.memo;
      lane, executing, clock, nextId := protocol.lane, protocol.worker.Worker?, protocol.now, protocol.nextId;
      connected, lifecycle, recoveries := protocol.connected, protocol.lifecycle, protocol.recoveries;
    }

    // -------------------------------------------------------------------------------------------
    // Blocks of other threads
    // -------------------------------------------------------------------------------------------

    /** Hardware stop, reached only if this command has no recorded outcome; a released adapter raises,
        which counts as a failed stop. */
    method IssueStopLocked(id: CommandId, reply: bool) returns (ok: bool)
      modifies this`stopOutcome
      ensures ok == if old(stopOutcome).Stopped? && old(stopOutcome).id == id then old(stopOutcome).ok else reply && connected
      ensures stopOutcome == Stopped(id, ok)
    {
      if stopOutcome.Stopped? && stopOutcome.id == id {
        return stopOutcome.ok;
      }
      ok := reply && connected;
      stopOutcome := Stopped(id, ok);
    }

    /** Bump the generation and issue one bounded stop, which the lane then carries to the state check. */
    method BumpAndStop(id: CommandId, next: CommandId, reply: bool)
      modifies this`cancellationGeneration, this`nextId, this`stopOutcome, this`lane
      ensures cancellationGeneration == old(cancellationGeneration) + 1 && nextId == next
      ensures lane.Checking? && lane.id == id && stopOutcome == Stopped(id, lane.ok)
      ensures lane.ok == if old(stopOutcome).Stopped? && old(stopOutcome).id == id then old(stopOutcome).ok else reply && connected
    {
      cancellationGeneration, nextId := cancellationGeneration + 1, next;
      var ok := IssueStopLocked(id, reply);
      lane := Checking(id, ok);
    }

    /** The block up to the state check for an active command: bump, stop, and keep the lane. */
    method CancelActive(id: CommandId, reply: bool)
      requires Valid() && lane.Free? && activeCommandId == Some(id)
      modifies this
      ensures Valid() && Took(old(states), old(trace), CancelCall(reply)) && OthersActed()
    {
      hide Run, ByHardware, Took, Enabled, Do, Transition, Chained;
      CancelStep(env, protocol, reply);
      Take(CancelCall(reply));
      BumpAndStop(id, nextId, reply);
    }

    /** cancel_current_command, up to the state check; false when no command is active. */
    method CancelBlock(reply: bool) returns (accepted: bool)
      requires Valid() && lane.Free?
      modifies this
      ensures Valid() && accepted == old(activeCommandId).Some?
      ensures accepted ==> Took(old(states), old(trace), CancelCall(reply))
      ensures OthersActed()
      ensures !accepted ==> unchanged(this)
    {
      hide Run, ByHardware, Took, Mirrors;
      if activeCommandId.None? {
        return false;
      }
      CancelActive(activeCommandId.value, reply);
      return true;
    }

    /** stop_now, up to the state check: a stop without an active command gets a fresh id. */
    method StopNowBlock(reply: bool)
      requires Valid() && lane.Free?
      modifies this
      ensures Valid() && Took(old(states), old(trace), StopNowCall(reply)) && OthersActed()
    {
      hide Run, ByHardware, Took, Enabled, Do, Transition, Chained, IsCanceled;
      StopNowStep(env, protocol, reply);
      Take(StopNowCall(reply));
      if activeCommandId.Some? {
        BumpAndStop(activeCommandId.value, nextId, reply);
      } else {
        BumpAndStop(nextId, nextId + 1, reply);
      }
    }

    /** The state check of _fault_after_stop_failure_locked. */
    method CheckStopBlock()
      requires Valid() && lane.Checking?
      modifies this
      ensures Valid() && Took(old(states), old(trace), CancellerCheck) && OthersActed()
      ensures lane.Free? || lane.Faulting?
    {
      hide Run, ByHardware, Took, WorkerEnabled, Transition, Chained;
      Take(CancellerCheck);
      if !lane.ok && (machine.state == Idle || machine.state == Executing) {
        lane := Faulting(lane.id);
      } else {
        lane, lifecycle := Free, AfterStop(lifecycle);
      }
    }

    /** The apply of _fault_after_stop_failure_locked; its exception leaves the lane block too. */
    method FaultStopBlock()
      requires Valid() && lane.Faulting?
      modifies this, machine
      ensures Valid() && Took(old(states), old(trace), CancellerApply) && OthersActed()
      ensures lane.Free?
    {
      hide Run, ByHardware, Took, WorkerEnabled, Transition, Chained;
      Take(CancellerApply);
      var r := machine.Apply(FaultDetected, "Bounded stop did not succeed", Some(lane.id), clock);
      lane, lifecycle := Free, AfterStop(lifecycle);
    }

    /** One block of connect, disconnect or recover. */
    method SessionBlock(act: Act)
      requires Valid() && SessionEnabled(protocol, act)
      modifies this, machine
      ensures Valid() && Took(old(states), old(trace), Session(act)) && OthersActed()
      ensures protocol == SessionDo(old(protocol), act)
      ensures LifecycleActs(trace) == old(LifecycleActs(trace)) + (if ByRecover(act) then [] else [act])
    {
      hide Run, ByHardware, Took, SessionEnabled, SessionDo;
      OneMoreAct(trace, Session(act));
      SessionStepFrame(protocol, act);
      SessionStepMoves(env, protocol, act);
      AnyStep(Session(act));
    }

    method TickBlock(dt: real)
      requires Valid() && dt >= 0.0
      modifies this
      ensures Valid() && Took(old(states), old(trace), Tick(dt)) && OthersActed()
    {
      hide Run, ByHardware, Took, WorkerEnabled;
      Take(Tick(dt));
      clock := clock + dt;
    }

    /** Time passes until the deadline. */
    method TickTo(deadline: real)
      requires Valid() && clock < deadline
      modifies this
      ensures Valid() && OthersActed() && clock == deadline && cancellationGeneration == old(cancellationGeneration)
    {
      hide Run, ByHardware, Took, WorkerEnabled;
      Take(Tick(deadline - clock));
      clock := deadline;
    }

    /** `execute` while another thread owns the execution lock: a fresh id and a rejection. */
    method BusyBlock() returns (id: CommandId)
      requires Valid() && executing
      modifies this
      ensures Valid() && Took(old(states), old(trace), Busy) && OthersActed() && id == old(nextId)
      ensures Returned(id, Rejected) in Now().log
    {
      hide Run, ByHardware, Took, WorkerEnabled;
      Take(Busy);
      id, nextId := nextId, nextId + 1;
    }

    // -------------------------------------------------------------------------------------------
    // Interference
    // -------------------------------------------------------------------------------------------

    /** Any number of steps of other threads: cancels, stops, controller events, rejected commands
        and the passing of time. */
    method Interfere()
      requires Valid()
      modifies this, machine
      ensures Valid() && OthersActed()
    {
      hide Run, ByHardware, Mirrors, Took;
      var n: nat := *;
      while n > 0
        invariant Valid() && OthersActed()
      {
        var step: Step := *;
        OtherThread(step);
        n := n - 1;
      }
    }

    /** One step of another thread, if it is one and can be taken now. */
    method OtherThread(step: Step)
      requires Valid()
      modifies this, machine
      ensures Valid() && OthersActed()
    {
      hide Run, ByHardware, Mirrors, Took;
      match step {
        case CancelCall(reply) => if lane.Free? { var accepted := CancelBlock(reply); }
        case StopNowCall(reply) => if lane.Free? { StopNowBlock(reply); }
        case CancellerCheck => if lane.Checking? { CheckStopBlock(); }
        case CancellerApply => if lane.Faulting? { FaultStopBlock(); }
        case Session(act) => if SessionEnabled(protocol, act) { SessionBlock(act); }
        case Tick(dt) => if dt >= 0.0 { TickBlock(dt); }
        case Busy => if executing { var id := BusyBlock(); }
        case _ =>
      }
    }

    /** Wait for the command lane: a canceller that holds it finishes its check and apply. */
    method AcquireLane()
      requires Valid() && !lane.HeldByWorker?
      modifies this, machine
      ensures Valid() && OthersActed()
      ensures lane.Free?
    {
      hide Run, ByHardware, Mirrors, Took;
      Interfere();
      if lane.Checking? {
        CheckStopBlock();
      }
      if lane.Faulting? {
        FaultStopBlock();
      }
    }

    // -------------------------------------------------------------------------------------------
    // Interference as other threads see it
    // -------------------------------------------------------------------------------------------

    lemma InSession()
      requires Valid()
      ensures LifecycleOk(protocol) && Mirrors(protocol)
      ensures |states| == |trace| + 1 && protocol == states[|trace|]
    {
      hide Mirrors, LifecycleOk;
      RunKeepsLifecycle(env, states, trace, |trace|);
    }

    /** One step of another thread than the caller. */
    method ForeignStep(step: Step, holdsLifecycle: bool, mine: Recoveries)
      requires Valid() && Covers(recoveries, mine) && Enabled(env, protocol, step) && Foreign(protocol, step, holdsLifecycle, mine)
      requires Answered(hardware, protocol, step)
      modifies this, machine
      ensures Valid() && Extended() && Covers(recoveries, mine) && protocol == Do(env, old(protocol), step)
      ensures holdsLifecycle ==> KeepsForLifecycle(old(protocol), protocol)
      ensures holdsLifecycle ==> LifecycleActs(trace) == old(LifecycleActs(trace))
    {
      hide Run, ByHardware, Enabled, Do, LifecycleOk, Foreign, KeepsForLifecycle;
      InSession();
      ForeignStepFrame(env, protocol, step, holdsLifecycle, mine);
      if holdsLifecycle {
        ForeignAct(protocol, step, mine);
      }
      OneMoreAct(trace, step);
      AnyStep(step);
    }

    /** Any number of steps of other threads, the executing one included, while the caller may hold the
        session's lifecycle lock and has these recoveries under way. */
    method OthersRun(holdsLifecycle: bool, mine: Recoveries)
      requires Valid() && Covers(recoveries, mine)
      modifies this, machine
      ensures Valid() && Extended() && Covers(recoveries, mine)
      ensures holdsLifecycle ==> KeepsForLifecycle(old(protocol), protocol)
      ensures holdsLifecycle ==> LifecycleActs(trace) == old(LifecycleActs(trace))
    {
      hide Run, ByHardware, Mirrors, Enabled, Do, Foreign;
      var n: nat := *;
      while n > 0
        invariant Valid() && Extended() && Covers(recoveries, mine)
        invariant holdsLifecycle ==> KeepsForLifecycle(old(protocol), protocol)
        invariant holdsLifecycle ==> LifecycleActs(trace) == old(LifecycleActs(trace))
      {
        var step: Step := *;
        if Enabled(env, protocol, step) && Foreign(protocol, step, holdsLifecycle, mine) && Answered(hardware, protocol, step) {
          ForeignStep(step, holdsLifecycle, mine);
        }
        n := n - 1;
      }
    }

    /** The check or the apply of a disconnect that is inside stop_now. */
    method StopBlock()
      requires Valid() && lifecycle.StopHeld? && !lane.Free? && !lane.HeldByWorker?
      modifies this, machine
      ensures Valid() && Extended() && LifecycleActs(trace) == old(LifecycleActs(trace))
      ensures protocol == if old(lane).Checking? then CheckStopDo(old(protocol)) else FaultStopDo(old(protocol))
    {
      hide Run, ByHardware, Took, CheckStopDo, FaultStopDo;
      var step := if lane.Checking? then CancellerCheck else CancellerApply;
      OneMoreAct(trace, step);
      LaneStepMoves(env, protocol);
      AnyStep(step);
    }

    lemma OwnedLane()
      requires Valid()
      ensures OwnerOk(protocol)
    {
      hide Mirrors, Inv, OwnerOk;
      RunKeepsInv(env, states, trace, |trace|);
      OwnerPart(env, protocol);
    }

    /** The thread that disconnects waits for the command lane: whoever holds it finishes. */
    method AwaitLane()
      requires Valid() && lifecycle.StopPending?
      modifies this, machine
      ensures Valid() && Extended() && lane.Free? && KeepsForLifecycle(old(protocol), protocol)
      ensures LifecycleActs(trace) == old(LifecycleActs(trace))
    {
      hide Run, ByHardware, Enabled, Do, LaneStep, LaneRank, OwnerOk;
      var none := Recoveries(0, 0, 0);
      OthersRun(true, none);
      while !lane.Free?
        invariant Valid() && Extended() && KeepsForLifecycle(old(protocol), protocol)
        invariant LifecycleActs(trace) == old(LifecycleActs(trace))
        decreases LaneRank(protocol)
      {
        var reply := protocol.worker.Worker? && hardware.stop(protocol.worker.id);
        OwnedLane();
        LaneIsReleased(env, protocol, reply);
        LaneStepIsAnswered(hardware, protocol, reply);
        LaneStepIsForeign(protocol, reply, none);
        ForeignStep(LaneStep(protocol, reply), true, none);
      }
    }

    // -------------------------------------------------------------------------------------------
    // The executing thread
    // -------------------------------------------------------------------------------------------

    /** The executing thread has reached the given place of this command. */
    ghost predicate AtPc(w: Worker, pc: Pc)
      requires Valid() && w.Worker?
      reads this, machine
    {
      Now().worker == w.(pc := pc)
    }

    /** How the body leaves: at its outcome, or on the way into the except clause; never in the lane. */
    ghost predicate Left(id: CommandId, ending: Ending)
      requires Valid()
      reads this, machine
    {
      && !lane.HeldByWorker?
      && Now().worker.Worker? && Now().worker.id == id
      && match ending
         case Ended(outcome) => Now().worker.pc == Finally(outcome)
         case Raising => Now().worker.pc == FailStop(true)
    }

    /** The handler is where an exception leads. */
    lemma Raises(w: Worker)
      requires Valid() && w.Worker? && AtPc(w, FailStop(true)) && !lane.HeldByWorker?
      ensures Left(w.id, Raising)
    {
    }

    /** Other threads act while the executing thread is at its place. */
    method Yield(ghost w: Worker, ghost pc: Pc)
      requires Valid() && w.Worker? && AtPc(w, pc)
      modifies this, machine
      ensures Valid() && Extended() && AtPc(w, pc)
      ensures old(lane).HeldByWorker? <==> lane.HeldByWorker?
    {
      hide Run, ByHardware, Mirrors, Took;
      Interfere();
    }

    /** The executing thread waits for the command lane. */
    method EnterLane(ghost w: Worker, ghost pc: Pc)
      requires Valid() && w.Worker? && AtPc(w, pc) && !lane.HeldByWorker?
      modifies this, machine
      ensures Valid() && Extended() && AtPc(w, pc) && lane.Free?
    {
      hide Run, ByHardware, Mirrors, Took;
      AcquireLane();
    }

    /** The bounded stop of _finish_failed. */
    method FailStopBlock(ghost w: Worker, id: CommandId, ghost handling: bool)
      requires Valid() && w.Worker? && w.id == id && AtPc(w, FailStop(handling))
      requires lane.Free? || lane.HeldByWorker?
      modifies this
      ensures Valid() && Extended() && lane == old(lane) && AtPc(w, FailCheck(handling))
    {
      hide Run, ByHardware, Took, Enabled, Do;
      var reply := hardware.stop(id);
      StopAfterFailureStep(env, Now(), reply);
      Take(StopAfterFailure(reply));
      var ok := IssueStopLocked(id, reply);
    }

    /** The state check of _finish_failed; true when a fault is to be applied. */
    method FailCheckBlock(ghost w: Worker, ghost handling: bool) returns (go: bool)
      requires Valid() && w.Worker? && AtPc(w, FailCheck(handling))
      modifies this
      ensures Valid() && Extended()
      ensures go ==> lane == old(lane) && AtPc(w, FailApply(handling))
      ensures !go ==> Left(w.id, Ended(Return(Failed)))
    {
      hide Run, ByHardware, Took, Enabled, Do;
      CheckAfterFailureStep(env, Now());
      Take(CheckAfterFailure);
      go := machine.state == Idle || machine.state == Executing;
      if !go && lane.HeldByWorker? {
        lane := Free;
      }
    }

    /** The apply of _finish_failed, whose exception enters the except clause or escapes from it. */
    method FailApplyBlock(ghost w: Worker, id: CommandId, handling: bool) returns (ending: Ending)
      requires Valid() && w.Worker? && AtPc(w, FailApply(handling))
      modifies this, machine
      ensures Valid() && Extended() && Left(w.id, ending)
      ensures handling ==> ending.Ended?
    {
      hide Run, ByHardware, Took, Enabled, Do, Transition, Chained;
      ApplyFaultStep(env, Now());
      Take(ApplyFault);
      if lane.HeldByWorker? {
        lane := Free;
      }
      var r := machine.Apply(FaultDetected, "execution failed", Some(id), clock);
      ending := if r.Applied? then Ended(Return(Failed)) else if handling then Ended(Escape) else Raising;
    }

    /** _finish_failed: the memoised stop, the state check, and the apply that may raise again. */
    method FinishFailed(ghost w: Worker, id: CommandId, handling: bool) returns (ending: Ending)
      requires Valid() && w.Worker? && w.id == id && AtPc(w, FailStop(handling))
      modifies this, machine
      ensures Valid() && Extended() && Left(w.id, ending)
      ensures handling ==> ending.Ended?
    {
      hide Valid, AtPc, Left, Now;
      if !lane.HeldByWorker? {
        EnterLane(w, FailStop(handling));
      }
      FailStopBlock(w, id, handling);
      Yield(w, FailCheck(handling));
      var go := FailCheckBlock(w, handling);
      if !go {
        return Ended(Return(Failed));
      }
      Yield(w, FailApply(handling));
      ending := FailApplyBlock(w, id, handling);
    }

    /** The bounded stop of _finish_canceled, or its memoised outcome. */
    method CancelStopBlock(ghost w: Worker, id: CommandId) returns (ok: bool)
      requires Valid() && w.Worker? && w.id == id && AtPc(w, CancelStop)
      requires lane.Free? || lane.HeldByWorker?
      modifies this
      ensures Valid() && Extended() && lane == old(lane) && AtPc(w, CancelCheck(ok))
    {
      hide Run, ByHardware, Took, Enabled, Do;
      var reply := hardware.stop(id);
      StopAfterCancelStep(env, Now(), reply);
      Take(StopAfterCancel(reply));
      ok := IssueStopLocked(id, reply);
    }

    /** The state check of _finish_canceled; true when the cancelled transition is to be applied. */
    method CancelCheckBlock(ghost w: Worker, ok: bool) returns (go: bool)
      requires Valid() && w.Worker? && AtPc(w, CancelCheck(ok))
      modifies this
      ensures Valid() && Extended()
      ensures !ok ==> lane == old(lane) && AtPc(w, FailStop(false))
      ensures ok && go ==> lane == old(lane) && AtPc(w, CancelApply)
      ensures ok && !go ==> Left(w.id, Ended(Return(Canceled)))
    {
      hide Run, ByHardware, Took, Enabled, Do;
      CheckAfterCancelStep(env, Now());
      Take(CheckAfterCancel);
      go := machine.state == Executing;
      if ok && !go && lane.HeldByWorker? {
        lane := Free;
      }
    }

    method CancelApplyBlock(ghost w: Worker, id: CommandId) returns (ending: Ending)
      requires Valid() && w.Worker? && AtPc(w, CancelApply)
      modifies this, machine
      ensures Valid() && Extended() && Left(w.id, ending)
    {
      hide Run, ByHardware, Took, Enabled, Do, Transition, Chained;
      ApplyCanceledStep(env, Now());
      Take(ApplyCanceled);
      if lane.HeldByWorker? {
        lane := Free;
      }
      var r := machine.Apply(ExecutionCanceled, "cancellation generation accepted", Some(id), clock);
      ending := if r.Applied? then Ended(Return(Canceled)) else Raising;
    }

    /** _finish_canceled: the memoised stop, then the cancelled transition if still executing. */
    method FinishCanceled(ghost w: Worker, id: CommandId) returns (ending: Ending)
      requires Valid() && w.Worker? && w.id == id && AtPc(w, CancelStop)
      modifies this, machine
      ensures Valid() && Extended() && Left(w.id, ending)
    {
      hide Valid, AtPc, Left, Now;
      if !lane.HeldByWorker? {
        EnterLane(w, CancelStop);
      }
      var ok := CancelStopBlock(w, id);
      Yield(w, CancelCheck(ok));
      var go := CancelCheckBlock(w, ok);
      if !ok {
        ending := FinishFailed(w, id, false);
        return;
      }
      if !go {
        return Ended(Return(Canceled));
      }
      Yield(w, CancelApply);
      ending := CancelApplyBlock(w, id);
    }

    /** The start of `execute` by the thread that got the execution lock. */
    method BeginBlock(measured: JointVector, points: seq<TrajectoryPoint>, stamp: Stamp) returns (id: CommandId, ghost w: Worker)
      requires Valid() && !executing
      modifies this
      ensures Valid() && Extended() && lane == old(lane) && executing
      ensures w == Worker(id, measured, points, stamp, false, 0, 0.0, Admit) && AtPc(w, Admit) && id == old(nextId)
      ensures trace == old(trace) + [Begin(measured, points, stamp)]
    {
      hide Run, ByHardware, Took, Enabled, Do;
      BeginStep(env, Now(), measured, points, stamp);
      Take(Begin(measured, points, stamp));
      id, nextId, executing := nextId, nextId + 1, true;
      w := Now().worker;
    }

    /** The lane block that publishes the admitted command. */
    method AcceptBlock(ghost w: Worker, id: CommandId) returns (generation: nat, ghost v: Worker)
      requires Valid() && w.Worker? && w.id == id && AtPc(w, Accept) && lane.Free?
      modifies this
      ensures Valid() && Extended() && lane.Free?
      ensures v == w.(accepted := true, generation := generation) && AtPc(v, ApplyAccepted)
    {
      hide Run, ByHardware, Took, Enabled, Do;
      AcceptStep(env, Now());
      Take(AcceptLane);
      generation, activeCommandId, stopOutcome := cancellationGeneration, Some(id), NoStop;
      v := w.(accepted := true, generation := generation);
    }

    method ApplyAcceptBlock(ghost w: Worker, id: CommandId) returns (ok: bool)
      requires Valid() && w.Worker? && AtPc(w, ApplyAccepted) && !lane.HeldByWorker?
      modifies this, machine
      ensures Valid() && Extended() && !lane.HeldByWorker?
      ensures if ok then AtPc(w, ReadClock) else Left(w.id, Raising) && AtPc(w, FailStop(true))
    {
      hide Run, ByHardware, Took, Enabled, Do, Transition, Chained;
      ApplyAcceptStep(env, Now());
      Take(ApplyAccept);
      var r := machine.Apply(ExecutionAccepted, "complete trajectory admitted", Some(id), clock);
      ok := r.Applied?;
    }

    method StartClockBlock(ghost w: Worker) returns (start: real, ghost v: Worker)
      requires Valid() && w.Worker? && AtPc(w, ReadClock) && !lane.HeldByWorker?
      modifies this
      ensures Valid() && Extended() && !lane.HeldByWorker?
      ensures v == w.(start := start) && AtPc(v, AfterPoint(v, 0))
    {
      hide Run, ByHardware, Took, Enabled, Do;
      StartClockStep(env, Now());
      Take(StartClock);
      start := clock;
      v := w.(start := start);
    }

    /** scheduler.wait_until: other threads act and time passes until the deadline, or until the
        generation is seen to have moved. */
    method WaitUntil(ghost w: Worker, k: nat, deadline: real, accepted: nat)
      requires Valid() && w.Worker? && k < |w.points| && AtPc(w, Wait(k)) && !lane.HeldByWorker?
      requires w.generation == accepted && deadline == w.start + w.points[k].time
      modifies this, machine
      ensures Valid() && Extended() && !lane.HeldByWorker? && AtPc(w, Recheck(k))
    {
      hide Run, ByHardware, Took, Enabled, Do;
      Interfere();
      if cancellationGeneration == accepted && clock < deadline {
        TickTo(deadline);
      }
      WaitReturnsStep(env, Now());
      Take(WaitReturns);
    }

    /** The unlocked check of the generation after the wait. */
    method RecheckBlock(ghost w: Worker, k: nat, accepted: nat) returns (canceled: bool)
      requires Valid() && w.Worker? && k < |w.points| && AtPc(w, Recheck(k)) && !lane.HeldByWorker?
      requires w.generation == accepted
      modifies this
      ensures Valid() && Extended() && !lane.HeldByWorker?
      ensures AtPc(w, if canceled then CancelStop else WriteLane(k))
    {
      hide Run, ByHardware, Took;
      Take(RecheckCancel);
      canceled := cancellationGeneration != accepted;
    }

    /** The lane block around one hardware write. */
    method WriteBlock(ghost w: Worker, id: CommandId, k: nat, accepted: nat) returns (canceled: bool, reply: Reply)
      requires Valid() && w.Worker? && w.id == id && k < |w.points| && AtPc(w, WriteLane(k)) && lane.Free?
      requires w.generation == accepted
      modifies this
      ensures Valid() && Extended()
      ensures canceled ==> lane.HeldByWorker? && AtPc(w, CancelStop)
      ensures !canceled ==> lane.Free?
      ensures !canceled ==> AtPc(w, match reply
                                    case Acknowledged => ReadBack(k)
                                    case Refused => FailStop(false)
                                    case Raised => FailStop(true))
    {
      hide Run, ByHardware, Took, Enabled, Do;
      reply := hardware.write(id, k);
      WriteStep(env, Now(), reply);
      Take(WriteTarget(reply));
      if !connected {
        reply := Raised;
      }
      canceled := cancellationGeneration != accepted;
      if canceled {
        lane := HeldByWorker;
      }
    }

    /** The committing lane block. */
    method CommitBlock(ghost w: Worker, id: CommandId, accepted: nat) returns (canceled: bool, ending: Ending)
      requires Valid() && w.Worker? && w.id == id && AtPc(w, Commit) && lane.Free? && w.generation == accepted
      modifies this, machine
      ensures Valid() && Extended()
      ensures canceled ==> lane.HeldByWorker? && AtPc(w, CancelStop)
      ensures !canceled ==> Left(w.id, ending)
    {
      hide Run, ByHardware, Took, Enabled, Do, Transition, Chained;
      CommitStep(env, Now());
      Take(CommitLane);
      canceled := cancellationGeneration != accepted;
      if canceled {
        lane := HeldByWorker;
        return true, Raising;
      }
      var r := machine.Apply(ExecutionSucceeded, "all admitted waypoints acknowledged", Some(id), clock);
      if r.Applied? {
        activeCommandId := None;
        return false, Ended(Return(Succeeded));
      }
      return false, Raising;
    }

    /** Admission reads the driver state. */
    method ReadStateBlock(ghost w: Worker) returns (idle: bool)
      requires Valid() && w.Worker? && AtPc(w, Admit) && !lane.HeldByWorker?
      modifies this
      ensures Valid() && Extended() && !lane.HeldByWorker?
      ensures if idle then AtPc(w, Validate) else Left(w.id, Ended(Return(Rejected)))
      ensures !idle ==> Declined(w, |old(trace)|)
    {
      hide Run, ByHardware, Enabled, Do;
      AdmissionSteps(env, Now());
      Take(ReadState);
      idle := machine.state == Idle;
    }

    /** The report of the validator is empty exactly for an admissible trajectory. */
    method PassesValidation(ghost w: Worker, trajectory: Trajectory, state: JointState) returns (valid: bool)
      requires env.policy.Valid() && validator.policy == env.policy && validator.kinematics == env.kin
      requires w.Worker? && Asks(w, trajectory, state)
      ensures valid <==> Admissible(env, w, clock)
    {
      hide Safe, TimesIncrease;
      var violations, fkCalls := validator.Validate(trajectory, state, clock);
      valid := violations == [];
    }

    /** The complete trajectory is validated, and passes exactly when it is admissible at this time. */
    method ValidateBlock(ghost w: Worker, trajectory: Trajectory, state: JointState) returns (valid: bool)
      requires Valid() && w.Worker? && AtPc(w, Validate) && !lane.HeldByWorker? && Asks(w, trajectory, state)
      requires trajectory.points != [] && TimesIncrease(trajectory.points)
      modifies this
      ensures Valid() && Extended() && !lane.HeldByWorker?
      ensures if valid then AtPc(w, Accept) else Left(w.id, Ended(Return(Rejected)))
      ensures !valid ==> Declined(w, |old(trace)|)
    {
      hide Run, ByHardware, Enabled, Do, Admissible, TimesIncrease;
      AdmissionSteps(env, Now());
      AdmissibleAnywhere(env, w, Validate, clock);
      valid := PassesValidation(protocol.worker, trajectory, state);
      if valid {
        Take(ValidatePasses);
      } else {
        Take(ValidateRejects);
      }
    }

    /** The worker carries this trajectory and this measured state. */
    ghost predicate Asks(w: Worker, trajectory: Trajectory, state: JointState)
      requires w.Worker?
    {
      && w.points == trajectory.points && w.measured == state.position
      && w.stamp == Stamp(trajectory.jointNames, state.received)
    }

    /** A call into the validator, the scheduler or a callback that may raise at this place of the body. */
    method MayFail(ghost w: Worker, id: CommandId, pc: Pc) returns (raised: bool)
      requires Valid() && w.Worker? && w.id == id && AtPc(w, pc) && MayRaise(pc) && !pc.ReadBack? && PointIndexOk(w.(pc := pc)) && !lane.HeldByWorker?
      modifies this`protocol, this`states, this`trace
      ensures Valid() && Extended()
      ensures if raised then Left(w.id, Raising) else AtPc(w, pc)
    {
      hide Run, ByHardware, Took, Enabled, Do;
      raised := hardware.raises(id, pc);
      if raised {
        RaiseStep(env, Now());
        Take(Raise);
      }
    }

    /** The reason of a rejection: step `look` of the run read another state than IDLE, or validated a
        trajectory that is not admissible. */
    ghost predicate Declined(w: Worker, look: nat)
      requires Valid() && w.Worker?
      reads this, machine
    {
      && look < |trace| && |states| == |trace| + 1
      && ((trace[look] == ReadState && states[look].driver != Idle)
          || (trace[look] == ValidateRejects && !Admissible(env, w, states[look].now)))
    }

    /** CommandAdmission.admit: the driver must be Idle, then the trajectory must validate. */
    method AdmitBlock(ghost w: Worker, id: CommandId, trajectory: Trajectory, state: JointState)
      returns (admitted: bool, ending: Ending, ghost look: nat)
      requires Valid() && w.Worker? && w.id == id && AtPc(w, Admit) && !lane.HeldByWorker? && Asks(w, trajectory, state)
      requires trajectory.points != [] && TimesIncrease(trajectory.points)
      modifies this, machine
      ensures Valid() && Extended() && !lane.HeldByWorker?
      ensures if admitted then AtPc(w, Accept) else Left(w.id, ending) && (ending == Raising || ending == Ended(Return(Rejected)))
      ensures |old(trace)| <= look <= |trace|
      ensures !admitted && ending != Raising ==> Declined(w, look)
    {
      hide Valid, AtPc, Left, Now, TimesIncrease;
      Yield(w, Admit);
      var raised := MayFail(w, id, Admit);
      look := |trace|;
      if raised {
        return false, Raising, look;
      }
      admitted := ReadStateBlock(w);
      if admitted {
        Yield(w, Validate);
        raised := MayFail(w, id, Validate);
        look := |trace|;
        if raised {
          return false, Raising, look;
        }
        admitted := ValidateBlock(w, trajectory, state);
      }
      ending := Ended(Return(Rejected));
    }

    /** The measured state read back after a write: fresh, stale, or an exception. */
    method ReadBackBlock(ghost w: Worker, id: CommandId, k: nat) returns (outcome: Reply)
      requires Valid() && w.Worker? && w.id == id && k < |w.points| && AtPc(w, ReadBack(k)) && !lane.HeldByWorker?
      modifies this
      ensures Valid() && Extended() && !lane.HeldByWorker?
      ensures AtPc(w, match outcome
                      case Acknowledged => AfterPoint(w, k + 1)
                      case Refused => FailStop(false)
                      case Raised => FailStop(true))
    {
      hide Run, ByHardware, Took, Enabled, Do;
      outcome := if connected then hardware.read(id, k) else Raised;
      ReadSteps(env, Now());
      RaiseStep(env, Now());
      match outcome {
        case Acknowledged => Take(ReadFresh);
        case Refused => Take(ReadStale);
        case Raised => Take(Raise);
      }
    }

    /** Wait for the deadline of a point and check the generation. */
    method AwaitPoint(ghost w: Worker, id: CommandId, k: nat, deadline: real, accepted: nat)
      returns (reached: bool, ending: Ending)
      requires Valid() && w.Worker? && w.id == id && k < |w.points| && AtPc(w, Wait(k)) && !lane.HeldByWorker?
      requires w.generation == accepted && deadline == w.start + w.points[k].time
      modifies this, machine
      ensures Valid() && Extended()
      ensures if reached then !lane.HeldByWorker? && AtPc(w, WriteLane(k)) else Left(w.id, ending)
    {
      hide Valid, AtPc, Left, Now;
      reached, ending := false, Raising;
      Yield(w, Wait(k));
      var raised := MayFail(w, id, Wait(k));
      if raised {
        return;
      }
      WaitUntil(w, k, deadline, accepted);
      Yield(w, Recheck(k));
      raised := MayFail(w, id, Recheck(k));
      if raised {
        return;
      }
      var canceled := RecheckBlock(w, k, accepted);
      if canceled {
        ending := FinishCanceled(w, id);
        return;
      }
      reached := true;
    }

    /** One pass through the waypoint loop. */
    method ExecutePoint(ghost w: Worker, id: CommandId, k: nat, deadline: real, accepted: nat)
      returns (next: bool, ending: Ending)
      requires Valid() && w.Worker? && w.id == id && k < |w.points| && AtPc(w, Wait(k)) && !lane.HeldByWorker?
      requires w.generation == accepted && deadline == w.start + w.points[k].time
      modifies this, machine
      ensures Valid() && Extended()
      ensures if next then !lane.HeldByWorker? && AtPc(w, AfterPoint(w, k + 1)) else Left(w.id, ending)
    {
      hide Valid, AtPc, Left, Now;
      next := false;
      var reached, canceled;
      reached, ending := AwaitPoint(w, id, k, deadline, accepted);
      if !reached {
        return;
      }
      EnterLane(w, WriteLane(k));
      var reply;
      canceled, reply := WriteBlock(w, id, k, accepted);
      if canceled {
        ending := FinishCanceled(w, id);
        return;
      }
      if reply == Acknowledged {
        Yield(w, ReadBack(k));
        reply := ReadBackBlock(w, id, k);
      }
      match reply {
        case Acknowledged => return true, Raising;
        case Refused => ending := FinishFailed(w, id, false);
        case Raised =>
          Raises(w);
          ending := Raising;
      }
    }

    /** The waypoint loop: no ending means that every point was acknowledged. */
    method RunPoints(ghost w: Worker, id: CommandId, points: seq<TrajectoryPoint>, start: real, accepted: nat)
      returns (next: bool, ending: Ending)
      requires Valid() && w.Worker? && w.id == id && AtPc(w, AfterPoint(w, 0)) && !lane.HeldByWorker?
      requires w.points == points && w.generation == accepted && w.start == start
      modifies this, machine
      ensures Valid() && Extended()
      ensures if next then !lane.HeldByWorker? && AtPc(w, Commit) else Left(w.id, ending)
    {
      hide Valid, AtPc, Left, Now;
      next, ending := true, Raising;
      var k := 0;
      while k < |points|
        invariant 0 <= k <= |points|
        invariant Valid() && Extended() && !lane.HeldByWorker? && next
        invariant AtPc(w, AfterPoint(w, k))
      {
        next, ending := ExecutePoint(w, id, k, start + points[k].time, accepted);
        if !next {
          return;
        }
        k := k + 1;
      }
    }

    /** Publish the admitted command, enter EXECUTING and read the start time. */
    method StartCommand(ghost w: Worker, id: CommandId)
      returns (started: bool, accepted: nat, start: real, ghost v: Worker)
      requires Valid() && w.Worker? && w.id == id && AtPc(w, Accept) && !lane.HeldByWorker?
      modifies this, machine
      ensures Valid() && Extended() && !lane.HeldByWorker?
      ensures !started ==> Left(id, Raising)
      ensures started ==> v == w.(accepted := true, generation := accepted, start := start) && AtPc(v, AfterPoint(v, 0))
    {
      hide Valid, AtPc, Left, Now;
      EnterLane(w, Accept);
      accepted, v := AcceptBlock(w, id);
      Yield(v, ApplyAccepted);
      started := ApplyAcceptBlock(v, id);
      start := 0.0;
      if started {
        Yield(v, ReadClock);
        var raised := MayFail(v, id, ReadClock);
        if raised {
          started := false;
          return;
        }
        start, v := StartClockBlock(v);
      }
    }

    /** The committing end of the try body. */
    method CommitCommand(ghost w: Worker, id: CommandId, accepted: nat) returns (ending: Ending)
      requires Valid() && w.Worker? && w.id == id && AtPc(w, Commit) && !lane.HeldByWorker? && w.generation == accepted
      modifies this, machine
      ensures Valid() && Extended() && Left(id, ending)
    {
      hide Valid, AtPc, Left, Now;
      EnterLane(w, Commit);
      var canceled;
      canceled, ending := CommitBlock(w, id, accepted);
      if canceled {
        ending := FinishCanceled(w, id);
      }
    }

    /** The try body of `execute`. */
    method RunBody(ghost w: Worker, id: CommandId, trajectory: Trajectory, state: JointState) returns (ending: Ending)
      requires Valid() && w.Worker? && w.id == id && AtPc(w, Admit) && !lane.HeldByWorker? && Asks(w, trajectory, state)
      requires trajectory.points != [] && TimesIncrease(trajectory.points)
      modifies this, machine
      ensures Valid() && Extended() && Left(id, ending)
    {
      hide Valid, AtPc, Left, Now, TimesIncrease;
      var admitted;
      ghost var look;
      admitted, ending, look := AdmitBlock(w, id, trajectory, state);
      if !admitted {
        return;
      }
      var started, accepted, start;
      ghost var v;
      started, accepted, start, v := StartCommand(w, id);
      if !started {
        return Raising;
      }
      var acknowledged;
      acknowledged, ending := RunPoints(v, id, trajectory.points, start, accepted);
      if acknowledged {
        ending := CommitCommand(v, id, accepted);
      }
    }

    /** The except clause: one more bounded stop, whose own exception escapes. */
    method HandlerBlock(id: CommandId) returns (ending: Ending)
      requires Valid() && Left(id, Raising)
      modifies this, machine
      ensures Valid() && Extended() && ending.Ended? && Left(id, ending)
    {
      hide Run, ByHardware, Mirrors;
      ending := FinishFailed(Now().worker, id, true);
    }

    ghost predicate OutcomeLogged(id: CommandId, outcome: Outcome)
      requires Valid()
      reads this, machine
    {
      match outcome
      case Return(status) => Returned(id, status) in Now().log
      case Escape => Escaped(id) in Now().log
    }

    /** The finally clause: clear the active command, release the execution lock. */
    method LeaveBlock(id: CommandId, outcome: Outcome) returns (ghost at: nat)
      requires Valid() && Left(id, Ended(outcome))
      modifies this, machine
      ensures Valid() && Extended() && !executing && OutcomeLogged(id, outcome)
      ensures |old(trace)| <= at && LeftAt(id, outcome, at)
    {
      hide Valid, AtPc, Left, Now, OutcomeLogged, LeftAt;
      AwaitLaneToLeave(id, outcome);
      ClearBlock(id, outcome);
      at := |trace|;
      ReleaseBlock(id, outcome);
    }

    /** State `at` of the run is the one in which `execute` for this command returns. */
    ghost predicate LeftAt(id: CommandId, outcome: Outcome, at: nat)
      requires Valid()
      reads this, machine
    {
      at < |states| && states[at].worker.Worker? && states[at].worker.id == id && states[at].worker.pc == Release(outcome)
    }

    method AwaitLaneToLeave(id: CommandId, outcome: Outcome)
      requires Valid() && Left(id, Ended(outcome))
      modifies this, machine
      ensures Valid() && Extended() && Left(id, Ended(outcome)) && lane.Free?
    {
      hide Run, ByHardware, Mirrors, Took;
      AcquireLane();
    }

    method ClearBlock(id: CommandId, outcome: Outcome)
      requires Valid() && Left(id, Ended(outcome)) && lane.Free?
      modifies this
      ensures Valid() && Extended() && executing
      ensures Now().worker.Worker? && Now().worker.id == id && Now().worker.pc == Release(outcome)
    {
      hide Run, ByHardware, Took, Enabled, Do;
      ClearStep(env, Now());
      Take(ClearActive);
      if activeCommandId == Some(id) {
        activeCommandId := None;
      }
    }

    method ReleaseBlock(id: CommandId, outcome: Outcome)
      requires Valid() && Now().worker.Worker? && Now().worker.id == id && Now().worker.pc == Release(outcome)
      modifies this
      ensures Valid() && Extended() && !executing && OutcomeLogged(id, outcome) && LeftAt(id, outcome, |old(trace)|)
    {
      hide Run, ByHardware, Enabled, Do;
      RunLength();
      ReleaseStep(env, Now());
      ghost var last := protocol;
      Take(ReleaseLock);
      assert states[|old(trace)|] == last;
      executing := false;
    }

    /** `execute` by the thread that got the execution lock: the try body, the except clause for an
        exception, and the finally clause. */
    method ExecuteLocked(trajectory: Trajectory, state: JointState) returns (id: CommandId, outcome: Outcome, ghost at: nat)
      requires Valid() && !executing && !lane.HeldByWorker?
      requires trajectory.points != [] && TimesIncrease(trajectory.points)
      modifies this, machine
      ensures Valid() && Extended() && !executing && OutcomeLogged(id, outcome) && id == old(nextId)
      ensures |old(trace)| < at && LeftAt(id, outcome, at)
      ensures |old(trace)| < |trace|
              && trace[|old(trace)|] == Begin(state.position, trajectory.points, Stamp(trajectory.jointNames, state.received))
    {
      hide Valid, AtPc, Left, Now, TimesIncrease, OutcomeLogged, LeftAt;
      ghost var w;
      id, w := BeginBlock(state.position, trajectory.points, Stamp(trajectory.jointNames, state.received));
      var ending := RunBody(w, id, trajectory, state);
      if ending == Raising {
        ending := HandlerBlock(id);
      }
      at := LeaveBlock(id, ending.outcome);
      outcome := ending.outcome;
    }

    /** At this time the measured state is not older than the policy allows. */
    predicate Fresh(state: JointState, now: real) {
      0.0 <= env.policy.stateTimeout && now - state.received <= env.policy.stateTimeout
    }

    /** Why a command was rejected, at step `look` of the run: admission read another state than IDLE, or
        validated wrong names, a stale state or an unsafe trajectory. */
    ghost predicate HasReason(look: nat, trajectory: Trajectory, state: JointState)
      requires env.policy.Valid()
      reads this`states, this`trace
    {
      && look < |trace| && |states| == |trace| + 1
      && (|| (trace[look] == ReadState && states[look].driver != Idle)
          || (trace[look] == ValidateRejects
              && (|| trajectory.jointNames != env.policy.jointNames
                  || !Fresh(state, states[look].now)
                  || !Safe(env.policy, env.kin, state.position, trajectory.points))))
    }

    /** From step b of the run on no other thread cancelled, stopped, applied a fault of its own, connected,
        disconnected or recovered, and the measured state was fresh when it was validated. */
    ghost predicate Calm(b: nat, state: JointState)
      reads this`states, this`trace
    {
      && |states| == |trace| + 1
      && forall m | b <= m < |trace| ::
           && !trace[m].CancelCall? && !trace[m].StopNowCall? && !trace[m].CancellerApply? && !trace[m].Session?
           && (trace[m] == ValidateRejects ==> Fresh(state, states[m].now))
    }

    /** Every point was written, in order, and acknowledged. */
    ghost predicate AllWritten(id: CommandId, points: seq<TrajectoryPoint>)
      requires Valid()
      reads this, machine
    {
      var writes := WritesOf(Now().log, id);
      && |writes| == |points|
      && forall k | 0 <= k < |points| ::
           writes[k].index == k && writes[k].target == points[k].position && writes[k].reply == Acknowledged
    }

    /** Admit the complete trajectory, then execute it on absolute deadlines, whatever other threads
        do in between. The result is logged and keeps its promise; a rejection has a reason, and a command
        that nothing stands against succeeds. */
    method Execute(trajectory: Trajectory, state: JointState) returns (id: CommandId, outcome: Outcome, ghost look: nat)
      requires Valid()
      requires trajectory.points != [] && TimesIncrease(trajectory.points)
      modifies this, machine
      ensures Valid() && Extended()
      ensures old(executing) ==> outcome == Return(Rejected)
      ensures !old(executing) ==> !executing && id == old(nextId)
      ensures OutcomeLogged(id, outcome)
      ensures match outcome
              case Return(status) => ResultOk(Now().log, id, status)
              case Escape => HasStop(Now().log, id)
      ensures !old(executing) && outcome == Return(Rejected) ==> |old(trace)| <= look && HasReason(look, trajectory, state)
      ensures outcome == Return(Succeeded) ==> AllWritten(id, trajectory.points)
      ensures !old(executing) && old(machine.state) == Idle && old(connected)
              && trajectory.jointNames == env.policy.jointNames && Safe(env.policy, env.kin, state.position, trajectory.points)
              && Willing(hardware, id, |trajectory.points|) && Calm(|old(trace)|, state) ==>
        outcome == Return(Succeeded)
    {
      hide TimesIncrease, Safe, HasReason, Calm, Willing, AllWritten, ResultOk, HasStop, LeftAt;
      look := 0;
      if executing {
        id := BusyBlock();
        outcome := Return(Rejected);
        ResultKept(id, outcome);
      } else {
        ghost var b := |trace|;
        RunLength();
        assert states[b] == protocol && protocol.nextId == nextId && protocol.driver == machine.state && protocol.connected == connected;
        OwnedLane();
        ghost var at;
        id, outcome, at := ExecuteLocked(trajectory, state);
        ResultKept(id, outcome);
        if outcome == Return(Rejected) {
          look := ReasonOf(b, at, id, trajectory, state);
        }
        if outcome == Return(Succeeded) {
          WritesKept(b, at, id, trajectory, state);
        } else {
          CalmSucceeds(b, at, id, outcome, trajectory, state);
        }
      }
    }

    /** A step of the run at which this command was begun. */
    ghost predicate BeganAt(b: nat, id: CommandId, trajectory: Trajectory, state: JointState)
      requires Valid()
      reads this, machine
    {
      b < |trace| && states[b].nextId == id
      && trace[b] == Begin(state.position, trajectory.points, Stamp(trajectory.jointNames, state.received))
    }

    lemma ReasonOf(b: nat, at: nat, id: CommandId, trajectory: Trajectory, state: JointState) returns (look: nat)
      requires Valid() && b < at && BeganAt(b, id, trajectory, state) && LeftAt(id, Return(Rejected), at)
      ensures b < look && HasReason(look, trajectory, state)
    {
      hide Run, ByHardware, Mirrors, Safe;
      assert |states| == |trace| + 1 by { RunLength(); }
      look := RejectedForAReason(env, states, trace, at);
      CommandIsKept(env, states, trace, b, at);
    }

    lemma RunLength()
      requires Valid()
      ensures |states| == |trace| + 1
    {
    }

    lemma WritesKept(b: nat, at: nat, id: CommandId, trajectory: Trajectory, state: JointState)
      requires Valid() && b < at && BeganAt(b, id, trajectory, state) && LeftAt(id, Return(Succeeded), at)
      requires ResultOk(Now().log, id, Succeeded)
      ensures AllWritten(id, trajectory.points)
    {
      hide Run, ByHardware, Mirrors, Inv, WritesOf, ResultOk, FollowsPlan;
      RunLength();
      CommandIsKept(env, states, trace, b, at);
      RunKeepsInv(env, states, trace, at);
      SucceededIsAccepted(env, states[at]);
      LogGrows(env, states, trace, at, |trace|);
      RunKeepsInv(env, states, trace, |trace|);
      InvLog(env, Now());
      SuccessIsWritten(env, Now().log, id, state.position, trajectory.points);
    }

    lemma CalmSucceeds(b: nat, at: nat, id: CommandId, outcome: Outcome, trajectory: Trajectory, state: JointState)
      requires Valid() && b < at && BeganAt(b, id, trajectory, state) && LeftAt(id, outcome, at)
      ensures states[b].driver == Idle && states[b].connected
              && trajectory.jointNames == env.policy.jointNames && Safe(env.policy, env.kin, state.position, trajectory.points)
              && Willing(hardware, id, |trajectory.points|) && Calm(b, state) ==>
        outcome == Return(Succeeded)
    {
      hide Run, ByHardware, Mirrors, Safe, Willing;
      RunLength();
      if states[b].driver == Idle && states[b].connected && trajectory.jointNames == env.policy.jointNames && Calm(b, state)
         && Safe(env.policy, env.kin, state.position, trajectory.points) && Willing(hardware, id, |trajectory.points|) {
        forall m | b < m < at && trace[m] == ValidateRejects && states[m].worker.Worker? && states[m].worker.id == id
          ensures Admissible(env, states[m].worker, states[m].now)
        {
          CommandIsKept(env, states, trace, b, m);
        }
        UndisturbedCommandSucceeds(env, hardware, states, trace, b, at);
      }
    }

    /** What a logged outcome promises. */
    lemma ResultKept(id: CommandId, outcome: Outcome)
      requires Valid() && OutcomeLogged(id, outcome)
      ensures match outcome
              case Return(status) => ResultOk(Now().log, id, status)
              case Escape => HasStop(Now().log, id)
    {
      hide Mirrors, Inv, ResultOk, HasStop;
      RunKeepsInv(env, states, trace, |trace|);
      InvLog(env, Now());
    }
  }
}
