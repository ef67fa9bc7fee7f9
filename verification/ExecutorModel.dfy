/**
 The trajectory command protocol as a step system: one worker thread inside `execute`, any number of
 threads calling cancel, stop, connect, disconnect and recover, hardware that may succeed, refuse or
 raise, and a log of everything that is observable. Each block under the command-lane lock is one
 step, except that a state check and the `apply` after it are separate steps, as in the source.
 */
module ExecutorModel {
  import opened Prelude
  import opened Trajectories
  import opened Safety
  import opened DriverStates

  type CommandId = nat

  datatype Status = Succeeded | Rejected | Canceled | Failed

  datatype Reply = Acknowledged | Refused | Raised

  datatype Event =
    | Accepted(id: CommandId, measured: JointVector, points: seq<TrajectoryPoint>)
    | Started(id: CommandId, at: real)
    | Bumped(active: Option<CommandId>)
    | Wrote(id: CommandId, index: nat, target: JointVector, at: real, reply: Reply)
    | StopIssued(id: CommandId, ok: bool)
    | Returned(id: CommandId, status: Status)
    | Escaped(id: CommandId)

  datatype Outcome = Return(status: Status) | Escape

  /** Where the worker is; the comments give the lines of executor.py. */
  datatype Pc =
    | Admit                     // 158: admission reads the driver state
    | Validate                  // 158: the validator runs
    | Accept                    // 168-171: lane block that publishes the command
    | ApplyAccepted             // 172
    | ReadClock                 // 177
    | Wait(k: nat)              // 181
    | Recheck(k: nat)           // 186
    | WriteLane(k: nat)         // 189-203
    | ReadBack(k: nat)          // 210-239
    | Commit                    // 240-251
    | CancelStop                // 268-269
    | CancelCheck(ok: bool)     // 270-276
    | CancelApply               // 277
    | FailStop(handling: bool)  // 293-294; handling: called from the except clause
    | FailCheck(handling: bool) // 309
    | FailApply(handling: bool) // 310
    | Finally(outcome: Outcome) // 262-264
    | Release(outcome: Outcome) // 265

  /** The joint names that a trajectory comes with, and when its measured state was received. */
  datatype Stamp = Stamp(names: seq<string>, received: real)

  datatype Worker =
    | NoWorker
    | Worker(id: CommandId, measured: JointVector, points: seq<TrajectoryPoint>, stamp: Stamp,
             accepted: bool, generation: nat, start: real, pc: Pc)

  /** The command lane: a worker keeps it through a cancellation it detects inside the lock, and a
      canceller keeps it from its stop to its state check and apply. */
  datatype Lane = Free | HeldByWorker | Checking(id: CommandId, ok: bool) | Faulting(id: CommandId)

  /** Where the thread that holds the session's lifecycle lock is (session.py:63, 78); the comments
      give the lines of robot_controller.py. */
  datatype Lifecycle =
    | Resting
    | Opening                    // 73: CONNECT_REQUESTED applied
    | Opened                     // 74: hardware.connect returned
    | Cleaning                   // 81: connecting raised
    | FailingOpen(cleaned: bool) // 86
    | Withdrawing                // 91
    | StopPending                // 102: disconnect saw EXECUTING
    | StopHeld                   // 102: inside stop_now
    | Releasing                  // 125
    | Released                   // 128: hardware.disconnect returned
    | Closing                    // 129: the state check saw another state than DISCONNECTED

  /** How many threads are inside `recover`: before the state read, after it succeeded, after it failed. */
  datatype Recoveries = Recoveries(reading: nat, succeeded: nat, failed: nat)

  datatype Memo = NoStop | Stopped(id: CommandId, ok: bool)

  datatype System = System(
    driver: DriverState,
    generation: nat,
    active: Option<CommandId>,
    memo: Memo,
    worker: Worker,
    lane: Lane,
    now: real,
    nextId: CommandId,
    log: seq<Event>,
    connected: bool,
    lifecycle: Lifecycle,
    recoveries: Recoveries)

  /** What connect, disconnect and recover do, one block at a time. */
  datatype Act =
    | OpenRequest | Attach(ok: bool) | OpenApply | Clean(ok: bool) | FailOpen | Withdraw
    | ReadForClose | StopForClose(ok: bool) | Detach(ok: bool) | CheckClosed | Close
    | RecoverRequest | RecoverRead(ok: bool) | RecoverApply(ok: bool)

  datatype Env = Env(policy: Policy, kin: Kinematics)

  datatype Step =
    | Begin(measured: JointVector, points: seq<TrajectoryPoint>, stamp: Stamp) | Busy
    | ReadState | ValidatePasses | ValidateRejects | AcceptLane | ApplyAccept | StartClock
    | WaitReturns | RecheckCancel | WriteTarget(reply: Reply) | ReadFresh | ReadStale | CommitLane
    | Raise
    | StopAfterCancel(ok: bool) | CheckAfterCancel | ApplyCanceled
    | StopAfterFailure(ok: bool) | CheckAfterFailure | ApplyFault
    | ClearActive | ReleaseLock
    | CancelCall(ok: bool) | StopNowCall(ok: bool) | CancellerCheck | CancellerApply
    | Session(act: Act) | Tick(dt: real)

  const INITIAL := System(Disconnected, 0, None, NoStop, NoWorker, Free, 0.0, 0, [],
                           false, Resting, Recoveries(0, 0, 0))

  // ---------------------------------------------------------------------------------------------
  // Parts of steps
  // ---------------------------------------------------------------------------------------------

  function Log(s: System, e: Event): System {
    s.(log := s.log + [e])
  }

  function At(s: System, pc: Pc): System
    requires s.worker.Worker?
  {
    s.(worker := s.worker.(pc := pc))
  }

  predicate IsCanceled(s: System)
    requires s.worker.Worker?
  {
    s.worker.generation != s.generation
  }

  /** Memoised stop: hardware is reached only if this command has no recorded outcome. */
  function IssueStop(s: System, id: CommandId, ok: bool): System {
    if s.memo.Stopped? && s.memo.id == id then s
    else Log(s, StopIssued(id, ok)).(memo := Stopped(id, ok))
  }

  function StopOutcome(s: System, id: CommandId, ok: bool): bool {
    if s.memo.Stopped? && s.memo.id == id then s.memo.ok else ok
  }

  function LaneAfterWorker(lane: Lane): Lane {
    if lane.HeldByWorker? then Free else lane
  }

  /** Return from the body: leave any lane block and run the finally clause. */
  function Leave(s: System, outcome: Outcome): System
    requires s.worker.Worker?
  {
    At(s, Finally(outcome)).(lane := LaneAfterWorker(s.lane))
  }

  /** An exception in the body: leave any lane block and enter the except clause. */
  function Handle(s: System): System
    requires s.worker.Worker?
  {
    At(s, FailStop(true)).(lane := LaneAfterWorker(s.lane))
  }

  function AfterPoint(worker: Worker, k: nat): Pc
    requires worker.Worker?
  {
    if k < |worker.points| then Wait(k) else Commit
  }

  /** A released adapter raises on every write, and its stop never succeeds. */
  function WriteReply(s: System, reply: Reply): Reply {
    if s.connected then reply else Raised
  }

  function StopReply(s: System, ok: bool): bool {
    ok && s.connected
  }

  /** The state after one apply, which raises when the table has no entry. */
  function Applied(s: System, event: DriverEvent): System {
    match Transition(s.driver, event)
    case Some(next) => s.(driver := next)
    case None => s
  }

  predicate LaneOpenToWorker(s: System) {
    s.lane.Free? || s.lane.HeldByWorker?
  }

  predicate InBody(pc: Pc) {
    pc.ApplyAccepted? || pc.ReadClock? || pc.Wait? || pc.Recheck? || pc.WriteLane? || pc.ReadBack? || pc.Commit?
  }

  predicate PointIndexOk(worker: Worker)
    requires worker.Worker?
  {
    match worker.pc
    case Wait(k) => k < |worker.points|
    case Recheck(k) => k < |worker.points|
    case WriteLane(k) => k < |worker.points|
    case ReadBack(k) => k < |worker.points|
    case _ => true
  }

  // ---------------------------------------------------------------------------------------------
  // The worker's steps
  // ---------------------------------------------------------------------------------------------

  function ReadStateDo(s: System): System
    requires s.worker.Worker?
  {
    if s.driver != Idle then Leave(s, Return(Rejected)) else At(s, Validate)
  }

  function AcceptDo(s: System): System
    requires s.worker.Worker?
  {
    var w := s.worker;
    Log(s, Accepted(w.id, w.measured, w.points)).(
      worker := w.(accepted := true, generation := s.generation, pc := ApplyAccepted),
      active := Some(w.id), memo := NoStop)
  }

  function ApplyAcceptDo(s: System): System
    requires s.worker.Worker?
  {
    match Transition(s.driver, ExecutionAccepted)
    case Some(next) => At(s, ReadClock).(driver := next)
    case None => Handle(s)
  }

  function StartClockDo(s: System): System
    requires s.worker.Worker?
  {
    Log(s, Started(s.worker.id, s.now)).(worker := s.worker.(start := s.now, pc := AfterPoint(s.worker, 0)))
  }

  function RecheckDo(s: System): System
    requires s.worker.Worker? && s.worker.pc.Recheck?
  {
    if IsCanceled(s) then At(s, CancelStop) else At(s, WriteLane(s.worker.pc.k))
  }

  /** The lane block around a write: re-check the generation, then one hardware write. */
  function WriteDo(s: System, reply: Reply): System
    requires s.worker.Worker? && s.worker.pc.WriteLane? && PointIndexOk(s.worker)
  {
    var w := s.worker;
    if IsCanceled(s) then At(s, CancelStop).(lane := HeldByWorker)
    else
      var wrote := Log(s, Wrote(w.id, w.pc.k, w.points[w.pc.k].position, s.now, reply));
      match reply
      case Acknowledged => At(wrote, ReadBack(w.pc.k))
      case Refused => At(wrote, FailStop(false))
      case Raised => Handle(wrote)
  }

  function ReadFreshDo(s: System): System
    requires s.worker.Worker? && s.worker.pc.ReadBack?
  {
    At(s, AfterPoint(s.worker, s.worker.pc.k + 1))
  }

  /** The committing lane block. */
  function CommitDo(s: System): System
    requires s.worker.Worker?
  {
    if IsCanceled(s) then At(s, CancelStop).(lane := HeldByWorker)
    else
      match Transition(s.driver, ExecutionSucceeded)
      case Some(next) => Leave(s, Return(Succeeded)).(driver := next, active := None)
      case None => Handle(s)
  }

  function StopAfterCancelDo(s: System, ok: bool): System
    requires s.worker.Worker?
  {
    At(IssueStop(s, s.worker.id, ok), CancelCheck(StopOutcome(s, s.worker.id, ok)))
  }

  function CheckAfterCancelDo(s: System): System
    requires s.worker.Worker? && s.worker.pc.CancelCheck?
  {
    if !s.worker.pc.ok then At(s, FailStop(false))
    else if s.driver == Executing then At(s, CancelApply)
    else Leave(s, Return(Canceled))
  }

  function ApplyCanceledDo(s: System): System
    requires s.worker.Worker?
  {
    match Transition(s.driver, ExecutionCanceled)
    case Some(next) => Leave(s, Return(Canceled)).(driver := next)
    case None => Handle(s)
  }

  function StopAfterFailureDo(s: System, ok: bool): System
    requires s.worker.Worker? && s.worker.pc.FailStop?
  {
    At(IssueStop(s, s.worker.id, ok), FailCheck(s.worker.pc.handling))
  }

  function CheckAfterFailureDo(s: System): System
    requires s.worker.Worker? && s.worker.pc.FailCheck?
  {
    if s.driver == Idle || s.driver == Executing then At(s, FailApply(s.worker.pc.handling))
    else Leave(s, Return(Failed))
  }

  function ApplyFaultDo(s: System): System
    requires s.worker.Worker? && s.worker.pc.FailApply?
  {
    match Transition(s.driver, FaultDetected)
    case Some(next) => Leave(s, Return(Failed)).(driver := next)
    case None => if s.worker.pc.handling then Leave(s, Escape) else Handle(s)
  }

  function ClearActiveDo(s: System): System
    requires s.worker.Worker? && s.worker.pc.Finally?
  {
    At(s, Release(s.worker.pc.outcome)).(active := if s.active == Some(s.worker.id) then None else s.active)
  }

  function ReleaseDo(s: System): System
    requires s.worker.Worker? && s.worker.pc.Release?
  {
    match s.worker.pc.outcome
    case Return(status) => Log(s, Returned(s.worker.id, status)).(worker := NoWorker)
    case Escape => Log(s, Escaped(s.worker.id)).(worker := NoWorker)
  }

  // ---------------------------------------------------------------------------------------------
  // The steps of other threads
  // ---------------------------------------------------------------------------------------------

  /** The start of `execute` by the thread that gets the execution lock. */
  function BeginDo(s: System, measured: JointVector, points: seq<TrajectoryPoint>, stamp: Stamp): System {
    s.(worker := Worker(s.nextId, measured, points, stamp, false, 0, 0.0, Admit), nextId := s.nextId + 1)
  }

  /** `execute` by a thread that finds the execution lock taken. */
  function BusyDo(s: System): System {
    Log(s, Returned(s.nextId, Rejected)).(nextId := s.nextId + 1)
  }

  /** cancel_current_command and stop_now up to the stop: bump the generation, then one bounded stop
      for the given command id. */
  function CancelDo(s: System, id: CommandId, nextId: CommandId, ok: bool): System {
    var bumped := Log(s, Bumped(s.active)).(generation := s.generation + 1, nextId := nextId);
    IssueStop(bumped, id, ok).(lane := Checking(id, StopOutcome(s, id, ok)))
  }

  function StopNowDo(s: System, ok: bool): System {
    if s.active.Some? then CancelDo(s, s.active.value, s.nextId, ok) else CancelDo(s, s.nextId, s.nextId + 1, ok)
  }

  /** _fault_after_stop_failure_locked: nothing to do after a successful stop; otherwise read the
      driver state and go on to the apply only from Idle or Executing. */
  function CheckStopDo(s: System): System
    requires s.lane.Checking?
  {
    if !s.lane.ok && (s.driver == Idle || s.driver == Executing) then s.(lane := Faulting(s.lane.id))
    else s.(lane := Free, lifecycle := AfterStop(s.lifecycle))
  }

  /** A disconnect that is inside stop_now goes on once its lane block ends. */
  function AfterStop(lifecycle: Lifecycle): Lifecycle {
    if lifecycle.StopHeld? then Releasing else lifecycle
  }

  /** The apply that may raise: either way the lane is released. */
  function FaultStopDo(s: System): System {
    match Transition(s.driver, FaultDetected)
    case Some(next) => s.(driver := next, lane := Free, lifecycle := AfterStop(s.lifecycle))
    case None => s.(lane := Free, lifecycle := AfterStop(s.lifecycle))
  }

  /** connect (68-95): request, attach, apply; on an exception clean up, apply the failure, and withdraw
      after a clean release. disconnect (97-133): read the state, stop a command seen executing, release
      the adapter, look at the state again, apply. recover (263-287): request, read, apply the result. */
  predicate SessionEnabled(s: System, act: Act) {
    match act
    case OpenRequest => s.lifecycle.Resting? && Transition(s.driver, ConnectRequested).Some?
    case Attach(_) => s.lifecycle.Opening?
    case OpenApply => s.lifecycle.Opened?
    case Clean(_) => s.lifecycle.Cleaning?
    case FailOpen => s.lifecycle.FailingOpen?
    case Withdraw => s.lifecycle.Withdrawing?
    case ReadForClose => s.lifecycle.Resting?
    case StopForClose(_) => s.lifecycle.StopPending? && s.lane.Free?
    case Detach(_) => s.lifecycle.Releasing?
    case CheckClosed => s.lifecycle.Released?
    case Close => s.lifecycle.Closing?
    case RecoverRequest => Transition(s.driver, RecoveryRequested).Some?
    case RecoverRead(ok) => s.recoveries.reading > 0 && (ok ==> s.connected)
    case RecoverApply(ok) => if ok then s.recoveries.succeeded > 0 else s.recoveries.failed > 0
  }

  function SessionDo(s: System, act: Act): System
    requires SessionEnabled(s, act)
  {
    match act
    case OpenRequest => Applied(s, ConnectRequested).(lifecycle := Opening)
    case Attach(ok) => if ok then s.(connected := true, lifecycle := Opened) else s.(lifecycle := Cleaning)
    case OpenApply =>
      Applied(s, ConnectSucceeded).(lifecycle := if Transition(s.driver, ConnectSucceeded).Some? then Resting else Cleaning)
    case Clean(ok) => s.(connected := false, lifecycle := FailingOpen(ok))
    case FailOpen =>
      var applied := Transition(s.driver, ConnectFailed).Some?;
      Applied(s, ConnectFailed).(lifecycle := if applied && s.lifecycle.cleaned then Withdrawing else Resting)
    case Withdraw => Applied(s, DisconnectRequested).(lifecycle := Resting)
    case ReadForClose => s.(lifecycle := if s.driver == Executing then StopPending else Releasing)
    case StopForClose(ok) => StopNowDo(s, StopReply(s, ok)).(lifecycle := StopHeld)
    case Detach(ok) => s.(connected := false, lifecycle := if ok then Released else Resting)
    case CheckClosed => s.(lifecycle := if s.driver == Disconnected then Resting else Closing)
    case Close => Applied(s, DisconnectRequested).(lifecycle := Resting)
    case RecoverRequest =>
      Applied(s, RecoveryRequested).(recoveries := s.recoveries.(reading := s.recoveries.reading + 1))
    case RecoverRead(ok) => s.(recoveries := AfterRead(s.recoveries, ok))
    case RecoverApply(ok) =>
      if ok then Applied(s, RecoverySucceeded).(recoveries := s.recoveries.(succeeded := s.recoveries.succeeded - 1))
      else Applied(s, RecoveryFailed).(recoveries := s.recoveries.(failed := s.recoveries.failed - 1))
  }

  function AfterRead(r: Recoveries, ok: bool): Recoveries
    requires r.reading > 0
  {
    if ok then Recoveries(r.reading - 1, r.succeeded + 1, r.failed) else Recoveries(r.reading - 1, r.succeeded, r.failed + 1)
  }

  // ---------------------------------------------------------------------------------------------
  // The step relation
  // ---------------------------------------------------------------------------------------------

  /** Steps of threads other than the one that executes; Begin is the start of the next execution. */
  predicate ByOtherThread(step: Step) {
    || step.Begin? || step.Busy? || step.CancelCall? || step.StopNowCall? || step.CancellerCheck?
    || step.CancellerApply? || step.Session? || step.Tick?
  }

  predicate Enabled(env: Env, s: System, step: Step)
    requires env.policy.Valid()
  {
    if ByOtherThread(step) then OtherEnabled(s, step)
    else s.worker.Worker? && PointIndexOk(s.worker) && WorkerEnabled(env, s, step)
  }

  predicate OtherEnabled(s: System, step: Step)
    requires ByOtherThread(step)
  {
    match step
    case Begin(_, _, _) => s.worker.NoWorker?
    case Busy => s.worker.Worker?
    case CancelCall(_) => s.lane.Free? && s.active.Some?
    case StopNowCall(_) => s.lane.Free?
    case CancellerCheck => s.lane.Checking?
    case CancellerApply => s.lane.Faulting?
    case Session(act) => SessionEnabled(s, act)
    case Tick(dt) => dt >= 0.0
  }

  /** What the validator demands of a command at this time. */
  predicate Admissible(env: Env, w: Worker, now: real)
    requires env.policy.Valid() && w.Worker?
  {
    && w.stamp.names == env.policy.jointNames
    && JointState(w.measured, w.stamp.received).Age(now) <= env.policy.stateTimeout
    && Safe(env.policy, env.kin, w.measured, w.points)
  }

  predicate WorkerEnabled(env: Env, s: System, step: Step)
    requires env.policy.Valid() && s.worker.Worker? && PointIndexOk(s.worker)
  {
    var w := s.worker;
    match step
    case ReadState => w.pc.Admit?
    case ValidatePasses => w.pc.Validate? && |w.points| > 0 && TimesIncrease(w.points) && Admissible(env, w, s.now)
    case ValidateRejects => w.pc.Validate? && !Admissible(env, w, s.now)
    case AcceptLane => w.pc.Accept? && s.lane.Free?
    case ApplyAccept => w.pc.ApplyAccepted?
    case StartClock => w.pc.ReadClock?
    case WaitReturns => w.pc.Wait? && (IsCanceled(s) || w.start + w.points[w.pc.k].time <= s.now)
    case RecheckCancel => w.pc.Recheck?
    case WriteTarget(_) => w.pc.WriteLane? && s.lane.Free?
    case ReadFresh => w.pc.ReadBack? && s.connected
    case ReadStale => w.pc.ReadBack? && s.connected
    case CommitLane => w.pc.Commit? && s.lane.Free?
    case Raise => MayRaise(w.pc)
    case StopAfterCancel(_) => w.pc.CancelStop? && LaneOpenToWorker(s)
    case CheckAfterCancel => w.pc.CancelCheck?
    case ApplyCanceled => w.pc.CancelApply?
    case StopAfterFailure(_) => w.pc.FailStop? && LaneOpenToWorker(s)
    case CheckAfterFailure => w.pc.FailCheck?
    case ApplyFault => w.pc.FailApply?
    case ClearActive => w.pc.Finally? && s.lane.Free?
    case ReleaseLock => w.pc.Release?
    case _ => false
  }

  /** Places in the body where a call into the validator, the scheduler, the hardware or the progress
      callback can raise. */
  predicate MayRaise(pc: Pc) {
    pc.Admit? || pc.Validate? || pc.ReadClock? || pc.Wait? || pc.Recheck? || pc.WriteLane? || pc.ReadBack?
  }

  function Do(env: Env, s: System, step: Step): System
    requires env.policy.Valid() && Enabled(env, s, step)
  {
    match step
    case Begin(measured, points, stamp) => BeginDo(s, measured, points, stamp)
    case Busy => BusyDo(s)
    case CancelCall(ok) => CancelDo(s, s.active.value, s.nextId, StopReply(s, ok))
    case StopNowCall(ok) => StopNowDo(s, StopReply(s, ok))
    case CancellerCheck => CheckStopDo(s)
    case CancellerApply => FaultStopDo(s)
    case Session(act) => SessionDo(s, act)
    case Tick(dt) => s.(now := s.now + dt)
    case ReadState => ReadStateDo(s)
    case ValidatePasses => At(s, Accept)
    case ValidateRejects => Leave(s, Return(Rejected))
    case AcceptLane => AcceptDo(s)
    case ApplyAccept => ApplyAcceptDo(s)
    case StartClock => StartClockDo(s)
    case WaitReturns => At(s, Recheck(s.worker.pc.k))
    case RecheckCancel => RecheckDo(s)
    case WriteTarget(reply) => WriteDo(s, WriteReply(s, reply))
    case ReadFresh => ReadFreshDo(s)
    case ReadStale => At(s, FailStop(false))
    case CommitLane => CommitDo(s)
    case Raise => Handle(s)
    case StopAfterCancel(ok) => StopAfterCancelDo(s, StopReply(s, ok))
    case CheckAfterCancel => CheckAfterCancelDo(s)
    case ApplyCanceled => ApplyCanceledDo(s)
    case StopAfterFailure(ok) => StopAfterFailureDo(s, StopReply(s, ok))
    case CheckAfterFailure => CheckAfterFailureDo(s)
    case ApplyFault => ApplyFaultDo(s)
    case ClearActive => ClearActiveDo(s)
    case ReleaseLock => ReleaseDo(s)
  }

  /** A run: states linked by enabled steps, from a state with nothing running. */
  ghost predicate Run(env: Env, states: seq<System>, steps: seq<Step>)
    requires env.policy.Valid()
  {
    && |states| == |steps| + 1
    && states[0] == INITIAL
    && forall i | 0 <= i < |steps| :: Enabled(env, states[i], steps[i]) && states[i + 1] == Do(env, states[i], steps[i])
  }
}
