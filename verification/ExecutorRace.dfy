/**
 Writes outside EXECUTING. A disconnect reads the driver state before it decides whether to stop the
 active command, and a connect that failed withdraws without looking, so a DISCONNECT_REQUESTED can land
 on a command accepted in between. This module says exactly when a write attempt of an uncancelled
 command meets a driver that is not EXECUTING, what such an attempt does, and exhibits the runs.
 */
module ExecutorRace {
  import opened Prelude
  import opened Trajectories
  import opened Safety
  import opened DriverStates
  import opened ExecutorModel
  import opened ExecutorLog
  import opened ExecutorInvariant
  import opened ExecutorLifecycle

  /** The part of the body after the accepting apply. */
  predicate InLoop(pc: Pc) {
    InBody(pc) && !pc.ApplyAccepted?
  }

  /** Command c is in its loop and nothing has cancelled it. */
  predicate Running(s: System, c: CommandId) {
    s.worker.Worker? && s.worker.id == c && InLoop(s.worker.pc) && !IsCanceled(s)
  }

  predicate PastAcceptance(s: System, c: CommandId) {
    && c < s.nextId
    && (s.worker.Worker? && s.worker.id == c ==> !BeforeAccept(s.worker.pc) && !s.worker.pc.ApplyAccepted?)
  }

  /** While an accepted command is not cancelled, no canceller holds the command lane. */
  predicate LaneQuiet(s: System) {
    s.worker.Worker? && Published(s.worker) && !IsCanceled(s) ==> !s.lane.Checking? && !s.lane.Faulting?
  }

  lemma StepKeepsLaneQuiet(env: Env, s: System, step: Step)
    requires env.policy.Valid() && Inv(env, s) && Enabled(env, s, step) && LaneQuiet(s)
    ensures LaneQuiet(Do(env, s, step))
  {
    hide Inv, Enabled, Do, LaneQuiet;
    if ByOtherThread(step) {
      OtherStepKeepsLaneQuiet(env, s, step);
    } else {
      WorkerStepKeepsLaneQuiet(env, s, step);
    }
  }

  lemma OtherStepKeepsLaneQuiet(env: Env, s: System, step: Step)
    requires env.policy.Valid() && Inv(env, s) && Enabled(env, s, step) && LaneQuiet(s) && ByOtherThread(step)
    ensures LaneQuiet(Do(env, s, step))
  {
    hide Safe, TimesIncrease, LogOk, Transition, WritesOf, ResultOk, StopOutcome, IdsOk, WorkerEnabled, PlanOk, SessionEnabled, SessionDo;
    if step.Session? {
      SessionStepFrame(s, step.act);
    }
  }

  lemma WorkerStepKeepsLaneQuiet(env: Env, s: System, step: Step)
    requires env.policy.Valid() && Inv(env, s) && Enabled(env, s, step) && LaneQuiet(s) && !ByOtherThread(step)
    ensures LaneQuiet(Do(env, s, step))
  {
    hide Safe, TimesIncrease, LogOk, Transition, WritesOf, ResultOk, StopOutcome, IdsOk, PlanOk, StopOk, Inv;
  }

  lemma StepKeepsPastAcceptance(env: Env, s: System, step: Step, c: CommandId)
    requires env.policy.Valid() && Enabled(env, s, step) && PastAcceptance(s, c)
    ensures PastAcceptance(Do(env, s, step), c)
  {
    hide Enabled, Do, PastAcceptance;
    if ByOtherThread(step) {
      OtherStepKeepsPastAcceptance(env, s, step, c);
    } else {
      WorkerStepKeepsPastAcceptance(env, s, step, c);
    }
  }

  lemma OtherStepKeepsPastAcceptance(env: Env, s: System, step: Step, c: CommandId)
    requires env.policy.Valid() && Enabled(env, s, step) && PastAcceptance(s, c) && ByOtherThread(step)
    ensures PastAcceptance(Do(env, s, step), c)
  {
    hide Safe, TimesIncrease, Transition, StopOutcome, WorkerEnabled, SessionEnabled, SessionDo;
    if step.Session? {
      SessionStepFrame(s, step.act);
    }
  }

  lemma WorkerStepKeepsPastAcceptance(env: Env, s: System, step: Step, c: CommandId)
    requires env.policy.Valid() && Enabled(env, s, step) && PastAcceptance(s, c) && !ByOtherThread(step)
    ensures PastAcceptance(Do(env, s, step), c)
  {
    if Ending(step) {
      EndingStepKeepsPastAcceptance(env, s, step, c);
    } else {
      hide Safe, TimesIncrease, Transition;
    }
  }

  lemma EndingStepKeepsPastAcceptance(env: Env, s: System, step: Step, c: CommandId)
    requires env.policy.Valid() && Enabled(env, s, step) && PastAcceptance(s, c) && Ending(step)
    ensures PastAcceptance(Do(env, s, step), c)
  {
    hide Admissible, TimesIncrease, Transition, StopOutcome, OtherEnabled, BeginDo, BusyDo, CancelDo, StopNowDo, CheckStopDo, FaultStopDo,
      SessionDo, SessionEnabled, ReadStateDo, AcceptDo, ApplyAcceptDo, StartClockDo, RecheckDo, WriteDo, ReadFreshDo, CommitDo;
  }

  /** One step of a command that stays running: only a disconnect request takes it out of EXECUTING,
      and nothing brings it back. */
  lemma StepOfRunning(env: Env, s: System, step: Step, c: CommandId)
    requires env.policy.Valid() && Inv(env, s) && Enabled(env, s, step) && LaneQuiet(s) && PastAcceptance(s, c)
    requires Running(Do(env, s, step), c)
    ensures Running(s, c)
    ensures Do(env, s, step).driver == Executing
      <==> s.driver == Executing && !Withdraws(step)
  {
    hide Inv, Enabled, Do, LaneQuiet, Running, PastAcceptance;
    if ByOtherThread(step) {
      OtherStepOfRunning(env, s, step, c);
    } else {
      WorkerStepOfRunning(env, s, step, c);
    }
  }

  lemma OtherStepOfRunning(env: Env, s: System, step: Step, c: CommandId)
    requires env.policy.Valid() && Inv(env, s) && Enabled(env, s, step) && LaneQuiet(s) && PastAcceptance(s, c)
    requires Running(Do(env, s, step), c) && ByOtherThread(step)
    ensures Running(s, c)
    ensures Do(env, s, step).driver == Executing
      <==> s.driver == Executing && !Withdraws(step)
  {
    hide Safe, TimesIncrease, LogOk, WritesOf, ResultOk, StopOutcome, IdsOk, PlanOk, WorkerEnabled, SessionEnabled, SessionDo;
    if step.Session? {
      SessionStepFrame(s, step.act);
    }
    if s.worker.Worker? {
      BodyIsAccepted(env, s);
    }
  }

  lemma WorkerStepOfRunning(env: Env, s: System, step: Step, c: CommandId)
    requires env.policy.Valid() && Inv(env, s) && Enabled(env, s, step) && PastAcceptance(s, c)
    requires Running(Do(env, s, step), c) && !ByOtherThread(step)
    ensures Running(s, c)
    ensures Do(env, s, step).driver == Executing <==> s.driver == Executing
  {
    if Ending(step) {
      hide Inv, PastAcceptance;
      EndingStepsLeaveLoop(env, s, step);
    } else {
      hide Safe, TimesIncrease, Transition, Inv;
      OwnerPart(env, s);
    }
  }

  lemma EndingStepsLeaveLoop(env: Env, s: System, step: Step)
    requires env.policy.Valid() && Enabled(env, s, step) && Ending(step)
    ensures var t := Do(env, s, step); t.worker.Worker? ==> !InLoop(t.worker.pc)
  {
    hide Safe, TimesIncrease, Transition, StopOutcome;
  }

  lemma {:induction false} RunFacts(env: Env, states: seq<System>, steps: seq<Step>, i: nat)
    requires env.policy.Valid() && Run(env, states, steps) && i < |states|
    ensures Inv(env, states[i]) && LaneQuiet(states[i])
  {
    hide Inv, Do, Enabled, LaneQuiet;
    RunKeepsInv(env, states, steps, i);
    if i == 0 {
      assert LaneQuiet(INITIAL) by { NothingRuns(); }
    } else {
      RunFacts(env, states, steps, i - 1);
      StepKeepsLaneQuiet(env, states[i - 1], steps[i - 1]);
    }
  }

  lemma NothingRuns()
    ensures LaneQuiet(INITIAL)
  {
  }

  /** Command c was accepted from Idle by step a and is running uncancelled in state i. */
  ghost predicate RunsFrom(env: Env, states: seq<System>, steps: seq<Step>, a: nat, i: nat, c: CommandId)
    requires env.policy.Valid()
  {
    && Run(env, states, steps) && a < i < |states|
    && steps[a] == ApplyAccept && states[a].worker.Worker? && states[a].worker.id == c && states[a].driver == Idle
    && Running(states[i], c)
  }

  lemma LastStepOfRun(env: Env, states: seq<System>, steps: seq<Step>, a: nat, i: nat, c: CommandId)
    requires env.policy.Valid() && RunsFrom(env, states, steps, a, i, c) && i > a + 1
    ensures RunsFrom(env, states, steps, a, i - 1, c)
    ensures states[i].driver == Executing <==> states[i - 1].driver == Executing && !Withdraws(steps[i - 1])
  {
    hide Inv, Do, Enabled, LaneQuiet, Running;
    RunFacts(env, states, steps, i - 1);
    StaysPastAcceptance(env, states, steps, a, i - 1, c);
    assert states[i] == Do(env, states[i - 1], steps[i - 1]);
    StepOfRunning(env, states[i - 1], steps[i - 1], c);
  }

  /** From the acceptance of c on, as long as c is not cancelled, the driver is executing exactly as
      long as no disconnect request was applied. */
  lemma {:induction false} ExecutingUnlessDisconnected(env: Env, states: seq<System>, steps: seq<Step>, a: nat, i: nat,
                                                       c: CommandId)
    requires env.policy.Valid() && RunsFrom(env, states, steps, a, i, c)
    ensures states[i].driver == Executing <==> forall k | a < k < i :: !Withdraws(steps[k])
    decreases i
  {
    hide Inv, Do, Enabled, LaneQuiet, Running;
    if i == a + 1 {
      assert states[i] == Do(env, states[a], steps[a]);
      AcceptanceExecutes(env, states[a]);
    } else {
      LastStepOfRun(env, states, steps, a, i, c);
      ExecutingUnlessDisconnected(env, states, steps, a, i - 1, c);
    }
  }

  lemma {:induction false} RunsBefore(env: Env, states: seq<System>, steps: seq<Step>, a: nat, m: nat, i: nat, c: CommandId)
    requires env.policy.Valid() && RunsFrom(env, states, steps, a, i, c) && a < m <= i
    ensures RunsFrom(env, states, steps, a, m, c)
    decreases i
  {
    hide RunsFrom;
    if m < i {
      LastStepOfRun(env, states, steps, a, i, c) by { BoundsOfRun(env, states, steps, a, i, c); }
      RunsBefore(env, states, steps, a, m, i - 1, c);
    }
  }

  lemma BoundsOfRun(env: Env, states: seq<System>, steps: seq<Step>, a: nat, i: nat, c: CommandId)
    requires env.policy.Valid() && RunsFrom(env, states, steps, a, i, c)
    ensures Run(env, states, steps) && a < i < |states| && Running(states[i], c)
  {
  }

  lemma AcceptanceExecutes(env: Env, s: System)
    requires env.policy.Valid() && Enabled(env, s, ApplyAccept) && s.driver == Idle
    ensures Do(env, s, ApplyAccept).driver == Executing
  {
  }

  lemma {:induction false} StaysPastAcceptance(env: Env, states: seq<System>, steps: seq<Step>, a: nat, i: nat, c: CommandId)
    requires env.policy.Valid() && Run(env, states, steps) && a < i < |states|
    requires steps[a] == ApplyAccept && states[a].worker.id == c
    ensures PastAcceptance(states[i], c)
    decreases i
  {
    hide Do, Enabled, PastAcceptance, Inv;
    if i == a + 1 {
      RunKeepsInv(env, states, steps, a);
      assert states[i] == Do(env, states[a], steps[a]);
      AcceptedIdIsUsed(env, states[a]);
    } else {
      StaysPastAcceptance(env, states, steps, a, i - 1, c);
      StepKeepsPastAcceptance(env, states[i - 1], steps[i - 1], c);
    }
  }

  lemma AcceptedIdIsUsed(env: Env, s: System)
    requires env.policy.Valid() && Inv(env, s) && Enabled(env, s, ApplyAccept)
    ensures PastAcceptance(Do(env, s, ApplyAccept), s.worker.id)
  {
    hide LogOk, PlanOk, StopOk;
  }

  // ---------------------------------------------------------------------------------------------
  // The operation that disconnects a running command
  // ---------------------------------------------------------------------------------------------

  /** One connect or disconnect begins with step b before the acceptance a and applies its
      DISCONNECT_REQUESTED with step k, between the acceptance and state i. */
  ghost predicate EarlierOperationWithdraws(states: seq<System>, steps: seq<Step>, b: nat, a: nat, k: nat, i: nat) {
    && b < a < k < i < |states| && |states| == |steps| + 1
    && Begins(steps[b]) && Withdraws(steps[k]) && SameOperation(states, b, k)
  }

  lemma {:induction false} FirstWithdrawal(steps: seq<Step>, a: nat, i: nat) returns (k: nat)
    requires a < i <= |steps| && exists m :: a < m < i && Withdraws(steps[m])
    ensures a < k < i && Withdraws(steps[k]) && forall m | a < m < k :: !Withdraws(steps[m])
    decreases i
  {
    if m :| a < m < i - 1 && Withdraws(steps[m]) {
      k := FirstWithdrawal(steps, a, i - 1);
    } else {
      k := i - 1;
    }
  }

  lemma StopCancelsRunning(env: Env, s: System, step: Step, c: CommandId)
    requires env.policy.Valid() && Enabled(env, s, step) && Inv(env, s) && Running(s, c)
    requires step.Session? && step.act.StopForClose?
    ensures !Running(Do(env, s, step), c)
  {
    hide Safe, TimesIncrease, WorkerEnabled, StopOutcome, IdsOk, OwnerOk, LogOk, PlanOk, Inv;
    assert StopOk(s) by { InvParts(env, s); }
    assert s.worker.accepted by {
      InvParts(env, s);
      BodyIsAccepted(env, s);
    }
  }

  lemma BeginSteps(env: Env, s: System, step: Step)
    requires env.policy.Valid() && Enabled(env, s, step) && Begins(step)
    ensures step == Session(OpenRequest) ==> s.driver == Disconnected
    ensures step == Session(ReadForClose) && s.driver == Executing ==> Do(env, s, step).lifecycle.StopPending?
  {
    hide Safe, TimesIncrease, WorkerEnabled, CancelDo;
  }

  lemma WithdrawalStep(env: Env, s: System, step: Step)
    requires env.policy.Valid() && Enabled(env, s, step) && Withdraws(step)
    ensures AboutToDisconnect(s.lifecycle)
  {
    hide Safe, TimesIncrease, WorkerEnabled, CancelDo;
  }

  /** The first withdrawal from under a running command belongs to an operation that began before the
      acceptance: one begun later would have seen EXECUTING and stopped the command. */
  lemma WithdrawalIsEarlier(env: Env, states: seq<System>, steps: seq<Step>, a: nat, k: nat, i: nat, c: CommandId)
    returns (b: nat)
    requires env.policy.Valid() && RunsFrom(env, states, steps, a, i, c)
    requires a < k < i && Withdraws(steps[k]) && forall m | a < m < k :: !Withdraws(steps[m])
    ensures EarlierOperationWithdraws(states, steps, b, a, k, i)
  {
    hide Inv, Do, Enabled, Running;
    WithdrawalStep(env, states[k], steps[k]);
    b := OperationBegan(env, states, steps, k);
    if b > a {
      RunsBefore(env, states, steps, a, b, i, c);
      ExecutingUnlessDisconnected(env, states, steps, a, b, c);
      BeginSteps(env, states[b], steps[b]);
      assert states[b + 1] == Do(env, states[b], steps[b]);
      var m := SeenExecutingIsStopped(env, states, steps, b + 1, k);
      RunsBefore(env, states, steps, a, m, i, c);
      RunsBefore(env, states, steps, a, m + 1, i, c);
      RunKeepsInv(env, states, steps, m);
      StopCancelsRunning(env, states[m], steps[m], c);
      assert false;
    }
  }

  /** A write attempt for an uncancelled command meets a driver that is not EXECUTING if and only if a
      connect or disconnect that began before the acceptance applied its DISCONNECT_REQUESTED in between. */
  lemma WriteOutsideExecuting(env: Env, states: seq<System>, steps: seq<Step>, a: nat, i: nat, c: CommandId)
    requires env.policy.Valid() && RunsFrom(env, states, steps, a, i, c)
    ensures states[i].driver != Executing <==> exists b, k :: EarlierOperationWithdraws(states, steps, b, a, k, i)
  {
    hide Inv, Do, Enabled, Running;
    ExecutingUnlessDisconnected(env, states, steps, a, i, c);
    if states[i].driver != Executing {
      var k := FirstWithdrawal(steps, a, i);
      var b := WithdrawalIsEarlier(env, states, steps, a, k, i, c);
    }
  }

  /** What a caller can see at the acceptance: with no connect or disconnect under way, every write
      attempt of the command until it is cancelled meets EXECUTING. */
  lemma QuietAcceptance(env: Env, states: seq<System>, steps: seq<Step>, a: nat, i: nat, c: CommandId)
    requires env.policy.Valid() && RunsFrom(env, states, steps, a, i, c) && states[a].lifecycle.Resting?
    ensures states[i].driver == Executing
  {
    hide RunsFrom, Run;
    WriteOutsideExecuting(env, states, steps, a, i, c);
  }

  /** The driver is DISCONNECTED under a running command exactly from such a withdrawal until the
      request of the next connect. */
  lemma {:induction false} DisconnectedUntilNextConnect(env: Env, states: seq<System>, steps: seq<Step>, a: nat, i: nat,
                                                        c: CommandId)
    requires env.policy.Valid() && RunsFrom(env, states, steps, a, i, c)
    ensures states[i].driver == Disconnected <==>
      exists k :: a < k < i && Withdraws(steps[k]) && forall m | k < m < i :: steps[m] != Session(OpenRequest)
    decreases i
  {
    hide Inv, Do, Enabled, Running;
    if i == a + 1 {
      assert states[i] == Do(env, states[a], steps[a]);
      AcceptanceExecutes(env, states[a]);
    } else {
      RunsBefore(env, states, steps, a, i - 1, i, c);
      DisconnectedUntilNextConnect(env, states, steps, a, i - 1, c);
      RunKeepsLifecycle(env, states, steps, i - 1);
      assert states[i] == Do(env, states[i - 1], steps[i - 1]);
      DisconnectedStep(env, states[i - 1], steps[i - 1]);
    }
  }

  // ---------------------------------------------------------------------------------------------
  // What such a write attempt does
  // ---------------------------------------------------------------------------------------------

  /** No write that meets a DISCONNECTED driver is acknowledged, or even refused: the attempt raises and
      enters the except clause. */
  lemma WriteWhileDisconnectedRaises(env: Env, states: seq<System>, steps: seq<Step>, i: nat, reply: Reply)
    requires env.policy.Valid() && Run(env, states, steps) && i < |steps|
    requires steps[i] == WriteTarget(reply) && states[i].driver == Disconnected && !IsCanceled(states[i])
    ensures exists e: Event :: e.Wrote? && e.id == states[i].worker.id && e.reply == Raised && states[i + 1].log == states[i].log + [e]
    ensures states[i + 1].worker.Worker? && states[i + 1].worker.pc == FailStop(true)
  {
    hide Inv, Do, Enabled, IsCanceled;
    RunKeepsLifecycle(env, states, steps, i);
    assert states[i + 1] == Do(env, states[i], steps[i]);
    RaisedAttempt(env, states[i], reply);
  }

  lemma RaisedAttempt(env: Env, s: System, reply: Reply)
    requires env.policy.Valid() && Enabled(env, s, WriteTarget(reply)) && !IsCanceled(s) && !s.connected
    ensures var t := Do(env, s, WriteTarget(reply));
      && t.worker.Worker? && t.worker.pc == FailStop(true)
      && exists e: Event :: e.Wrote? && e.id == s.worker.id && e.reply == Raised && t.log == s.log + [e]
  {
    var w := s.worker;
    var e := Wrote(w.id, w.pc.k, w.points[w.pc.k].position, s.now, Raised);
    assert Do(env, s, WriteTarget(reply)).log == s.log + [e];
  }

  lemma AttachingStep(env: Env, s: System, step: Step)
    requires env.policy.Valid() && Enabled(env, s, step) && !s.connected && Do(env, s, step).connected
    ensures step == Session(Attach(true))
  {
    hide Enabled, Do, StopNowDo, Transition;
    StepFrame(env, s, step);
    if step.Session? && step.act.StopForClose? {
      StopNowKeepsSession(s, StopReply(s, step.act.ok));
    }
  }

  lemma {:induction false} AttachedInBetween(env: Env, states: seq<System>, steps: seq<Step>, k: nat, i: nat) returns (m: nat)
    requires env.policy.Valid() && Run(env, states, steps) && k < i < |states| && !states[k].connected && states[i].connected
    ensures k <= m < i && steps[m] == Session(Attach(true))
    decreases i
  {
    hide Do, Enabled;
    m := i - 1;
    if states[m].connected {
      m := AttachedInBetween(env, states, steps, k, i - 1);
    } else {
      AttachingStep(env, states[m], steps[m]);
    }
  }

  /** A write that meets an open adapter outside EXECUTING goes to the next connection: after the
      withdrawal another connect has attached the adapter again. */
  lemma WriteInNextConnection(env: Env, states: seq<System>, steps: seq<Step>, a: nat, i: nat, c: CommandId)
    returns (b: nat, k: nat, m: nat)
    requires env.policy.Valid() && RunsFrom(env, states, steps, a, i, c)
    requires states[i].driver != Executing && states[i].connected
    ensures EarlierOperationWithdraws(states, steps, b, a, k, i)
    ensures k < m < i && steps[m] == Session(Attach(true))
    ensures states[i].driver != Disconnected
  {
    hide Inv, Do, Enabled, Running;
    WriteOutsideExecuting(env, states, steps, a, i, c);
    b, k :| EarlierOperationWithdraws(states, steps, b, a, k, i);
    RunKeepsLifecycle(env, states, steps, k);
    RunKeepsLifecycle(env, states, steps, i);
    WithdrawalStep(env, states[k], steps[k]);
    m := AttachedInBetween(env, states, steps, k, i);
  }

  // ---------------------------------------------------------------------------------------------
  // The runs
  // ---------------------------------------------------------------------------------------------

  lemma Extend(env: Env, states: seq<System>, steps: seq<Step>, step: Step) returns (longer: seq<System>, all: seq<Step>)
    requires env.policy.Valid() && Run(env, states, steps) && Enabled(env, states[|steps|], step)
    ensures Run(env, longer, all) && all == steps + [step] && |longer| == |all| + 1
    ensures longer[|all|] == Do(env, states[|steps|], step) && longer[|all| - 1] == states[|steps|]
  {
    hide Do, Enabled;
    longer, all := states + [Do(env, states[|steps|], step)], steps + [step];
  }

  lemma ConnectedRun(env: Env) returns (states: seq<System>, steps: seq<Step>)
    requires env.policy.Valid()
    ensures Run(env, states, steps) && states[|steps|] == INITIAL.(driver := Idle, connected := true)
  {
    states, steps := [INITIAL], [];
    states, steps := Extend(env, states, steps, Session(OpenRequest));
    states, steps := Extend(env, states, steps, Session(Attach(true)));
    states, steps := Extend(env, states, steps, Session(OpenApply));
  }

  /** The names of the policy, and a state received at time zero. */
  function FreshStamp(env: Env): Stamp {
    Stamp(env.policy.jointNames, 0.0)
  }

  function AtWork(driver: DriverState, pc: Pc, measured: JointVector, points: seq<TrajectoryPoint>, stamp: Stamp, now: real,
                  log: seq<Event>, connected: bool, lifecycle: Lifecycle): System {
    System(driver, 0, Some(0), NoStop, Worker(0, measured, points, stamp, true, 0, 0.0, pc), Free, now, 1, log,
           connected, lifecycle, Recoveries(0, 0, 0))
  }

  /** A disconnect reads Idle, and then a command is accepted. */
  lemma AcceptedAfterRead(env: Env, measured: JointVector, points: seq<TrajectoryPoint>)
    returns (states: seq<System>, steps: seq<Step>)
    requires env.policy.Valid() && points != [] && TimesIncrease(points) && Safe(env.policy, env.kin, measured, points)
    requires env.policy.stateTimeout >= 0.0
    ensures Run(env, states, steps)
    ensures states[|steps|] == AtWork(Executing, ReadClock, measured, points, FreshStamp(env), 0.0, [Accepted(0, measured, points)], true, Releasing)
  {
    hide Safe, TimesIncrease, Run;
    states, steps := ConnectedRun(env);
    states, steps := Extend(env, states, steps, Session(ReadForClose));
    states, steps := Extend(env, states, steps, Begin(measured, points, FreshStamp(env)));
    states, steps := Extend(env, states, steps, ReadState);
    states, steps := Extend(env, states, steps, ValidatePasses);
    states, steps := Extend(env, states, steps, AcceptLane);
    states, steps := Extend(env, states, steps, ApplyAccept);
  }

  lemma AtFirstDeadline(env: Env, measured: JointVector, points: seq<TrajectoryPoint>)
    returns (states: seq<System>, steps: seq<Step>)
    requires env.policy.Valid() && points != [] && TimesIncrease(points) && Safe(env.policy, env.kin, measured, points)
    requires env.policy.stateTimeout >= 0.0
    ensures Run(env, states, steps)
    ensures states[|steps|] == AtWork(Executing, Wait(0), measured, points, FreshStamp(env), points[0].time,
                                      [Accepted(0, measured, points), Started(0, 0.0)], true, Releasing)
  {
    assert points[0].time >= 0.0;
    hide Safe, TimesIncrease, Run;
    states, steps := AcceptedAfterRead(env, measured, points);
    states, steps := Extend(env, states, steps, StartClock);
    states, steps := Extend(env, states, steps, Tick(points[0].time));
  }

  /** The command comes to its first write when its time is due. */
  lemma AtFirstWrite(env: Env, measured: JointVector, points: seq<TrajectoryPoint>)
    returns (states: seq<System>, steps: seq<Step>)
    requires env.policy.Valid() && points != [] && TimesIncrease(points) && Safe(env.policy, env.kin, measured, points)
    requires env.policy.stateTimeout >= 0.0
    ensures Run(env, states, steps)
    ensures states[|steps|] == AtWork(Executing, WriteLane(0), measured, points, FreshStamp(env), points[0].time,
                                      [Accepted(0, measured, points), Started(0, 0.0)], true, Releasing)
  {
    hide Safe, TimesIncrease, Run;
    states, steps := AtFirstDeadline(env, measured, points);
    states, steps := Extend(env, states, steps, WaitReturns);
    states, steps := Extend(env, states, steps, RecheckCancel);
  }

  lemma DisconnectedUnderCommand(env: Env, measured: JointVector, points: seq<TrajectoryPoint>)
    returns (states: seq<System>, steps: seq<Step>)
    requires env.policy.Valid() && points != [] && TimesIncrease(points) && Safe(env.policy, env.kin, measured, points)
    requires env.policy.stateTimeout >= 0.0
    ensures Run(env, states, steps)
    ensures states[|steps|] == AtWork(Disconnected, WriteLane(0), measured, points, FreshStamp(env), points[0].time,
                                      [Accepted(0, measured, points), Started(0, 0.0)], false, Resting)
  {
    hide Safe, TimesIncrease, Run;
    states, steps := AtFirstWrite(env, measured, points);
    states, steps := Extend(env, states, steps, Session(Detach(true)));
    states, steps := Extend(env, states, steps, Session(CheckClosed));
    states, steps := Extend(env, states, steps, Session(Close));
  }

  /** For every safe trajectory there is a run in which a disconnect takes the driver to DISCONNECTED
      under the running command: its first write attempt raises, its stop fails, and it ends as FAILED. */
  lemma AttemptWhileDisconnected(env: Env, measured: JointVector, points: seq<TrajectoryPoint>)
    returns (states: seq<System>, steps: seq<Step>)
    requires env.policy.Valid() && points != [] && TimesIncrease(points) && Safe(env.policy, env.kin, measured, points)
    requires env.policy.stateTimeout >= 0.0
    ensures Run(env, states, steps) && |states| == |steps| + 1
    ensures states[|steps|].driver == Disconnected && states[|steps|].worker.NoWorker?
    ensures states[|steps|].log
         == [Accepted(0, measured, points), Started(0, 0.0), Wrote(0, 0, points[0].position, points[0].time, Raised),
             StopIssued(0, false), Returned(0, Failed)]
  {
    hide Safe, TimesIncrease, Run;
    states, steps := DisconnectedUnderCommand(env, measured, points);
    states, steps := Extend(env, states, steps, WriteTarget(Acknowledged));
    states, steps := Extend(env, states, steps, StopAfterFailure(true));
    states, steps := Extend(env, states, steps, CheckAfterFailure);
    states, steps := Extend(env, states, steps, ClearActive);
    states, steps := Extend(env, states, steps, ReleaseLock);
  }

  /** When the session connects again before that attempt, the old command writes into the new
      connection, while the driver is IDLE, and the write is acknowledged. */
  lemma WriteWhileIdle(env: Env, measured: JointVector, points: seq<TrajectoryPoint>)
    returns (states: seq<System>, steps: seq<Step>)
    requires env.policy.Valid() && points != [] && TimesIncrease(points) && Safe(env.policy, env.kin, measured, points)
    requires env.policy.stateTimeout >= 0.0
    ensures Run(env, states, steps) && |steps| > 0 && |states| == |steps| + 1
    ensures states[|steps| - 1].driver == Idle && states[|steps|].driver == Idle
    ensures states[|steps|].log
         == [Accepted(0, measured, points), Started(0, 0.0), Wrote(0, 0, points[0].position, points[0].time, Acknowledged)]
  {
    hide Safe, TimesIncrease, Run;
    states, steps := DisconnectedUnderCommand(env, measured, points);
    states, steps := Extend(env, states, steps, Session(OpenRequest));
    states, steps := Extend(env, states, steps, Session(Attach(true)));
    states, steps := Extend(env, states, steps, Session(OpenApply));
    states, steps := Extend(env, states, steps, WriteTarget(Acknowledged));
  }

  lemma FaultedRun(env: Env) returns (states: seq<System>, steps: seq<Step>)
    requires env.policy.Valid()
    ensures Run(env, states, steps)
    ensures states[|steps|] == System(Fault, 1, None, Stopped(0, false), NoWorker, Free, 0.0, 1,
                                      [Bumped(None), StopIssued(0, false)], true, Resting, Recoveries(0, 0, 0))
  {
    hide Run;
    states, steps := ConnectedRun(env);
    states, steps := Extend(env, states, steps, StopNowCall(false));
    states, steps := Extend(env, states, steps, CancellerCheck);
    states, steps := Extend(env, states, steps, CancellerApply);
  }

  /** One recover has read the state of the open adapter when a disconnect takes the driver away; its
      result is still to be applied. */
  lemma RecoveredTooEarly(env: Env) returns (states: seq<System>, steps: seq<Step>)
    requires env.policy.Valid()
    ensures Run(env, states, steps)
    ensures states[|steps|] == System(Disconnected, 1, None, Stopped(0, false), NoWorker, Free, 0.0, 1,
                                      [Bumped(None), StopIssued(0, false)], false, Resting, Recoveries(0, 1, 0))
  {
    hide Run;
    states, steps := FaultedRun(env);
    states, steps := Extend(env, states, steps, Session(RecoverRequest));
    states, steps := Extend(env, states, steps, Session(RecoverRead(true)));
    states, steps := Extend(env, states, steps, Session(ReadForClose));
    states, steps := Extend(env, states, steps, Session(Detach(true)));
    states, steps := Extend(env, states, steps, Session(CheckClosed));
    states, steps := Extend(env, states, steps, Session(Close));
  }

  /** Then its last apply raises: the driver stays DISCONNECTED and the recovery is over. */
  lemma RecoverApplyRaises(env: Env) returns (states: seq<System>, steps: seq<Step>)
    requires env.policy.Valid()
    ensures Run(env, states, steps) && |steps| > 0 && |states| == |steps| + 1
    ensures steps[|steps| - 1] == Session(RecoverApply(true)) && Transition(states[|steps| - 1].driver, RecoverySucceeded).None?
    ensures states[|steps| - 1].driver == Disconnected && states[|steps| - 1].recoveries.succeeded == 1
    ensures states[|steps|].driver == Disconnected && states[|steps|].recoveries == Recoveries(0, 0, 0)
  {
    hide Run;
    states, steps := RecoveredTooEarly(env);
    states, steps := Extend(env, states, steps, Session(RecoverApply(true)));
  }

  /** The next connect fails and cleans up. */
  lemma CleanedUp(env: Env) returns (states: seq<System>, steps: seq<Step>)
    requires env.policy.Valid()
    ensures Run(env, states, steps)
    ensures states[|steps|] == System(Fault, 1, None, Stopped(0, false), NoWorker, Free, 0.0, 1,
                                      [Bumped(None), StopIssued(0, false)], false, Withdrawing, Recoveries(0, 1, 0))
  {
    hide Run;
    states, steps := RecoveredTooEarly(env);
    states, steps := Extend(env, states, steps, Session(OpenRequest));
    states, steps := Extend(env, states, steps, Session(Attach(false)));
    states, steps := Extend(env, states, steps, Session(Clean(true)));
    states, steps := Extend(env, states, steps, Session(FailOpen));
  }

  /** A second recover and the late result of the first one make the driver Idle before the withdrawal. */
  lemma IdleBeforeWithdrawal(env: Env) returns (states: seq<System>, steps: seq<Step>)
    requires env.policy.Valid()
    ensures Run(env, states, steps)
    ensures states[|steps|] == System(Idle, 1, None, Stopped(0, false), NoWorker, Free, 0.0, 1,
                                      [Bumped(None), StopIssued(0, false)], false, Withdrawing, Recoveries(1, 0, 0))
  {
    hide Run;
    states, steps := CleanedUp(env);
    states, steps := Extend(env, states, steps, Session(RecoverRequest));
    states, steps := Extend(env, states, steps, Session(RecoverApply(true)));
  }

  /** Not only disconnect can do it: the withdrawal of a connect that failed can land on a command too. */
  lemma FailedConnectWithdraws(env: Env, measured: JointVector, points: seq<TrajectoryPoint>)
    returns (states: seq<System>, steps: seq<Step>)
    requires env.policy.Valid() && points != [] && TimesIncrease(points) && Safe(env.policy, env.kin, measured, points)
    requires env.policy.stateTimeout >= 0.0
    ensures Run(env, states, steps) && |steps| > 1 && |states| == |steps| + 1
    ensures steps[|steps| - 1] == Session(Withdraw)
    ensures states[|steps| - 1].driver == Executing && Running(states[|steps| - 1], 1)
    ensures states[|steps|].driver == Disconnected && Running(states[|steps|], 1)
  {
    hide Safe, TimesIncrease, Run;
    states, steps := IdleBeforeWithdrawal(env);
    states, steps := Extend(env, states, steps, Begin(measured, points, FreshStamp(env)));
    states, steps := Extend(env, states, steps, ReadState);
    states, steps := Extend(env, states, steps, ValidatePasses);
    states, steps := Extend(env, states, steps, AcceptLane);
    states, steps := Extend(env, states, steps, ApplyAccept);
    states, steps := Extend(env, states, steps, Session(Withdraw));
  }
}
