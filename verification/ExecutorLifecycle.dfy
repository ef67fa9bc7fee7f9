/**
 The session's side of the protocol: what connect, disconnect and recover leave true between their
 blocks, whatever the executing thread and the cancelling threads do meanwhile.
 */
module ExecutorLifecycle {
  import opened Prelude
  import opened Trajectories
  import opened Safety
  import opened DriverStates
  import opened ExecutorModel
  import opened ExecutorInvariant

  predicate InConnect(l: Lifecycle) {
    l.Opening? || l.Opened? || l.Cleaning? || l.FailingOpen?
  }

  /** A released adapter waits for its DISCONNECT_REQUESTED. */
  predicate AboutToDisconnect(l: Lifecycle) {
    l.Withdrawing? || l.Closing?
  }

  /** The driver is Connecting exactly inside connect and never Disconnected with an open adapter. */
  predicate LifecycleOk(s: System) {
    && (s.driver == Connecting <==> InConnect(s.lifecycle))
    && (s.driver == Disconnected ==> !s.connected)
    && (s.lifecycle.FailingOpen? || s.lifecycle.Released? || AboutToDisconnect(s.lifecycle) ==> !s.connected)
    && (AboutToDisconnect(s.lifecycle) ==> s.driver != Disconnected)
    && (s.lifecycle.Opened? ==> s.connected)
    && (s.lifecycle.StopHeld? ==> s.lane.Checking? || s.lane.Faulting?)
  }

  lemma StepKeepsLifecycle(env: Env, s: System, step: Step)
    requires env.policy.Valid() && Inv(env, s) && Enabled(env, s, step) && LifecycleOk(s)
    ensures LifecycleOk(Do(env, s, step))
  {
    hide Inv, Enabled, Do, LifecycleOk;
    if ByOtherThread(step) {
      OtherStepKeepsLifecycle(env, s, step);
    } else {
      WorkerStepKeepsLifecycle(env, s, step);
    }
  }

  lemma OtherStepKeepsLifecycle(env: Env, s: System, step: Step)
    requires env.policy.Valid() && Enabled(env, s, step) && LifecycleOk(s) && ByOtherThread(step)
    ensures LifecycleOk(Do(env, s, step))
  {
    hide Safe, TimesIncrease, WorkerEnabled, SessionEnabled, SessionDo, CancelDo, StopNowDo, LifecycleOk;
    match step
    case CancelCall(ok) => CancelKeepsLifecycle(s, s.active.value, s.nextId, StopReply(s, ok));
    case StopNowCall(ok) => StopNowKeepsLifecycle(s, StopReply(s, ok));
    case Session(act) => SessionKeepsLifecycle(s, act);
    case CancellerCheck => CheckKeepsLifecycle(s);
    case CancellerApply => CheckKeepsLifecycle(s);
    case Begin(measured, points, stamp) => QuietKeepsLifecycle(s, BeginDo(s, measured, points, stamp));
    case Busy => QuietKeepsLifecycle(s, BusyDo(s));
    case Tick(dt) => QuietKeepsLifecycle(s, s.(now := s.now + dt));
  }

  lemma QuietKeepsLifecycle(s: System, t: System)
    requires LifecycleOk(s) && t.driver == s.driver && t.lane == s.lane
    requires t.connected == s.connected && t.lifecycle == s.lifecycle
    ensures LifecycleOk(t)
  {
  }

  lemma CancelKeepsLifecycle(s: System, id: CommandId, nextId: CommandId, ok: bool)
    requires LifecycleOk(s) && s.lane.Free?
    ensures LifecycleOk(CancelDo(s, id, nextId, ok)) && CancelDo(s, id, nextId, ok).lane.Checking?
    ensures CancelDo(s, id, nextId, ok).lifecycle == s.lifecycle
  {
  }

  lemma StopNowKeepsLifecycle(s: System, ok: bool)
    requires LifecycleOk(s) && s.lane.Free?
    ensures LifecycleOk(StopNowDo(s, ok)) && StopNowDo(s, ok).lane.Checking?
    ensures StopNowDo(s, ok).lifecycle == s.lifecycle
  {
    hide CancelDo;
    if s.active.Some? {
      CancelKeepsLifecycle(s, s.active.value, s.nextId, ok);
    } else {
      CancelKeepsLifecycle(s, s.nextId, s.nextId + 1, ok);
    }
  }

  lemma CheckKeepsLifecycle(s: System)
    requires LifecycleOk(s)
    ensures s.lane.Checking? ==> LifecycleOk(CheckStopDo(s))
    ensures s.lane.Faulting? ==> LifecycleOk(FaultStopDo(s))
  {
  }

  lemma SessionKeepsLifecycle(s: System, act: Act)
    requires LifecycleOk(s) && SessionEnabled(s, act)
    ensures LifecycleOk(SessionDo(s, act))
  {
    hide StopNowDo;
    if act.StopForClose? {
      StopNowKeepsLifecycle(s, StopReply(s, act.ok));
    }
  }

  lemma WorkerStepKeepsLifecycle(env: Env, s: System, step: Step)
    requires env.policy.Valid() && Inv(env, s) && Enabled(env, s, step) && LifecycleOk(s) && !ByOtherThread(step)
    ensures LifecycleOk(Do(env, s, step))
  {
    hide Inv, Enabled, Do;
    WorkerStepFrame(env, s, step);
  }

  /** The executing thread leaves the session alone and moves the driver only between Idle, Executing
      and Fault. */
  lemma WorkerStepFrame(env: Env, s: System, step: Step)
    requires env.policy.Valid() && Enabled(env, s, step) && !ByOtherThread(step)
    ensures var t := Do(env, s, step);
      && t.connected == s.connected && t.lifecycle == s.lifecycle && t.recoveries == s.recoveries
      && (t.lane == s.lane || LaneOpenToWorker(s))
      && (t.driver == s.driver || (s.driver in {Idle, Executing} && t.driver in {Idle, Executing, Fault}))
  {
    hide Enabled, Do;
    if Ending(step) {
      EndingStepFrame(env, s, step);
    } else {
      BodyStepFrame(env, s, step);
    }
  }

  /** The steps of the executing thread after the body. */
  predicate Ending(step: Step) {
    || step.StopAfterCancel? || step.CheckAfterCancel? || step.ApplyCanceled? || step.StopAfterFailure?
    || step.CheckAfterFailure? || step.ApplyFault? || step.ClearActive? || step.ReleaseLock?
  }

  lemma EndingStepFrame(env: Env, s: System, step: Step)
    requires env.policy.Valid() && Enabled(env, s, step) && Ending(step)
    ensures var t := Do(env, s, step);
      && t.connected == s.connected && t.lifecycle == s.lifecycle && t.recoveries == s.recoveries
      && (t.lane == s.lane || LaneOpenToWorker(s))
      && (t.driver == s.driver || (s.driver in {Idle, Executing} && t.driver in {Idle, Executing, Fault}))
  {
    hide Safe, TimesIncrease, StopOutcome, OtherEnabled;
  }

  lemma BodyStepFrame(env: Env, s: System, step: Step)
    requires env.policy.Valid() && Enabled(env, s, step) && !ByOtherThread(step) && !Ending(step)
    ensures var t := Do(env, s, step);
      && t.connected == s.connected && t.lifecycle == s.lifecycle && t.recoveries == s.recoveries
      && (t.lane == s.lane || LaneOpenToWorker(s))
      && (t.driver == s.driver || (s.driver in {Idle, Executing} && t.driver in {Idle, Executing, Fault}))
  {
    hide Safe, TimesIncrease, OtherEnabled;
  }

  /** What a step of another thread that is not the session's leaves alone. */
  lemma OtherStepFrame(env: Env, s: System, step: Step)
    requires env.policy.Valid() && Enabled(env, s, step) && ByOtherThread(step) && !step.Session?
    ensures var t := Do(env, s, step);
      && t.connected == s.connected && t.recoveries == s.recoveries
      && (t.lifecycle == s.lifecycle || s.lifecycle.StopHeld?)
      && (t.driver == s.driver || (s.driver in {Idle, Executing} && t.driver == Fault))
  {
    hide Safe, TimesIncrease, WorkerEnabled, SessionEnabled, SessionDo, StopOutcome;
  }

  lemma SessionStepIs(env: Env, s: System, step: Step)
    requires env.policy.Valid() && Enabled(env, s, step) && step.Session?
    ensures SessionEnabled(s, step.act) && Do(env, s, step) == SessionDo(s, step.act)
  {
    hide Safe, TimesIncrease, WorkerEnabled, SessionEnabled, SessionDo;
  }

  /** Three kinds of steps, and what each leaves alone. */
  lemma StepFrame(env: Env, s: System, step: Step)
    requires env.policy.Valid() && Enabled(env, s, step)
    ensures step.Session? ==> SessionEnabled(s, step.act) && Do(env, s, step) == SessionDo(s, step.act)
    ensures !step.Session? ==>
      var t := Do(env, s, step);
      && t.connected == s.connected && t.recoveries == s.recoveries
      && (t.lifecycle == s.lifecycle || s.lifecycle.StopHeld?)
      && (t.driver == s.driver || (s.driver in {Idle, Executing} && t.driver in {Idle, Executing, Fault}))
  {
    hide Enabled, Do, SessionEnabled, SessionDo;
    if step.Session? {
      SessionStepIs(env, s, step);
    } else if ByOtherThread(step) {
      OtherStepFrame(env, s, step);
    } else {
      WorkerStepFrame(env, s, step);
    }
  }

  lemma {:induction false} RunKeepsLifecycle(env: Env, states: seq<System>, steps: seq<Step>, i: nat)
    requires env.policy.Valid() && Run(env, states, steps) && i < |states|
    ensures LifecycleOk(states[i])
  {
    hide Inv, Do, Enabled;
    if i > 0 {
      RunKeepsLifecycle(env, states, steps, i - 1);
      RunKeepsInv(env, states, steps, i - 1);
      StepKeepsLifecycle(env, states[i - 1], steps[i - 1]);
    }
  }

  /** The applies of connect after its first one and the last apply of disconnect are always permitted:
      only the request that starts a connect and the applies of recover can raise. */
  lemma SessionAppliesSucceed(s: System)
    requires LifecycleOk(s)
    ensures s.lifecycle.Opened? ==> Transition(s.driver, ConnectSucceeded) == Some(Idle)
    ensures s.lifecycle.FailingOpen? ==> Transition(s.driver, ConnectFailed) == Some(Fault)
    ensures AboutToDisconnect(s.lifecycle) ==> Transition(s.driver, DisconnectRequested) == Some(Disconnected)
  {
  }

  // ---------------------------------------------------------------------------------------------
  // Operations
  // ---------------------------------------------------------------------------------------------

  /** The first block of connect or disconnect. */
  predicate Begins(step: Step) {
    step == Session(OpenRequest) || step == Session(ReadForClose)
  }

  /** The apply of DISCONNECT_REQUESTED, by disconnect or by a connect that failed. */
  predicate Withdraws(step: Step) {
    step == Session(Close) || step == Session(Withdraw)
  }

  /** One connect or disconnect is under way in all states after step b, up to state k. */
  predicate SameOperation(states: seq<System>, b: nat, k: nat) {
    k < |states| && forall m | b < m <= k :: !states[m].lifecycle.Resting?
  }

  /** What one block of the session leaves alone, and how it moves the driver from EXECUTING. */
  lemma SessionStepFrame(s: System, act: Act)
    requires SessionEnabled(s, act)
    ensures var t := SessionDo(s, act);
      && t.worker == s.worker && t.nextId >= s.nextId
      && (t.driver == Executing <==> s.driver == Executing && !Withdraws(Session(act)))
      && (if act.StopForClose? then t.generation == s.generation + 1 && t.lane.Checking?
          else t == s.(driver := t.driver, connected := t.connected, lifecycle := t.lifecycle, recoveries := t.recoveries))
  {
    hide StopNowDo;
    if act.StopForClose? {
      StopNowFrame(s, StopReply(s, act.ok));
    }
  }

  lemma StopNowKeepsSession(s: System, ok: bool)
    ensures var t := StopNowDo(s, ok);
      t.lifecycle == s.lifecycle && t.connected == s.connected && t.recoveries == s.recoveries
  {
  }

  lemma StopNowFrame(s: System, ok: bool)
    ensures var t := StopNowDo(s, ok);
      && t.worker == s.worker && t.driver == s.driver && t.nextId >= s.nextId
      && t.generation == s.generation + 1 && t.lane.Checking?
  {
    hide StopOutcome;
  }

  /** Only a withdrawal makes the driver DISCONNECTED, and only the request of a connect ends that. */
  lemma DisconnectedStep(env: Env, s: System, step: Step)
    requires env.policy.Valid() && Enabled(env, s, step) && LifecycleOk(s)
    ensures Do(env, s, step).driver == Disconnected <==>
      Withdraws(step) || (s.driver == Disconnected && step != Session(OpenRequest))
  {
    hide Enabled, Do, SessionEnabled, SessionDo;
    StepFrame(env, s, step);
    if step.Session? {
      SessionDisconnects(s, step.act);
    }
  }

  lemma SessionDisconnects(s: System, act: Act)
    requires SessionEnabled(s, act) && LifecycleOk(s)
    ensures SessionDo(s, act).driver == Disconnected <==>
      Withdraws(Session(act)) || (s.driver == Disconnected && act != OpenRequest)
  {
    hide StopNowDo;
    if act.StopForClose? {
      StopNowFrame(s, StopReply(s, act.ok));
    }
  }

  lemma OnlyBeginsLeavesRest(env: Env, s: System, step: Step)
    requires env.policy.Valid() && Enabled(env, s, step) && s.lifecycle.Resting? && !Do(env, s, step).lifecycle.Resting?
    ensures Begins(step)
  {
    hide Enabled, Do, StopNowDo, Transition;
    StepFrame(env, s, step);
  }

  /** Every operation under way has begun. */
  lemma {:induction false} OperationBegan(env: Env, states: seq<System>, steps: seq<Step>, k: nat) returns (b: nat)
    requires env.policy.Valid() && Run(env, states, steps) && k < |states| && !states[k].lifecycle.Resting?
    ensures b < k && Begins(steps[b]) && SameOperation(states, b, k)
  {
    hide Do, Enabled;
    b := k - 1;
    if states[b].lifecycle.Resting? {
      OnlyBeginsLeavesRest(env, states[b], steps[b]);
    } else {
      b := OperationBegan(env, states, steps, k - 1);
    }
  }

  lemma PendingStop(env: Env, s: System, step: Step)
    requires env.policy.Valid() && Enabled(env, s, step) && s.lifecycle.StopPending?
    ensures Do(env, s, step).lifecycle.StopPending? || (step.Session? && step.act.StopForClose?)
  {
    hide Enabled, Do, StopNowDo, Transition;
    StepFrame(env, s, step);
  }

  /** A disconnect that has seen EXECUTING calls stop_now before it goes on. */
  lemma {:induction false} SeenExecutingIsStopped(env: Env, states: seq<System>, steps: seq<Step>, b: nat, k: nat) returns (m: nat)
    requires env.policy.Valid() && Run(env, states, steps) && b < k < |states|
    requires states[b].lifecycle.StopPending? && !states[k].lifecycle.StopPending?
    ensures b <= m < k && steps[m].Session? && steps[m].act.StopForClose?
    decreases k
  {
    hide Do, Enabled;
    m := k - 1;
    if states[m].lifecycle.StopPending? {
      PendingStop(env, states[m], steps[m]);
    } else {
      m := SeenExecutingIsStopped(env, states, steps, b, k - 1);
    }
  }

  // ---------------------------------------------------------------------------------------------
  // Recovering
  // ---------------------------------------------------------------------------------------------

  /** The steps that take the driver out of RECOVERING. */
  predicate EndsRecovering(step: Step) {
    Withdraws(step) || (step.Session? && step.act.RecoverApply?)
  }

  lemma RecoveringStep(env: Env, s: System, step: Step)
    requires env.policy.Valid() && Enabled(env, s, step) && s.driver == Recovering && !EndsRecovering(step)
    ensures Do(env, s, step).driver == Recovering
  {
    hide Enabled, Do, StopNowDo;
    StepFrame(env, s, step);
    if step.Session? && step.act.StopForClose? {
      StopNowFrame(s, StopReply(s, step.act.ok));
    }
  }

  /** A driver that is no longer RECOVERING was taken out of it by a withdrawal or by a recover. */
  lemma {:induction false} RecoveringEnded(env: Env, states: seq<System>, steps: seq<Step>, i: nat, j: nat) returns (m: nat)
    requires env.policy.Valid() && Run(env, states, steps) && i < j < |states|
    requires states[i].driver == Recovering && states[j].driver != Recovering
    ensures i <= m < j && EndsRecovering(steps[m])
    decreases j
  {
    hide Do, Enabled;
    m := j - 1;
    if states[m].driver == Recovering {
      if !EndsRecovering(steps[m]) {
        RecoveringStep(env, states[m], steps[m]);
        assert false;
      }
    } else {
      m := RecoveringEnded(env, states, steps, i, j - 1);
    }
  }

  /** The steps that can take the driver out of FAULT. */
  predicate EndsFault(step: Step) {
    Withdraws(step) || step == Session(RecoverRequest)
  }

  lemma FaultStep(env: Env, s: System, step: Step)
    requires env.policy.Valid() && Enabled(env, s, step) && s.driver == Fault && !EndsFault(step)
    ensures Do(env, s, step).driver == Fault
  {
    hide Enabled, Do, StopNowDo;
    StepFrame(env, s, step);
    if step.Session? && step.act.StopForClose? {
      StopNowFrame(s, StopReply(s, step.act.ok));
    }
  }

  /** A driver that is no longer in FAULT was taken out of it by a withdrawal or by the request of a recover. */
  lemma {:induction false} FaultEnded(env: Env, states: seq<System>, steps: seq<Step>, i: nat, j: nat) returns (m: nat)
    requires env.policy.Valid() && Run(env, states, steps) && i < j < |states|
    requires states[i].driver == Fault && states[j].driver != Fault
    ensures i <= m < j && EndsFault(steps[m])
    decreases j
  {
    hide Do, Enabled;
    m := j - 1;
    if states[m].driver == Fault {
      if !EndsFault(steps[m]) {
        FaultStep(env, states[m], steps[m]);
        assert false;
      }
    } else {
      m := FaultEnded(env, states, steps, i, j - 1);
    }
  }
}
