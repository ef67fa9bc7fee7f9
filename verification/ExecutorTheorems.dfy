/** Safety of the command protocol over whole runs, in every interleaving. */
module ExecutorTheorems {
  import opened Prelude
  import opened Trajectories
  import opened Safety
  import opened SafetyTheorems
  import opened DriverStates
  import opened ExecutorModel
  import opened ExecutorLog
  import opened ExecutorInvariant

  // ---------------------------------------------------------------------------------------------
  // The log only grows
  // ---------------------------------------------------------------------------------------------

  lemma StepExtendsLog(env: Env, s: System, step: Step)
    requires env.policy.Valid() && Enabled(env, s, step)
    ensures s.log <= Do(env, s, step).log
  {
    hide Enabled, Do;
    if ByOtherThread(step) {
      OtherStepExtendsLog(env, s, step);
    } else {
      WorkerStepExtendsLog(env, s, step);
    }
  }

  lemma OtherStepExtendsLog(env: Env, s: System, step: Step)
    requires env.policy.Valid() && Enabled(env, s, step) && ByOtherThread(step)
    ensures s.log <= Do(env, s, step).log
  {
    hide Safe, TimesIncrease, Transition, WorkerEnabled, SessionEnabled, SessionDo, CancelDo, StopReply;
    match step
    case CancelCall(ok) => CancelExtendsLog(s, s.active.value, s.nextId, StopReply(s, ok));
    case StopNowCall(ok) => StopNowExtendsLog(s, StopReply(s, ok));
    case Session(act) => SessionExtendsLog(s, act);
    case _ =>
  }

  lemma CancelExtendsLog(s: System, id: CommandId, nextId: CommandId, ok: bool)
    ensures s.log + [Bumped(s.active)] <= CancelDo(s, id, nextId, ok).log
    ensures CancelDo(s, id, nextId, ok).generation == s.generation + 1
  {
  }

  lemma StopNowExtendsLog(s: System, ok: bool)
    ensures s.log + [Bumped(s.active)] <= StopNowDo(s, ok).log
    ensures StopNowDo(s, ok).generation == s.generation + 1
  {
    hide CancelDo;
    if s.active.Some? {
      CancelExtendsLog(s, s.active.value, s.nextId, ok);
    } else {
      CancelExtendsLog(s, s.nextId, s.nextId + 1, ok);
    }
  }

  lemma SessionExtendsLog(s: System, act: Act)
    requires SessionEnabled(s, act)
    ensures s.log <= SessionDo(s, act).log
    ensures act.StopForClose? ==>
      s.log + [Bumped(s.active)] <= SessionDo(s, act).log && SessionDo(s, act).generation == s.generation + 1
  {
    hide StopNowDo, StopReply;
    if act.StopForClose? {
      StopNowExtendsLog(s, StopReply(s, act.ok));
    }
  }

  lemma WorkerStepExtendsLog(env: Env, s: System, step: Step)
    requires env.policy.Valid() && Enabled(env, s, step) && !ByOtherThread(step)
    ensures s.log <= Do(env, s, step).log
  {
    hide Safe, TimesIncrease, Transition;
  }

  lemma {:induction false} LogGrows(env: Env, states: seq<System>, steps: seq<Step>, i: nat, j: nat)
    requires env.policy.Valid() && Run(env, states, steps) && i <= j < |states|
    ensures states[i].log <= states[j].log
    decreases j
  {
    hide Do, Enabled;
    if i < j {
      LogGrows(env, states, steps, i, j - 1);
      StepExtendsLog(env, states[j - 1], steps[j - 1]);
    }
  }

  // ---------------------------------------------------------------------------------------------
  // Cancellation
  // ---------------------------------------------------------------------------------------------

  /** The steps by which cancel_current_command or stop_now bumps the generation; disconnect calls the
      latter. */
  predicate IsBump(step: Step) {
    step.CancelCall? || step.StopNowCall? || (step.Session? && step.act.StopForClose?)
  }

  lemma BumpIsLogged(env: Env, s: System, step: Step)
    requires env.policy.Valid() && Enabled(env, s, step) && IsBump(step)
    ensures s.log + [Bumped(s.active)] <= Do(env, s, step).log
    ensures Do(env, s, step).generation == s.generation + 1
  {
    hide Safe, TimesIncrease, WorkerEnabled, SessionEnabled, SessionDo, CancelDo, StopNowDo, StopReply;
    match step
    case CancelCall(ok) => CancelExtendsLog(s, s.active.value, s.nextId, StopReply(s, ok));
    case StopNowCall(ok) => StopNowExtendsLog(s, StopReply(s, ok));
    case Session(act) => SessionExtendsLog(s, act);
  }

  /** Once the generation is bumped while command c is active, no later hardware write carries c and
      `execute` never returns SUCCEEDED for c. */
  lemma CancellationIsFinal(env: Env, states: seq<System>, steps: seq<Step>, i: nat, j: nat, c: CommandId)
    requires env.policy.Valid() && Run(env, states, steps) && i < j < |states|
    requires IsBump(steps[i]) && states[i].active == Some(c)
    ensures states[i].log <= states[j].log
    ensures forall e | e in states[j].log[|states[i].log|..] :: !(e.Wrote? && e.id == c)
    ensures Returned(c, Succeeded) !in states[j].log
  {
    hide Do, Enabled, Inv;
    var log, at := states[j].log, |states[i].log|;
    BumpIsLogged(env, states[i], steps[i]);
    LogGrows(env, states, steps, i, j);
    LogGrows(env, states, steps, i + 1, j);
    assert log[at] == Bumped(Some(c));
    RunKeepsInv(env, states, steps, j);
    assert CancelIsFinal(log) && ResultsOk(log) by { InvLog(env, states[j]); }
    assert HasCancel(log, c);
    assert Returned(c, Succeeded) in log ==> ResultOk(log, c, Succeeded);
    forall e | e in log[at..]
      ensures !(e.Wrote? && e.id == c)
    {
      var k :| at <= k < |log| && log[k] == e;
      if k > at {
        assert log[at] == Bumped(Some(c)) && !(log[k].Wrote? && log[k].id == c);
      }
    }
  }

  lemma InvLog(env: Env, s: System)
    requires env.policy.Valid() && Inv(env, s)
    ensures LogOk(env, s.log)
  {
  }

  /** A SUCCEEDED result means that nothing bumped the generation while the command was active, that
      no stop was ever issued for it, and that every admitted point was written and acknowledged. */
  lemma {:induction false} SuccessMeansUndisturbed(env: Env, states: seq<System>, steps: seq<Step>, i: nat, j: nat, c: CommandId)
    requires env.policy.Valid() && Run(env, states, steps) && i <= j < |states|
    requires Returned(c, Succeeded) in states[j].log
    ensures i < j && IsBump(steps[i]) ==> states[i].active != Some(c)
    ensures !HasStop(states[j].log, c)
    ensures exists measured, points ::
              && Accepted(c, measured, points) in states[j].log
              && |WritesOf(states[j].log, c)| == |points|
              && AllAcknowledged(WritesOf(states[j].log, c))
  {
    hide Do, Enabled, Inv;
    if i < j && IsBump(steps[i]) && states[i].active == Some(c) {
      CancellationIsFinal(env, states, steps, i, j, c);
    }
    RunKeepsInv(env, states, steps, j);
    InvLog(env, states[j]);
    assert ResultOk(states[j].log, c, Succeeded);
  }

  // ---------------------------------------------------------------------------------------------
  // Stops
  // ---------------------------------------------------------------------------------------------

  function StopCount(log: seq<Event>, c: CommandId): nat {
    if log == [] then 0
    else
      var last := log[|log| - 1];
      StopCount(log[..|log| - 1], c) + (if last.StopIssued? && last.id == c then 1 else 0)
  }

  lemma {:induction false} StopCountIsOne(log: seq<Event>, c: CommandId)
    requires StopsOnce(log)
    ensures StopCount(log, c) <= 1
    ensures StopCount(log, c) == 1 <==> HasStop(log, c)
  {
    if log != [] {
      var shorter, last := log[..|log| - 1], log[|log| - 1];
      StopsOnceSplits(shorter, last) by { assert log == shorter + [last]; }
      hide StopsOnce;
      StopCountIsOne(shorter, c);
      assert log == shorter + [last];
    }
  }

  lemma StopsOnceSplits(shorter: seq<Event>, last: Event)
    requires StopsOnce(shorter + [last])
    ensures StopsOnce(shorter)
    ensures last.StopIssued? ==> !HasStop(shorter, last.id)
  {
    var log := shorter + [last];
    forall i, j | 0 <= i < j < |shorter| && shorter[i].StopIssued? && shorter[j].StopIssued?
      ensures shorter[i].id != shorter[j].id
    {
      assert log[i].id != log[j].id;
    }
    forall k | 0 <= k < |shorter| && shorter[k].StopIssued? && last.StopIssued?
      ensures shorter[k].id != last.id
    {
      assert log[k].id != log[|shorter|].id;
    }
  }

  /** However many cancels, stops and failure paths race, hardware.stop is called at most once for a
      command: never for one that succeeded or was rejected, exactly once and successfully for one
      reported as cancelled, and exactly once for one that failed or whose exception escaped. */
  lemma {:induction false} StopAtMostOnce(env: Env, states: seq<System>, steps: seq<Step>, j: nat, c: CommandId)
    requires env.policy.Valid() && Run(env, states, steps) && j < |states|
    ensures var log := states[j].log;
      && StopCount(log, c) <= 1
      && (Returned(c, Succeeded) in log || Returned(c, Rejected) in log ==> StopCount(log, c) == 0)
      && (Returned(c, Canceled) in log ==> StopCount(log, c) == 1 && StopIssued(c, true) in log && HasCancel(log, c))
      && (Returned(c, Failed) in log || Escaped(c) in log ==> StopCount(log, c) == 1)
  {
    hide Do, Enabled, Inv;
    RunKeepsInv(env, states, steps, j);
    InvLog(env, states[j]);
    var log := states[j].log;
    StopCountIsOne(log, c);
    assert forall status | Returned(c, status) in log :: ResultOk(log, c, status);
  }

  // ---------------------------------------------------------------------------------------------
  // Writes
  // ---------------------------------------------------------------------------------------------

  /** The targets written for a command are the positions of a prefix of its admitted points, in
      order and each no earlier than its scheduled time, and that prefix is itself a safe trajectory
      from the measured state, so a cancelled or failed run has still done something that validates. */
  lemma {:induction false} WrittenPrefixIsSafe(env: Env, states: seq<System>, steps: seq<Step>, j: nat, c: CommandId,
                            measured: JointVector, points: seq<TrajectoryPoint>)
    requires env.policy.Valid() && Run(env, states, steps) && j < |states|
    requires Accepted(c, measured, points) in states[j].log
    ensures var writes := WritesOf(states[j].log, c);
      && |writes| <= |points|
      && (forall i | 0 <= i < |writes| :: writes[i].target == points[i].position && writes[i].index == i)
      && (forall i: int, t: real | 0 <= i < |writes| && Started(c, t) in states[j].log ::
            writes[i].at >= t + points[i].time)
      && Safe(env.policy, env.kin, measured, points[..|writes|])
  {
    hide Do, Enabled, Inv, Safe, TimesIncrease, WritesOf;
    RunKeepsInv(env, states, steps, j);
    InvLog(env, states[j]);
    var log := states[j].log;
    assert FollowsPlan(env, log, c);
    var writes := WritesOf(log, c);
    assert WritesFit(writes, points);
    forall i: int, t: real | 0 <= i < |writes| && Started(c, t) in log
      ensures writes[i].at >= t + points[i].time
    {
      assert WritesOnTime(writes, points, t);
    }
    PrefixIsSafe(env.policy, env.kin, measured, points, |writes|);
  }

  /** Nothing is ever written for a command that was not admitted. */
  lemma NoWriteWithoutAdmission(env: Env, states: seq<System>, steps: seq<Step>, j: nat, w: Event)
    requires env.policy.Valid() && Run(env, states, steps) && j < |states|
    requires w in states[j].log && w.Wrote?
    ensures exists measured, points :: Accepted(w.id, measured, points) in states[j].log
  {
    hide Do, Enabled, Inv, Safe, TimesIncrease;
    RunKeepsInv(env, states, steps, j);
    InvLog(env, states[j]);
    WriteIsCollected(states[j].log, w);
    assert FollowsPlan(env, states[j].log, w.id);
  }

  lemma {:induction false} WriteIsCollected(log: seq<Event>, w: Event)
    requires w in log && w.Wrote?
    ensures w in WritesOf(log, w.id)
  {
    var shorter, last := log[..|log| - 1], log[|log| - 1];
    assert log == shorter + [last];
    if w != last {
      WriteIsCollected(shorter, w);
    }
  }

  // ---------------------------------------------------------------------------------------------
  // Ownership of EXECUTING
  // ---------------------------------------------------------------------------------------------

  /** Whenever the execution lock is free the driver is not executing and no command is active. */
  lemma ExecutingHasAnOwner(env: Env, states: seq<System>, steps: seq<Step>, j: nat)
    requires env.policy.Valid() && Run(env, states, steps) && j < |states|
    ensures states[j].worker.NoWorker? ==> states[j].driver != Executing && states[j].active.None?
    ensures states[j].driver == Executing ==>
      states[j].worker.Worker? && states[j].active == Some(states[j].worker.id)
  {
    hide Do, Enabled;
    RunKeepsInv(env, states, steps, j);
  }
}
