/**
 RobotController (robot_controller.py): the session operations, each block being one step of the
 command protocol with other threads acting in between, and the guarded motion path. connect and
 disconnect run under the session's lifecycle lock (session.py:63, 78); recover does not.
 */
module Controller {
  import opened Prelude
  import opened Trajectories
  import opened Safety
  import opened DriverStates
  import opened ExecutorModel
  import opened ExecutorLog
  import opened ExecutorLifecycle
  import opened Executor
  import opened Generator
  import opened GeneratorTheorems

  datatype MoveOutcome = ProfileTooSlow | Executed(id: CommandId, outcome: ExecutorModel.Outcome)

  /** connect raises at once, returns, or raises after its cleanup. */
  datatype ConnectOutcome = NotAllowed | Ready | Broken(cleaned: bool)

  /** recover returns one of three results, or raises from its first or its last apply. */
  datatype RecoverOutcome = NotInFault | Recovered | ReadFailed | RequestRaised | ResultRaised

  const NONE := Recoveries(0, 0, 0)

  /** The blocks of one connect. */
  function ConnectActs(r: ConnectOutcome): seq<Act> {
    match r
    case NotAllowed => []
    case Ready => [OpenRequest, Attach(true), OpenApply]
    case Broken(cleaned) => [OpenRequest, Attach(false), Clean(cleaned), FailOpen] + (if cleaned then [Withdraw] else [])
  }

  /** The blocks of one disconnect. */
  function DisconnectActs(stop: Option<bool>, released: bool, applied: bool): seq<Act> {
    [ReadForClose] + (if stop.Some? then [StopForClose(stop.value)] else []) + [Detach(released)]
    + (if released then [CheckClosed] else []) + (if applied then [Close] else [])
  }

  /** Three blocks of one recover in the run, in this order: request, read, apply of the result. */
  ghost predicate RecoverTook(states: seq<System>, trace: seq<Step>, from: nat, taken: seq<nat>, read: bool) {
    && |taken| == 3 && from <= taken[0] < taken[1] < taken[2] < |trace| && |states| == |trace| + 1
    && trace[taken[0]] == Session(RecoverRequest) && states[taken[0]].driver == Fault
    && trace[taken[1]] == Session(RecoverRead(read)) && (read ==> states[taken[1]].connected)
    && trace[taken[2]] == Session(RecoverApply(read))
  }

  /** Where each block takes the holder of the lifecycle lock. */
  function PlaceAfter(s: System, act: Act): Lifecycle {
    match act
    case OpenRequest => Opening
    case Attach(ok) => if ok then Opened else Cleaning
    case Clean(ok) => FailingOpen(ok)
    case FailOpen => if s.lifecycle == FailingOpen(true) then Withdrawing else Resting
    case ReadForClose => if s.driver == Executing then StopPending else Releasing
    case StopForClose(_) => StopHeld
    case Detach(ok) => if ok then Released else Resting
    case CheckClosed => if s.driver == Disconnected then Resting else Closing
    case _ => Resting
  }

  function ConnectedAfter(connected: bool, act: Act): bool {
    match act
    case Attach(ok) => ok || connected
    case Clean(_) => false
    case Detach(_) => false
    case _ => connected
  }

  lemma BlockEffect(s: System, act: Act)
    requires LifecycleOk(s) && SessionEnabled(s, act) && !ByRecover(act)
    ensures var t := SessionDo(s, act);
      && t.lifecycle == PlaceAfter(s, act) && t.connected == ConnectedAfter(s.connected, act)
      && (t.driver == Disconnected <==> Withdraws(Session(act)) || (s.driver == Disconnected && act != OpenRequest))
      && (act.StopForClose? ==> t.lane.Checking?)
  {
    hide StopNowDo;
    if act.StopForClose? {
      StopNowKeepsSession(s, StopReply(s, act.ok));
      StopNowFrame(s, StopReply(s, act.ok));
    }
  }

  lemma ConnectingPlace(s: System)
    requires LifecycleOk(s)
    ensures s.driver == Connecting <==> InConnect(s.lifecycle)
  {
  }

  lemma StopEffect(s: System)
    requires LifecycleOk(s) && s.lifecycle.StopHeld?
    ensures s.lane.Checking? ==>
      var t := CheckStopDo(s);
      && t.connected == s.connected && (t.driver == Disconnected <==> s.driver == Disconnected)
      && (t.lifecycle.Releasing? || (t.lifecycle.StopHeld? && t.lane.Faulting?))
    ensures s.lane.Faulting? ==>
      var t := FaultStopDo(s);
      && t.connected == s.connected && (t.driver == Disconnected <==> s.driver == Disconnected)
      && t.lifecycle.Releasing?
  {
  }

  /** What each outcome of a recover says about the blocks it took. */
  ghost predicate RecoverMeans(states: seq<System>, trace: seq<Step>, from: nat, r: RecoverOutcome, taken: seq<nat>) {
    match r
    case NotInFault => taken == []
    case RequestRaised => taken == []
    case Recovered =>
      && RecoverTook(states, trace, from, taken, true)
      && states[taken[2]].driver == Recovering && states[taken[2] + 1].driver == Idle
    case ReadFailed =>
      && RecoverTook(states, trace, from, taken, false)
      && states[taken[2]].driver == Recovering && states[taken[2] + 1].driver == Fault
    case ResultRaised =>
      && (RecoverTook(states, trace, from, taken, true) || RecoverTook(states, trace, from, taken, false))
      && states[taken[2]].driver != Recovering
      && exists m :: taken[0] < m < taken[2] && m != taken[1] && EndsRecovering(trace[m])
  }

  /** What the two states that a recover looks at before its request say: it goes on exactly in FAULT, and
      its request raises exactly when the driver left FAULT after the first look. */
  ghost predicate LooksMean(states: seq<System>, trace: seq<Step>, from: nat, r: RecoverOutcome, looks: seq<nat>, taken: seq<nat>) {
    && |states| == |trace| + 1 && looks != [] && from <= looks[0] < |states|
    && (r.NotInFault? <==> states[looks[0]].driver != Fault)
    && (!r.NotInFault? ==>
          && |looks| == 2 && looks[0] <= looks[1] < |states|
          && (r.RequestRaised? <==> states[looks[1]].driver != Fault)
          && (r.RequestRaised? ==> exists m :: looks[0] <= m < looks[1] && EndsFault(trace[m])))
    && (taken != [] ==> |looks| == 2 && taken[0] == looks[1])
  }

  lemma RequestRaisedMeans(states: seq<System>, trace: seq<Step>, from: nat, looks: seq<nat>, m: nat)
    requires |states| == |trace| + 1 && |looks| == 2 && from <= looks[0] <= looks[1] < |states|
    requires states[looks[0]].driver == Fault && states[looks[1]].driver != Fault
    requires looks[0] <= m < looks[1] && EndsFault(trace[m])
    ensures LooksMean(states, trace, from, RequestRaised, looks, [])
  {
    hide EndsFault;
  }

  lemma RequestTakenMeans(states: seq<System>, trace: seq<Step>, from: nat, r: RecoverOutcome, looks: seq<nat>, taken: seq<nat>)
    requires |states| == |trace| + 1 && |looks| == 2 && from <= looks[0] <= looks[1] < |states|
    requires states[looks[0]].driver == Fault && states[looks[1]].driver == Fault && !r.NotInFault? && !r.RequestRaised?
    requires taken != [] && taken[0] == looks[1]
    ensures LooksMean(states, trace, from, r, looks, taken)
  {
    hide EndsFault;
  }

  lemma OutcomeMeans(states: seq<System>, trace: seq<Step>, begin: nat, from: nat, second: nat, third: nat, read: bool,
                     r: RecoverOutcome, m: nat)
    requires begin <= from && RecoverTook(states, trace, begin, [from, second, third], read)
    requires r == if states[third].driver != Recovering then ResultRaised else if read then Recovered else ReadFailed
    requires r.ResultRaised? ==> from < m < third && m != second && EndsRecovering(trace[m])
    requires states[third + 1].driver == DriverAfter(states[third].driver, Some(if read then RecoverySucceeded else RecoveryFailed))
    ensures RecoverMeans(states, trace, begin, r, [from, second, third])
  {
    assert [from, second, third][0] == from && [from, second, third][1] == second && [from, second, third][2] == third;
  }

  lemma RequestAllowed(s: System)
    requires s.lifecycle.Resting? && s.driver == Disconnected
    ensures SessionEnabled(s, OpenRequest)
  {
  }

  class RobotController {
    const executor: TrajectoryExecutor
    const generator: PointToPointTrajectoryGenerator
    const jointNames: seq<string>

    ghost predicate Valid()
      reads this, executor, executor.machine
    {
      executor.Valid() && generator.commandRate > 0.0
    }

    constructor (executor: TrajectoryExecutor, generator: PointToPointTrajectoryGenerator, jointNames: seq<string>)
      requires executor.Valid() && generator.commandRate > 0.0
      ensures Valid() && this.executor == executor && this.generator == generator
    {
      this.executor, this.generator, this.jointNames := executor, generator, jointNames;
    }

    /** The fields that a thread of the session sees. */
    ghost predicate Seen(s: System)
      reads executor, executor.machine
    {
      && executor.protocol == s && executor.machine.state == s.driver && executor.connected == s.connected
      && executor.lifecycle == s.lifecycle && executor.lane == s.lane && executor.recoveries == s.recoveries
      && |executor.states| == |executor.trace| + 1 && executor.states[|executor.trace|] == s
    }

    lemma InSession()
      requires Valid()
      ensures LifecycleOk(executor.protocol) && Seen(executor.protocol)
    {
      hide TrajectoryExecutor.Valid, LifecycleOk;
      executor.InSession();
    }

    /** Other threads act while this one holds the lifecycle lock. */
    method Interfere()
      requires Valid()
      modifies executor, executor.machine
      ensures Valid() && old(executor.states) <= executor.states && Seen(executor.protocol) && LifecycleOk(executor.protocol)
      ensures KeepsForLifecycle(old(executor.protocol), executor.protocol)
      ensures LifecycleActs(executor.trace) == old(LifecycleActs(executor.trace))
    {
      hide TrajectoryExecutor.Valid, LifecycleOk, KeepsForLifecycle;
      executor.OthersRun(true, NONE);
      InSession();
    }

    /** One block of the holder of the lifecycle lock, after which other threads act. */
    method Block(act: Act)
      requires Valid() && SessionEnabled(executor.protocol, act) && !ByRecover(act)
      modifies executor, executor.machine
      ensures Valid() && old(executor.states) <= executor.states && Seen(executor.protocol) && LifecycleOk(executor.protocol)
      ensures executor.lifecycle == PlaceAfter(old(executor.protocol), act)
      ensures executor.connected == ConnectedAfter(old(executor.protocol.connected), act)
      ensures executor.machine.state == Disconnected <==>
        Withdraws(Session(act)) || (old(executor.protocol.driver) == Disconnected && act != OpenRequest)
      ensures executor.machine.state == Connecting <==> InConnect(executor.lifecycle)
      ensures act.StopForClose? ==> executor.lane.Checking?
      ensures LifecycleActs(executor.trace) == old(LifecycleActs(executor.trace)) + [act]
    {
      hide TrajectoryExecutor.Valid, TrajectoryExecutor.Took, SessionEnabled, SessionDo, LifecycleOk, ConnectedAfter;
      InSession();
      BlockEffect(executor.protocol, act);
      executor.SessionBlock(act);
      Interfere();
      ConnectingPlace(executor.protocol);
    }

    /** Connect hardware and enter IDLE, or FAULT, or DISCONNECTED again after a clean release. Not
        allowed exactly outside DISCONNECTED; only a normal return leaves the adapter attached. */
    method Connect() returns (r: ConnectOutcome)
      requires Valid() && executor.lifecycle.Resting?
      modifies executor, executor.machine
      ensures Valid() && old(executor.states) <= executor.states && executor.lifecycle.Resting?
      ensures r.NotAllowed? <==> old(executor.protocol.driver) != Disconnected
      ensures LifecycleActs(executor.trace) == old(LifecycleActs(executor.trace)) + ConnectActs(r)
      ensures r.Ready? ==> executor.connected && executor.machine.state !in {Disconnected, Connecting}
      ensures r.Broken? ==> !executor.connected && (r.cleaned <==> executor.machine.state == Disconnected)
    {
      hide Valid, LifecycleActs, LifecycleOk, Transition;
      InSession();
      Interfere();
      if executor.machine.state != Disconnected {
        return NotAllowed;
      }
      r := Open();
    }

    /** The request that the state allows, the adapter's connect, and the apply or the except clause. */
    method Open() returns (r: ConnectOutcome)
      requires Valid() && executor.lifecycle.Resting? && Seen(executor.protocol) && executor.machine.state == Disconnected
      modifies executor, executor.machine
      ensures Valid() && old(executor.states) <= executor.states && executor.lifecycle.Resting? && !r.NotAllowed?
      ensures LifecycleActs(executor.trace) == old(LifecycleActs(executor.trace)) + ConnectActs(r)
      ensures r.Ready? ==> executor.connected && executor.machine.state !in {Disconnected, Connecting}
      ensures r.Broken? ==> !executor.connected && (r.cleaned <==> executor.machine.state == Disconnected)
    {
      hide Valid, LifecycleActs, LifecycleOk, Transition;
      var attached := AttachAdapter();
      if attached {
        Block(OpenApply);
        return Ready;
      }
      var cleaned := CleanUp();
      return Broken(cleaned);
    }

    method AttachAdapter() returns (attached: bool)
      requires Valid() && executor.lifecycle.Resting? && Seen(executor.protocol) && executor.machine.state == Disconnected
      modifies executor, executor.machine
      ensures Valid() && old(executor.states) <= executor.states && Seen(executor.protocol)
      ensures executor.lifecycle == (if attached then Opened else Cleaning) && (attached ==> executor.connected)
      ensures executor.machine.state != Disconnected
      ensures LifecycleActs(executor.trace) == old(LifecycleActs(executor.trace)) + [OpenRequest, Attach(attached)]
    {
      hide Valid, LifecycleActs, LifecycleOk, Transition;
      RequestAllowed(executor.protocol);
      Block(OpenRequest);
      attached := *;
      Block(Attach(attached));
    }

    /** The except clause of connect. */
    method CleanUp() returns (cleaned: bool)
      requires Valid() && executor.lifecycle.Cleaning? && Seen(executor.protocol)
      modifies executor, executor.machine
      ensures Valid() && old(executor.states) <= executor.states && executor.lifecycle.Resting? && !executor.connected
      ensures old(executor.protocol.driver) != Disconnected ==> (cleaned <==> executor.machine.state == Disconnected)
      ensures LifecycleActs(executor.trace)
           == old(LifecycleActs(executor.trace)) + [Clean(cleaned), FailOpen] + (if cleaned then [Withdraw] else [])
    {
      hide Valid, LifecycleActs, LifecycleOk, Transition;
      cleaned := *;
      Block(Clean(cleaned));
      Block(FailOpen);
      if cleaned {
        Block(Withdraw);
      }
    }

    /** Stop a command seen executing, release hardware, become DISCONNECTED. Whatever other threads do,
        a released adapter leaves the driver DISCONNECTED, and only an adapter whose release raised can
        leave it in another state; either way nothing can be written any more. */
    method Disconnect() returns (stop: Option<bool>, stopped: bool, released: bool, applied: bool)
      requires Valid() && executor.lifecycle.Resting?
      modifies executor, executor.machine
      ensures Valid() && old(executor.states) <= executor.states && executor.lifecycle.Resting? && !executor.connected
      ensures stop.None? ==> stopped
      ensures applied <==> released && old(executor.protocol.driver) != Disconnected
      ensures released ==> executor.machine.state == Disconnected
      ensures !released && old(executor.protocol.driver) != Disconnected ==> executor.machine.state != Disconnected
      ensures LifecycleActs(executor.trace) == old(LifecycleActs(executor.trace)) + DisconnectActs(stop, released, applied)
    {
      hide Valid, LifecycleActs, LifecycleOk, Transition;
      stop, stopped := StopSeen();
      released, applied := ReleaseAdapter();
    }

    /** The first half: a command seen executing is stopped. */
    method StopSeen() returns (stop: Option<bool>, stopped: bool)
      requires Valid() && executor.lifecycle.Resting?
      modifies executor, executor.machine
      ensures Valid() && old(executor.states) <= executor.states && executor.lifecycle.Releasing? && Seen(executor.protocol)
      ensures stop.None? ==> stopped
      ensures executor.protocol.driver == Disconnected <==> old(executor.protocol.driver) == Disconnected
      ensures LifecycleActs(executor.trace) == old(LifecycleActs(executor.trace)) + [ReadForClose]
        + (if stop.Some? then [StopForClose(stop.value)] else [])
    {
      hide Valid, LifecycleActs, LifecycleOk, Transition;
      stop, stopped := None, true;
      InSession();
      Interfere();
      Block(ReadForClose);
      if executor.lifecycle.StopPending? {
        var reply: bool := *;
        stop := Some(reply);
        stopped := StopForDisconnect(reply);
      }
    }

    /** Release the adapter; unless that raised, look at the state again and apply. */
    method ReleaseAdapter() returns (released: bool, applied: bool)
      requires Valid() && executor.lifecycle.Releasing? && Seen(executor.protocol)
      modifies executor, executor.machine
      ensures Valid() && old(executor.states) <= executor.states && executor.lifecycle.Resting? && !executor.connected
      ensures applied <==> released && old(executor.protocol.driver) != Disconnected
      ensures executor.machine.state == Disconnected <==> released || old(executor.protocol.driver) == Disconnected
      ensures LifecycleActs(executor.trace) == old(LifecycleActs(executor.trace)) + [Detach(released)]
        + (if released then [CheckClosed] else []) + (if applied then [Close] else [])
    {
      hide Valid, LifecycleActs, LifecycleOk, Transition;
      applied := false;
      released := *;
      Block(Detach(released));
      if released {
        Block(CheckClosed);
        if executor.lifecycle.Closing? {
          Block(Close);
          applied := true;
        }
      }
    }

    /** stop_now as disconnect calls it: wait for the lane, bump and stop, then the state check and the
        apply, each with other threads acting before it. */
    method StopForDisconnect(reply: bool) returns (stopped: bool)
      requires Valid() && executor.lifecycle.StopPending? && Seen(executor.protocol)
      modifies executor, executor.machine
      ensures Valid() && old(executor.states) <= executor.states && Seen(executor.protocol)
      ensures executor.lifecycle.Releasing?
      ensures executor.machine.state == Disconnected <==> old(executor.protocol.driver) == Disconnected
      ensures LifecycleActs(executor.trace) == old(LifecycleActs(executor.trace)) + [StopForClose(reply)]
    {
      hide Valid, LifecycleActs, LifecycleOk, Transition;
      AwaitLane();
      Block(StopForClose(reply));
      stopped := executor.lane.ok;
      StopBlock();
      if executor.lifecycle.StopHeld? {
        StopBlock();
      }
    }

    method AwaitLane()
      requires Valid() && executor.lifecycle.StopPending?
      modifies executor, executor.machine
      ensures Valid() && old(executor.states) <= executor.states && Seen(executor.protocol)
      ensures executor.lane.Free? && KeepsForLifecycle(old(executor.protocol), executor.protocol)
      ensures LifecycleActs(executor.trace) == old(LifecycleActs(executor.trace))
    {
      hide TrajectoryExecutor.Valid, LifecycleOk, KeepsForLifecycle;
      executor.AwaitLane();
      InSession();
    }

    /** The state check after the stop, or the apply after that. */
    method StopBlock()
      requires Valid() && executor.lifecycle.StopHeld? && (executor.lane.Checking? || executor.lane.Faulting?)
      modifies executor, executor.machine
      ensures Valid() && old(executor.states) <= executor.states && Seen(executor.protocol)
      ensures executor.lifecycle.Releasing?
        || (old(executor.lane).Checking? && executor.lifecycle.StopHeld? && executor.lane.Faulting?)
      ensures executor.machine.state == Disconnected <==> old(executor.protocol.driver) == Disconnected
      ensures LifecycleActs(executor.trace) == old(LifecycleActs(executor.trace))
    {
      hide TrajectoryExecutor.Valid, LifecycleOk, CheckStopDo, FaultStopDo;
      InSession();
      StopEffect(executor.protocol);
      executor.StopBlock();
      Interfere();
    }

    /** Recover from FAULT only after a successful bounded state read, with no lock held: `taken` are the
        blocks of this call in the run. It succeeds exactly when its last apply took the driver from
        RECOVERING to IDLE; an apply raises only because another thread changed the state in between.
        `looks` are the states of the run in which the property and the request met the driver. */
    method Recover() returns (r: RecoverOutcome, ghost taken: seq<nat>, ghost looks: seq<nat>)
      requires Valid()
      modifies executor, executor.machine
      ensures Valid() && old(executor.states) <= executor.states
      ensures RecoverMeans(executor.states, executor.trace, |old(executor.trace)|, r, taken)
      ensures LooksMean(executor.states, executor.trace, |old(executor.trace)|, r, looks, taken)
    {
      hide TrajectoryExecutor.Valid, EndsFault;
      OthersAct(NONE);
      looks := [|executor.trace|];
      if executor.machine.state != Fault {
        return NotInFault, [], looks;
      }
      r, taken, looks := Request(|old(executor.trace)|, |executor.trace|);
    }

    /** The rest of a recover that began in state `from` of the run and found FAULT in state `first`. */
    method Request(ghost from: nat, ghost first: nat) returns (r: RecoverOutcome, ghost taken: seq<nat>, ghost looks: seq<nat>)
      requires Valid() && Seen(executor.protocol) && from <= first == |executor.trace| && executor.machine.state == Fault
      modifies executor, executor.machine
      ensures Valid() && old(executor.states) <= executor.states
      ensures RecoverMeans(executor.states, executor.trace, from, r, taken)
      ensures LooksMean(executor.states, executor.trace, from, r, looks, taken)
    {
      hide TrajectoryExecutor.Valid, EndsFault, LooksMean;
      OthersAct(NONE);
      ghost var second := |executor.trace|;
      looks := [first, second];
      if executor.machine.state != Fault {
        ghost var m := FaultLeft(first);
        RequestRaisedMeans(executor.states, executor.trace, from, looks, m);
        return RequestRaised, [], looks;
      }
      executor.SessionBlock(RecoverRequest);
      InSession();
      r, taken := ReadAndApply(from, second);
      RequestTakenMeans(executor.states, executor.trace, from, r, looks, taken);
    }

    /** The driver left FAULT since step `from` of the run. */
    lemma FaultLeft(from: nat) returns (m: nat)
      requires Valid() && Seen(executor.protocol) && from <= |executor.trace|
      requires executor.states[from].driver == Fault && executor.protocol.driver != Fault
      ensures from <= m < |executor.trace| && EndsFault(executor.trace[m])
    {
      m := FaultEnded(executor.env, executor.states, executor.trace, from, |executor.trace|);
    }

    /** The rest of a recover whose request is step `from` of the run. */
    method ReadAndApply(ghost begin: nat, ghost from: nat) returns (r: RecoverOutcome, ghost taken: seq<nat>)
      requires Valid() && Seen(executor.protocol) && |executor.trace| == from + 1 && begin <= from
      requires executor.trace[from] == Session(RecoverRequest) && executor.states[from].driver == Fault
      requires executor.machine.state == Recovering && executor.recoveries.reading >= 1
      modifies executor, executor.machine
      ensures Valid() && old(executor.states) <= executor.states && old(executor.trace) <= executor.trace
      ensures RecoverMeans(executor.states, executor.trace, begin, r, taken) && taken != [] && taken[0] == from
      ensures !r.NotInFault? && !r.RequestRaised?
    {
      hide TrajectoryExecutor.Valid, RecoverMeans;
      OthersAct(Recoveries(1, 0, 0));
      var read: bool := *;
      read := read && executor.connected;
      ghost var second := |executor.trace|;
      ReadBlock(read);
      r, taken := ApplyResult(begin, from, second, read);
    }

    /** The last apply of a recover whose read is step `second` of the run. */
    method ApplyResult(ghost begin: nat, ghost from: nat, ghost second: nat, read: bool)
      returns (r: RecoverOutcome, ghost taken: seq<nat>)
      requires Valid() && Seen(executor.protocol) && begin <= from < second < |executor.trace|
      requires executor.trace[from] == Session(RecoverRequest) && executor.states[from].driver == Fault
      requires executor.states[from + 1].driver == Recovering
      requires executor.trace[second] == Session(RecoverRead(read)) && (read ==> executor.states[second].connected)
      requires Covers(executor.recoveries, AfterRead(Recoveries(1, 0, 0), read))
      modifies executor, executor.machine
      ensures Valid() && old(executor.states) <= executor.states && old(executor.trace) <= executor.trace
      ensures RecoverMeans(executor.states, executor.trace, begin, r, taken) && taken != [] && taken[0] == from
      ensures !r.NotInFault? && !r.RequestRaised?
    {
      hide TrajectoryExecutor.Valid, EndsRecovering, RecoverMeans;
      OthersAct(AfterRead(Recoveries(1, 0, 0), read));
      ghost var third := |executor.trace|;
      taken := [from, second, third];
      r := if executor.machine.state != Recovering then ResultRaised else if read then Recovered else ReadFailed;
      ghost var m := 0;
      if r.ResultRaised? {
        m := TakenAway(from, second);
      }
      ResultBlock(read);
      OutcomeMeans(executor.states, executor.trace, begin, from, second, third, read, r, m);
    }

    /** The driver left RECOVERING after the request by a step that is not this thread's read. */
    lemma TakenAway(from: nat, second: nat) returns (m: nat)
      requires Valid() && Seen(executor.protocol) && from < second < |executor.trace|
      requires executor.states[from + 1].driver == Recovering && executor.protocol.driver != Recovering
      requires executor.trace[second].Session? && executor.trace[second].act.RecoverRead?
      ensures from < m < |executor.trace| && m != second && EndsRecovering(executor.trace[m])
    {
      m := RecoveringEnded(executor.env, executor.states, executor.trace, from + 1, |executor.trace|);
    }

    method ReadBlock(read: bool)
      requires Valid() && Seen(executor.protocol) && executor.recoveries.reading >= 1 && (read ==> executor.connected)
      modifies executor, executor.machine
      ensures Valid() && old(executor.states) <= executor.states && executor.trace == old(executor.trace) + [Session(RecoverRead(read))]
      ensures Covers(executor.recoveries, AfterRead(Recoveries(1, 0, 0), read)) && Seen(executor.protocol)
    {
      hide TrajectoryExecutor.Valid;
      executor.SessionBlock(RecoverRead(read));
      InSession();
    }

    method ResultBlock(read: bool)
      requires Valid() && Seen(executor.protocol) && Covers(executor.recoveries, AfterRead(Recoveries(1, 0, 0), read))
      modifies executor, executor.machine
      ensures Valid() && old(executor.states) <= executor.states && Seen(executor.protocol)
      ensures executor.trace == old(executor.trace) + [Session(RecoverApply(read))]
      ensures executor.machine.state == DriverAfter(old(executor.machine.state), Some(if read then RecoverySucceeded else RecoveryFailed))
    {
      hide TrajectoryExecutor.Valid;
      executor.SessionBlock(RecoverApply(read));
      InSession();
    }

    method OthersAct(mine: Recoveries)
      requires Valid() && Covers(executor.recoveries, mine)
      modifies executor, executor.machine
      ensures Valid() && old(executor.states) <= executor.states && old(executor.trace) <= executor.trace
      ensures Covers(executor.recoveries, mine) && Seen(executor.protocol)
    {
      hide TrajectoryExecutor.Valid, LifecycleOk;
      executor.OthersRun(false, mine);
      InSession();
    }

    /** Generate a cubic from the measured state to the target and execute it through the guarded path. */
    method MoveJoints(measured: JointState, target: JointVector, profile: MotionProfile) returns (r: MoveOutcome)
      requires Valid() && profile.Valid()
      modifies executor, executor.machine
      ensures Valid()
      ensures r.Executed? && r.outcome.Return? ==>
        Returned(r.id, r.outcome.status) in executor.protocol.log && ResultOk(executor.protocol.log, r.id, r.outcome.status)
    {
      hide Points, Intervals, ResultOk;
      var trajectory := generator.Generate(jointNames, measured.position, target, profile);
      if trajectory.None? {
        return ProfileTooSlow;
      }
      GeneratedTimes(measured.position, target, profile.duration, Intervals(profile.duration, generator.commandRate));
      var id, outcome;
      ghost var look;
      id, outcome, look := executor.Execute(trajectory.value, measured);
      return Executed(id, outcome);
    }
  }

  lemma GeneratedTimes(start: JointVector, target: JointVector, duration: real, n: nat)
    requires duration > 0.0 && n > 0
    ensures TimesIncrease(Points(start, target, duration, n))
  {
    hide Points;
    var points := Points(start, target, duration, n);
    forall k | 0 <= k <= n
      ensures 0.0 <= points[k].time && (k > 0 ==> points[k - 1].time < points[k].time)
    {
      TimesFit(start, target, duration, n, k);
    }
  }
}
