/** The driver state machine (pycore/src/runtime/state_machine.py). */
module DriverStates {
  import opened Prelude

  datatype DriverState = Disconnected | Connecting | Idle | Executing | Recovering | Fault

  datatype DriverEvent =
    | ConnectRequested | ConnectSucceeded | ConnectFailed | DisconnectRequested
    | ExecutionAccepted | ExecutionSucceeded | ExecutionCanceled | FaultDetected
    | RecoveryRequested | RecoverySucceeded | RecoveryFailed

  /** The transition table; None is the InvalidDriverStateError case. */
  function Transition(state: DriverState, event: DriverEvent): Option<DriverState> {
    match (state, event)
    case (Disconnected, ConnectRequested) => Some(Connecting)
    case (Connecting, ConnectSucceeded) => Some(Idle)
    case (Connecting, ConnectFailed) => Some(Fault)
    case (Connecting, DisconnectRequested) => Some(Disconnected)
    case (Idle, DisconnectRequested) => Some(Disconnected)
    case (Idle, ExecutionAccepted) => Some(Executing)
    case (Idle, FaultDetected) => Some(Fault)
    case (Executing, ExecutionSucceeded) => Some(Idle)
    case (Executing, ExecutionCanceled) => Some(Idle)
    case (Executing, FaultDetected) => Some(Fault)
    case (Executing, DisconnectRequested) => Some(Disconnected)
    case (Fault, RecoveryRequested) => Some(Recovering)
    case (Fault, DisconnectRequested) => Some(Disconnected)
    case (Recovering, RecoverySucceeded) => Some(Idle)
    case (Recovering, RecoveryFailed) => Some(Fault)
    case (Recovering, DisconnectRequested) => Some(Disconnected)
    case _ => None
  }

  datatype TransitionRecord = TransitionRecord(
    previous: DriverState,
    current: DriverState,
    event: DriverEvent,
    reason: string,
    commandId: Option<nat>,
    timestamp: real)

  /** Records that follow one another through the table, from Disconnected to the given state. */
  predicate Chained(history: seq<TransitionRecord>, state: DriverState) {
    if history == [] then state == Disconnected
    else
      var last := history[|history| - 1];
      && last.current == state
      && Transition(last.previous, last.event) == Some(state)
      && Chained(history[..|history| - 1], last.previous)
  }

  datatype ApplyResult = Applied(record: TransitionRecord) | MissingReason | InvalidEvent

  class DriverStateMachine {
    var state: DriverState
    var history: seq<TransitionRecord>

    ghost predicate Valid()
      reads this
    {
      Chained(history, state)
    }

    constructor ()
      ensures Valid() && state == Disconnected && history == []
    {
      state := Disconnected;
      history := [];
    }

    /** Apply one permitted event, or refuse it and leave everything as it was. */
    method Apply(event: DriverEvent, reason: string, commandId: Option<nat>, timestamp: real) returns (r: ApplyResult)
      requires Valid()
      modifies this
      ensures Valid()
      ensures reason == "" <==> r.MissingReason?
      ensures reason != "" ==> (r.Applied? <==> Transition(old(state), event).Some?)
      ensures r.Applied? ==>
        && r.record == TransitionRecord(old(state), state, event, reason, commandId, timestamp)
        && history == old(history) + [r.record]
        && Transition(old(state), event) == Some(state)
      ensures !r.Applied? ==> state == old(state) && history == old(history)
    {
      if reason == "" {
        return MissingReason;
      }
      var next := Transition(state, event);
      if next.None? {
        return InvalidEvent;
      }
      var record := TransitionRecord(state, next.value, event, reason, commandId, timestamp);
      state := next.value;
      history := history + [record];
      return Applied(record);
    }
  }

  function Entries(history: seq<TransitionRecord>, state: DriverState): nat {
    if history == [] then 0
    else
      var last := history[|history| - 1];
      Entries(history[..|history| - 1], state) + (if last.current == state then 1 else 0)
  }

  function Exits(history: seq<TransitionRecord>, state: DriverState): nat {
    if history == [] then 0
    else
      var last := history[|history| - 1];
      Exits(history[..|history| - 1], state) + (if last.previous == state then 1 else 0)
  }

  /** In every history each accepted execution is closed exactly once before the next one opens, so
      the driver is executing exactly when one more execution was entered than left, and the only
      way in is an accepted execution from Idle. */
  lemma {:induction false} ExecutionsBalance(history: seq<TransitionRecord>, state: DriverState)
    requires Chained(history, state)
    ensures Entries(history, Executing) == Exits(history, Executing) + (if state == Executing then 1 else 0)
    ensures forall i | 0 <= i < |history| && history[i].current == Executing ::
              history[i].previous == Idle && history[i].event == ExecutionAccepted
  {
    if history != [] {
      var last := history[|history| - 1];
      ExecutionsBalance(history[..|history| - 1], last.previous);
      forall i | 0 <= i < |history| && history[i].current == Executing
        ensures history[i].previous == Idle && history[i].event == ExecutionAccepted
      {
        if i < |history| - 1 {
          assert history[..|history| - 1][i] == history[i];
        }
      }
    }
  }
}
