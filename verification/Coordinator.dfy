/**
 The single-goal trajectory action coordinator (action_coordinator.py). Other threads ask for goals,
 request cancellation, change the lifecycle and deliver progress samples between any two steps of the
 executing callback; facade calls may fail or raise.
 */
module Coordinator {
  import opened Prelude

  datatype Goal = Goal(id: nat, startTime: Option<real>, jointNames: seq<string>, pathTolerance: seq<Option<real>>,
                       goalTolerance: seq<Option<real>>, goalTime: real, target: seq<real>)

  datatype Sample = Sample(actual: seq<real>, desired: seq<real>)

  datatype Status = Succeeded | Canceled | Rejected | Failed

  /** A facade call: an outcome, or an exception. */
  datatype Reply = Answer(status: Status, noActiveCommand: bool) | Exception

  /** A call to the facade. The answer to Submit is the outcome of the run, once that is over. */
  datatype Call = Submit(id: nat) | CancelCurrent | Stop

  /** What the facade answers to its calls and to the reads of the joint state, by their number; a read that
      raises is None. */
  datatype Facade = Facade(answer: nat -> Reply, read: nat -> Option<seq<real>>)

  datatype Terminal = Succeed | Abort | Cancel

  /** The error codes of the result message (contracts.py:19-27). */
  datatype Code = Successful | InvalidGoal | PathToleranceViolated | GoalToleranceViolated

  /** A run that outlived its callback, and how many samples it can still deliver: one at most when its
      generation is known to be bumped (executor.py:116), otherwise any number. */
  datatype LateRun = LateRun(goal: Goal, left: Option<nat>)

  /** A sample that such a run delivered. */
  datatype Delivery = Delivery(goal: Goal, sample: Sample)

  datatype Event = Accept(id: nat) | Finish(id: nat, terminal: Terminal) | Release(id: nat)

  /** violated_joint_names: the joints whose error exceeds a finite tolerance (None is an infinite one). */
  function Violated(actual: seq<real>, desired: seq<real>, tolerance: seq<Option<real>>, names: seq<string>): seq<string> {
    if names == [] || actual == [] || desired == [] || tolerance == [] then []
    else
      var rest := Violated(actual[1..], desired[1..], tolerance[1..], names[1..]);
      if tolerance[0].Some? && Abs(actual[0] - desired[0]) > tolerance[0].value then [names[0]] + rest else rest
  }

  /** No joint named here is further off than its tolerance allows. */
  predicate Close(actual: seq<real>, desired: seq<real>, tolerance: seq<Option<real>>, names: seq<string>) {
    forall i | 0 <= i < |names| && i < |actual| && i < |desired| && i < |tolerance| && tolerance[i].Some? ::
      Abs(actual[i] - desired[i]) <= tolerance[i].value
  }

  lemma {:induction false} NothingViolated(actual: seq<real>, desired: seq<real>, tolerance: seq<Option<real>>, names: seq<string>)
    ensures Violated(actual, desired, tolerance, names) == [] <==> Close(actual, desired, tolerance, names)
  {
    if names != [] && actual != [] && desired != [] && tolerance != [] {
      NothingViolated(actual[1..], desired[1..], tolerance[1..], names[1..]);
      CloseSplits(actual, desired, tolerance, names);
      hide Close;
    }
  }

  lemma CloseSplits(actual: seq<real>, desired: seq<real>, tolerance: seq<Option<real>>, names: seq<string>)
    requires names != [] && actual != [] && desired != [] && tolerance != []
    ensures Close(actual, desired, tolerance, names)
      <==> (tolerance[0].Some? ==> Abs(actual[0] - desired[0]) <= tolerance[0].value)
           && Close(actual[1..], desired[1..], tolerance[1..], names[1..])
  {
    var a, d, t, n := actual[1..], desired[1..], tolerance[1..], names[1..];
    assert forall i | 0 <= i < |t| && i < |a| && i < |d| :: t[i] == tolerance[i + 1] && a[i] == actual[i + 1] && d[i] == desired[i + 1];
    if (tolerance[0].Some? ==> Abs(actual[0] - desired[0]) <= tolerance[0].value) && Close(a, d, t, n) {
      forall i | 0 <= i < |names| && i < |actual| && i < |desired| && i < |tolerance| && tolerance[i].Some?
        ensures Abs(actual[i] - desired[i]) <= tolerance[i].value
      {
        assert i > 0 ==> tolerance[i] == t[i - 1] && actual[i] == a[i - 1] && desired[i] == d[i - 1];
      }
    }
  }

  function FinishCount(log: seq<Event>, id: nat): nat {
    if log == [] then 0
    else
      var last := log[|log| - 1];
      FinishCount(log[..|log| - 1], id) + (if last.Finish? && last.id == id then 1 else 0)
  }

  /** Goals accepted and not yet released. */
  function Outstanding(log: seq<Event>): set<nat> {
    if log == [] then {}
    else
      Outstands(Outstanding(log[..|log| - 1]), log[|log| - 1])
  }

  function Outstands(before: set<nat>, e: Event): set<nat> {
    if e.Accept? then before + {e.id} else if e.Release? then before - {e.id} else before
  }

  /** At no point of the log more than one goal was between acceptance and release. */
  predicate SingleGoal(log: seq<Event>) {
    if log == [] then true else |Outstanding(log)| <= 1 && SingleGoal(log[..|log| - 1])
  }

  lemma {:induction false} Append(log: seq<Event>, e: Event)
    ensures Outstanding(log + [e]) == Outstands(Outstanding(log), e)
    ensures forall g: nat :: FinishCount(log + [e], g) == FinishCount(log, g) + (if e.Finish? && e.id == g then 1 else 0)
    ensures SingleGoal(log) && |Outstanding(log + [e])| <= 1 ==> SingleGoal(log + [e])
  {
    assert (log + [e])[..|log|] == log;
  }

  /** The reservation is the one outstanding goal, and no goal to come has been finished. */
  ghost predicate LogOk(log: seq<Event>, reserved: bool, current: nat, nextGoal: nat) {
    && SingleGoal(log) && Outstanding(log) == (if reserved then {current} else {})
    && (reserved ==> current < nextGoal)
    && forall g: nat | g >= nextGoal :: FinishCount(log, g) == 0
  }

  lemma {:induction false} AcceptKeeps(log: seq<Event>, current: nat, next: nat)
    requires LogOk(log, false, current, next)
    ensures LogOk(log + [Accept(next)], true, next, next + 1) && FinishCount(log + [Accept(next)], next) == 0
    ensures forall g: nat :: FinishCount(log + [Accept(next)], g) == FinishCount(log, g)
  {
    Append(log, Accept(next));
    hide SingleGoal, Outstanding, FinishCount;
  }

  lemma {:induction false} FinishKeeps(log: seq<Event>, reserved: bool, current: nat, next: nat, id: nat, terminal: Terminal)
    requires LogOk(log, reserved, current, next) && id < next
    ensures LogOk(log + [Finish(id, terminal)], reserved, current, next)
    ensures FinishCount(log + [Finish(id, terminal)], id) == FinishCount(log, id) + 1
  {
    Append(log, Finish(id, terminal));
    hide SingleGoal, Outstanding, FinishCount;
  }

  lemma {:induction false} ReleaseKeeps(log: seq<Event>, current: nat, next: nat)
    requires LogOk(log, true, current, next)
    ensures LogOk(log + [Release(current)], false, current, next)
    ensures FinishCount(log + [Release(current)], current) == FinishCount(log, current)
  {
    Append(log, Release(current));
    hide SingleGoal, Outstanding, FinishCount;
  }

  /** Some sample can be off the path of this goal. */
  predicate FiniteTolerance(goal: Goal) {
    exists i :: 0 <= i < |goal.jointNames| && i < |goal.pathTolerance| && goal.pathTolerance[i].Some?
  }

  /** No run left behind has both a sample left and a tolerance that it can violate. */
  predicate Harmless(late: seq<LateRun>) {
    forall k | 0 <= k < |late| :: late[k].left == Some(0) || !FiniteTolerance(late[k].goal)
  }

  /** Every late sample met the path tolerance of the goal it belongs to. */
  predicate AllClose(deliveries: seq<Delivery>) {
    forall k | 0 <= k < |deliveries| :: SampleClose(deliveries[k].goal, deliveries[k].sample)
  }

  /** Every sample of the goal itself did. */
  predicate OnPath(goal: Goal, samples: seq<Sample>) {
    forall s | s in samples :: SampleClose(goal, s)
  }

  predicate Bounded(late: seq<LateRun>) {
    late != [] ==> late[0].left.Some? && Bounded(late[1..])
  }

  function SamplesLeft(late: seq<LateRun>): nat {
    if late == [] then 0 else (if late[0].left.Some? then late[0].left.value else 0) + SamplesLeft(late[1..])
  }

  /** Late runs after the core bumped the generation of the one that runs. */
  function Capped(late: seq<LateRun>): seq<LateRun> {
    if late == [] then []
    else [late[0].(left := Some(if late[0].left == Some(0) then 0 else 1))] + late[1..]
  }

  /** Late runs after the one that runs delivered a sample. */
  function Delivered(late: seq<LateRun>): seq<LateRun>
    requires late != [] && late[0].left != Some(0)
  {
    [late[0].(left := if late[0].left.Some? then Some(late[0].left.value - 1) else None)] + late[1..]
  }

  /** From one state of the late runs and their deliveries to a later one: nothing comes from no run,
      bounded runs deliver no more than they had left, and harmless ones nothing off their paths. */
  predicate WorkerDid(late: seq<LateRun>, seen: seq<Delivery>, late': seq<LateRun>, seen': seq<Delivery>) {
    && seen <= seen'
    && (late == [] ==> late' == [] && seen' == seen)
    && (Bounded(late) ==> Bounded(late') && |seen'| + SamplesLeft(late') <= |seen| + SamplesLeft(late))
    && (Harmless(late) ==> Harmless(late') && (AllClose(seen) ==> AllClose(seen')))
  }

  /** What runs left behind can have delivered in some time, whatever was left behind since. */
  predicate DeliveredBy(late: seq<LateRun>, seen: seq<Delivery>, seen': seq<Delivery>) {
    && seen <= seen'
    && (late == [] ==> seen' == seen)
    && (Bounded(late) ==> |seen'| <= |seen| + SamplesLeft(late))
    && (Harmless(late) && AllClose(seen) ==> AllClose(seen'))
  }

  /** The runs left behind when a cancel call was not accepted, which bumped the generation of the one that
      runs, or raised. */
  function LeftBehind(late: seq<LateRun>, goal: Goal, bumped: bool): seq<LateRun> {
    if late == [] then [LateRun(goal, if bumped then Some(1) else None)]
    else (if bumped then Capped(late) else late) + [LateRun(goal, None)]
  }

  // What a callback came to. These definitions serve contracts only; no method computes with them.

  /** Why an exception was raised. */
  datatype Cause = RunRaised | CallRefused | ReadRaised

  /** How a goal ended whose run was answered. */
  datatype Ending = OffPath | CanceledAfterRun | CoreFailed | CanceledSettling | Missed | CanceledAtEnd | Done

  /** What became of a goal. `late` are the late samples known at the path check or the exception, and
      `asked` is the cancel flag when it was last looked at. */
  datatype Course =
    | NoGoal
    | Inactive
    | NotStarted(asked: bool)
    | Raised(cause: Cause, late: seq<Delivery>)
    | Checked(late: seq<Delivery>, asked: bool, ending: Ending)

  predicate Accepted(reply: Reply) {
    reply.Answer? && (reply.status == Succeeded || reply.status == Canceled)
  }

  predicate Pending(reply: Reply) {
    reply.Answer? && reply.status == Rejected && reply.noActiveCommand
  }

  /** The last call makes the callback raise. */
  predicate LastRefused(f: Facade, calls: seq<Call>) {
    calls != [] &&
      match calls[|calls| - 1]
      case Submit(_) => false
      case CancelCurrent => !Accepted(f.answer(|calls| - 1)) && !Pending(f.answer(|calls| - 1))
      case Stop => !Accepted(f.answer(|calls| - 1))
  }

  predicate LastStops(f: Facade, calls: seq<Call>, run: nat) {
    |calls| > run + 1 && calls[|calls| - 1] == Stop && Accepted(f.answer(|calls| - 1))
  }

  /** All calls after the run but the last one are cancels that found no active command. */
  predicate LastDecides(f: Facade, calls: seq<Call>, run: nat) {
    forall i | run < i < |calls| - 1 :: calls[i] == CancelCurrent && Pending(f.answer(i))
  }

  /** So far only cancels followed the run, the last one accepted or none of them. */
  predicate Canceling(f: Facade, calls: seq<Call>, run: nat, sent: bool) {
    && run < |calls| && LastDecides(f, calls, run) && (sent ==> |calls| > run + 1)
    && (|calls| > run + 1 ==>
          && calls[|calls| - 1] == CancelCurrent
          && if sent then Accepted(f.answer(|calls| - 1)) else Pending(f.answer(|calls| - 1)))
  }

  lemma NoCallYet(f: Facade, calls: seq<Call>, run: nat)
    requires |calls| == run + 1
    ensures Canceling(f, calls, run, false)
  {
  }

  lemma OneMoreCall(f: Facade, calls: seq<Call>, run: nat, call: Call)
    requires Canceling(f, calls, run, false)
    ensures LastDecides(f, calls + [call], run)
    ensures call == CancelCurrent && Pending(f.answer(|calls|)) ==> Canceling(f, calls + [call], run, false)
    ensures call == CancelCurrent && Accepted(f.answer(|calls|)) ==> Canceling(f, calls + [call], run, true)
  {
    assert forall i | 0 <= i < |calls| :: (calls + [call])[i] == calls[i];
  }

  predicate ReadClose(f: Facade, goal: Goal, n: nat) {
    f.read(n).Some? && Close(f.read(n).value, goal.target, goal.goalTolerance, goal.jointNames)
  }

  /** These reads answered, and each was off the goal. */
  predicate ReadsFar(f: Facade, goal: Goal, first: nat, end: nat) {
    forall n: nat | first <= n < end :: f.read(n).Some? && !ReadClose(f, goal, n)
  }

  predicate Submitted(goal: Goal, run: nat, calls: seq<Call>) {
    run < |calls| && calls[run] == Submit(goal.id)
  }

  /** The run is call number `run`, and the first read after it number `first`; `canceled` and `lapsed` say
      whether a cancel was requested and whether the driver left ACTIVE. */
  predicate Went(f: Facade, goal: Goal, run: nat, first: nat, calls: seq<Call>, readings: nat, samples: seq<Sample>,
                 canceled: bool, lapsed: bool, course: Course) {
    match course
    case NoGoal => false
    case Inactive => |calls| == run && readings == first && lapsed
    case NotStarted(asked) => |calls| == run && readings == first && (if asked then canceled else lapsed && goal.startTime.Some?)
    case Raised(cause, late) =>
      Submitted(goal, run, calls)
      && (match cause
          case RunRaised => readings == first && f.answer(run).Exception?
          case CallRefused => LastRefused(f, calls) && (canceled || lapsed || !OnPath(goal, samples) || !AllClose(late))
          case ReadRaised => first < readings && ReadsFar(f, goal, first, readings - 1) && f.read(readings - 1).None?)
    case Checked(late, asked, ending) =>
      && Submitted(goal, run, calls) && f.answer(run).Answer? && (asked ==> canceled)
      && (ending == OffPath <==> !OnPath(goal, samples) || !AllClose(late))
      && Ended(f, goal, run, first, calls, readings, asked, ending)
  }

  predicate Ended(f: Facade, goal: Goal, run: nat, first: nat, calls: seq<Call>, readings: nat, asked: bool, ending: Ending)
    requires run < |calls| && f.answer(run).Answer?
  {
    var core := f.answer(run).status;
    match ending
    case OffPath => readings == first && (core == Canceled || (|calls| > run + 1 && Accepted(f.answer(|calls| - 1))))
    case CanceledAfterRun => readings == first && (core == Canceled || asked)
    case CoreFailed => readings == first && core != Canceled && core != Succeeded && !asked
    case CanceledSettling => core == Succeeded && asked && ReadsFar(f, goal, first, readings) && LastStops(f, calls, run)
    case Missed => core == Succeeded && !asked && first < readings && ReadsFar(f, goal, first, readings)
    case CanceledAtEnd =>
      core == Succeeded && asked && first < readings && ReadClose(f, goal, readings - 1) && LastStops(f, calls, run)
    case Done =>
      && core == Succeeded && !asked
      && first < readings && ReadsFar(f, goal, first, readings - 1) && ReadClose(f, goal, readings - 1)
  }

  /** Which terminal call and which code belong to a course. */
  predicate Reports(course: Course, terminal: Terminal, code: Code) {
    && (terminal == Succeed <==> course.Checked? && course.ending == Done)
    && (terminal == Cancel <==>
        || course == NotStarted(true)
        || (course.Checked? && course.ending in {CanceledAfterRun, CanceledSettling, CanceledAtEnd}))
    && (code == PathToleranceViolated <==> course.Checked? && course.ending == OffPath)
    && (code == GoalToleranceViolated <==> course.Checked? && course.ending == Missed)
    && (code == InvalidGoal <==>
        || course.NoGoal? || course.Inactive? || course == NotStarted(false) || course.Raised?
        || (course.Checked? && course.ending == CoreFailed))
  }

  lemma RefusedWent(f: Facade, goal: Goal, run: nat, first: nat, calls: seq<Call>, readings: nat, samples: seq<Sample>,
                    canceled: bool, lapsed: bool, late: seq<Delivery>)
    requires Submitted(goal, run, calls) && LastRefused(f, calls)
    requires canceled || lapsed || !OnPath(goal, samples) || !AllClose(late)
    ensures Went(f, goal, run, first, calls, readings, samples, canceled, lapsed, Raised(CallRefused, late))
  {
    hide OnPath, AllClose, LastRefused;
  }

  lemma RunRaisedWent(f: Facade, goal: Goal, run: nat, first: nat, calls: seq<Call>, samples: seq<Sample>,
                      canceled: bool, lapsed: bool, late: seq<Delivery>)
    requires Submitted(goal, run, calls) && f.answer(run).Exception?
    ensures Went(f, goal, run, first, calls, first, samples, canceled, lapsed, Raised(RunRaised, late))
  {
  }

  lemma ReadRaisedWent(f: Facade, goal: Goal, run: nat, first: nat, calls: seq<Call>, readings: nat, samples: seq<Sample>,
                       canceled: bool, lapsed: bool, late: seq<Delivery>)
    requires Submitted(goal, run, calls)
    requires first < readings && ReadsFar(f, goal, first, readings - 1) && f.read(readings - 1).None?
    ensures Went(f, goal, run, first, calls, readings, samples, canceled, lapsed, Raised(ReadRaised, late))
  {
    hide ReadsFar, OnPath, AllClose;
  }

  lemma CheckedWent(f: Facade, goal: Goal, run: nat, first: nat, calls: seq<Call>, readings: nat, samples: seq<Sample>,
                    canceled: bool, lapsed: bool, late: seq<Delivery>, ending: Ending)
    requires Submitted(goal, run, calls) && f.answer(run).Answer?
    requires ending == OffPath <==> !OnPath(goal, samples) || !AllClose(late)
    requires Ended(f, goal, run, first, calls, readings, canceled, ending)
    ensures Went(f, goal, run, first, calls, readings, samples, canceled, lapsed, Checked(late, canceled, ending))
  {
    hide Ended, OnPath, AllClose;
  }

  /** If the driver stays active, nobody asks for a cancel, all samples are on their paths, the run succeeds
      and the first read after it is within the goal tolerance, then the goal succeeds. */
  lemma CalmGoalSucceeds(f: Facade, goal: Goal, run: nat, first: nat, calls: seq<Call>, readings: nat, samples: seq<Sample>, course: Course)
    requires Went(f, goal, run, first, calls, readings, samples, false, false, course)
    requires f.answer(run).Answer? && f.answer(run).status == Succeeded && ReadClose(f, goal, first)
    requires OnPath(goal, samples) && (course.Raised? || course.Checked? ==> AllClose(course.late))
    ensures course.Checked? && course.ending == Done && readings == first + 1
  {
    hide Close, OnPath, AllClose;
  }

  /** Requests that come later change nothing about what a goal came to. */
  lemma WentOn(f: Facade, goal: Goal, run: nat, first: nat, calls: seq<Call>, readings: nat, samples: seq<Sample>,
               canceled: bool, lapsed: bool, canceled': bool, lapsed': bool, course: Course)
    requires Went(f, goal, run, first, calls, readings, samples, canceled, lapsed, course)
    requires (canceled ==> canceled') && (lapsed ==> lapsed')
    ensures Went(f, goal, run, first, calls, readings, samples, canceled', lapsed', course)
  {
    hide OnPath, AllClose, Ended, ReadsFar;
  }

  /** A sample can be off the path of a goal exactly when a joint of it has a finite tolerance. */
  lemma SomeSampleIsOff(goal: Goal) returns (off: Sample)
    ensures FiniteTolerance(goal) <==> !SampleClose(goal, off)
    ensures !FiniteTolerance(goal) ==> forall s: Sample :: SampleClose(goal, s)
  {
    off := Sample([], []);
    if FiniteTolerance(goal) {
      var i :| 0 <= i < |goal.jointNames| && i < |goal.pathTolerance| && goal.pathTolerance[i].Some?;
      var far := Abs(goal.pathTolerance[i].value) + 1.0;
      off := Sample(seq(|goal.jointNames|, k => far), seq(|goal.jointNames|, k => 0.0));
      assert Abs(off.actual[i] - off.desired[i]) > goal.pathTolerance[i].value;
    }
  }

  /** Runs left behind that are not harmless can deliver a sample off the path of its goal. */
  lemma HarmfulRun(late: seq<LateRun>) returns (k: nat, off: Sample)
    ensures Harmless(late) <==> !(k < |late| && late[k].left != Some(0) && !SampleClose(late[k].goal, off))
    ensures Harmless(late) ==>
      forall i, s: Sample | 0 <= i < |late| && late[i].left != Some(0) :: SampleClose(late[i].goal, s)
  {
    hide SampleClose, FiniteTolerance;
    k, off := 0, Sample([], []);
    if Harmless(late) {
      forall i, s: Sample | 0 <= i < |late| && late[i].left != Some(0)
        ensures SampleClose(late[i].goal, s)
      {
        var far := SomeSampleIsOff(late[i].goal);
      }
      k := |late|;
    } else {
      k :| 0 <= k < |late| && late[k].left != Some(0) && FiniteTolerance(late[k].goal);
      off := SomeSampleIsOff(late[k].goal);
    }
  }

  lemma DeliveryDid(late: seq<LateRun>, seen: seq<Delivery>, sample: Sample)
    requires late != [] && late[0].left != Some(0)
    ensures WorkerDid(late, seen, Delivered(late), seen + [Delivery(late[0].goal, sample)])
  {
    assert Delivered(late)[1..] == late[1..];
    if Harmless(late) {
      var off := SomeSampleIsOff(late[0].goal);
      assert forall k | 0 < k < |late| :: Delivered(late)[k] == late[k];
    }
  }

  lemma EndDid(late: seq<LateRun>, seen: seq<Delivery>)
    requires late != []
    ensures WorkerDid(late, seen, late[1..], seen)
  {
    assert forall k | 0 <= k < |late[1..]| :: late[1..][k] == late[k + 1];
  }

  lemma CappedDid(late: seq<LateRun>, seen: seq<Delivery>)
    ensures WorkerDid(late, seen, Capped(late), seen)
  {
    if late != [] {
      assert Capped(late)[1..] == late[1..];
      assert forall k | 0 < k < |late| :: Capped(late)[k] == late[k];
    }
  }

  lemma DeliveryCloses(seen: seq<Delivery>, d: Delivery)
    ensures AllClose(seen + [d]) <==> AllClose(seen) && SampleClose(d.goal, d.sample)
  {
    assert forall k | 0 <= k < |seen| :: (seen + [d])[k] == seen[k];
    assert (seen + [d])[|seen|] == d;
  }

  lemma DidTransitively(late0: seq<LateRun>, seen0: seq<Delivery>, late1: seq<LateRun>, seen1: seq<Delivery>,
                        late2: seq<LateRun>, seen2: seq<Delivery>)
    requires WorkerDid(late0, seen0, late1, seen1) && WorkerDid(late1, seen1, late2, seen2)
    ensures WorkerDid(late0, seen0, late2, seen2) && (AllClose(seen2) ==> AllClose(seen1))
  {
    hide Bounded, SamplesLeft, Harmless;
  }

  lemma NothingDid(late: seq<LateRun>, seen: seq<Delivery>)
    ensures WorkerDid(late, seen, late, seen)
  {
  }

  lemma DidDelivers(late0: seq<LateRun>, seen0: seq<Delivery>, late1: seq<LateRun>, seen1: seq<Delivery>, seen2: seq<Delivery>)
    requires WorkerDid(late0, seen0, late1, seen1) && DeliveredBy(late1, seen1, seen2)
    ensures DeliveredBy(late0, seen0, seen2)
  {
    hide Bounded, SamplesLeft, Harmless, AllClose;
  }

  lemma DidOnly(late0: seq<LateRun>, seen0: seq<Delivery>, late1: seq<LateRun>, seen1: seq<Delivery>)
    requires WorkerDid(late0, seen0, late1, seen1)
    ensures DeliveredBy(late0, seen0, seen1) && (AllClose(seen1) ==> AllClose(seen0)) && (late0 == [] ==> late1 == [] && seen0 == seen1)
  {
    hide Bounded, SamplesLeft, Harmless;
  }

  lemma AllEnd(late: seq<LateRun>, seen: seq<Delivery>)
    ensures WorkerDid(late, seen, [], seen)
  {
    assert Bounded([]) && SamplesLeft([]) == 0;
  }

  lemma NothingDelivered(late: seq<LateRun>, seen: seq<Delivery>)
    ensures DeliveredBy(late, seen, seen)
  {
    hide Bounded, SamplesLeft, Harmless, AllClose;
  }

  lemma PrefixCloses(seen: seq<Delivery>, seen': seq<Delivery>)
    requires seen <= seen' && AllClose(seen')
    ensures AllClose(seen)
  {
  }

  lemma OneMoreSample(goal: Goal, samples: seq<Sample>, sample: Sample)
    ensures OnPath(goal, samples + [sample]) <==> OnPath(goal, samples) && SampleClose(goal, sample)
  {
    assert forall s | s in samples :: s in samples + [sample];
    assert sample in samples + [sample];
  }

  /** `late` holds the goals whose run in the worker outlived their callback, the running one first: an
      exception in the wait leaves it behind, and its samples go on arriving. `lateSamples` are those that
      arrived since the present goal was accepted. `calls` and `readings` count what the facade was asked, and
      `lapsed` holds the goals in whose time the driver was not ACTIVE or had no facade. */
  class TrajectoryActionCoordinator {
    const commandsEnabled: bool
    const facade: Facade
    var calls: seq<Call>
    var readings: nat
    var active: bool
    var hasFacade: bool
    var cancelRequested: bool
    var clock: real
    var goalReserved: bool
    var acceptedGoal: Option<Goal>
    var pathViolation: seq<string>
    var nextGoal: nat
    var late: seq<LateRun>
    ghost var lapsed: set<nat>
    ghost var lateSamples: seq<Delivery>
    ghost var current: nat
    ghost var samples: seq<Sample>
    ghost var log: seq<Event>

    ghost predicate Valid()
      reads this
    {
      && LogOk(log, goalReserved, current, nextGoal)
      && (acceptedGoal.Some? ==> goalReserved && acceptedGoal.value.id == current && FinishCount(log, current) == 0)
      && (acceptedGoal.Some? ==> samples == [] && (current !in lapsed ==> active && hasFacade))
      && (forall g | g in lapsed :: g < nextGoal)
      && (pathViolation == [] ==> AllClose(lateSamples))
      && (samples == [] && AllClose(lateSamples) ==> pathViolation == [])
    }

    constructor (commandsEnabled: bool, facade: Facade)
      ensures Valid() && !goalReserved && log == [] && late == [] && nextGoal == 0 && calls == []
      ensures this.commandsEnabled == commandsEnabled && this.facade == facade
    {
      this.commandsEnabled, this.facade, calls, readings, lapsed := commandsEnabled, facade, [], 0, {};
      active, hasFacade, cancelRequested, clock := false, false, false, 0.0;
      goalReserved, acceptedGoal, pathViolation, nextGoal := false, None, [], 0;
      late, lateSamples := [], [];
      current, samples, log := 0, [], [];
    }

    /** The lifecycle becomes ACTIVE: activate, or recover after a fault. */
    method Activate()
      requires Valid()
      modifies this`active, this`hasFacade
      ensures Valid() && active && hasFacade
    {
      hide LogOk, FinishCount, AllClose;
      active, hasFacade := true, true;
    }

    /** The reservation at the end of goal_callback. */
    method Reserve(goal: Goal)
      requires Valid() && !goalReserved && goal.id == nextGoal && active && hasFacade
      modifies this`acceptedGoal, this`goalReserved, this`pathViolation, this`cancelRequested, this`samples, this`nextGoal,
        this`current, this`log, this`lateSamples
      ensures Valid() && goalReserved && current == old(nextGoal) && nextGoal == old(nextGoal) + 1
      ensures log == old(log) + [Accept(current)] && pathViolation == [] && lateSamples == [] && samples == [] && acceptedGoal == Some(goal)
      ensures current !in lapsed && !cancelRequested
      ensures forall g: nat :: FinishCount(log, g) == old(FinishCount(log, g))
    {
      hide LogOk, FinishCount;
      AcceptKeeps(log, current, nextGoal);
      log, current := log + [Accept(nextGoal)], nextGoal;
      nextGoal := nextGoal + 1;
      goalReserved, acceptedGoal, pathViolation, cancelRequested, samples := true, Some(goal), [], false, [];
      lateSamples := [];
    }

    /** Validate and reserve a goal; a request that does not convert is None. */
    method GoalCallback(request: Option<Goal>) returns (accepted: bool)
      requires Valid()
      modifies this`acceptedGoal, this`goalReserved, this`pathViolation, this`cancelRequested, this`samples, this`nextGoal,
        this`current, this`log, this`lateSamples
      ensures Valid()
      ensures accepted <==> commandsEnabled && active && hasFacade && !old(goalReserved) && request.Some?
      ensures accepted ==>
        && goalReserved && current == old(nextGoal) && nextGoal == old(nextGoal) + 1
        && log == old(log) + [Accept(current)] && pathViolation == [] && lateSamples == [] && samples == []
        && acceptedGoal == Some(request.value.(id := current)) && current !in lapsed && !cancelRequested
      ensures !accepted ==> unchanged(this)
      ensures forall g: nat :: FinishCount(log, g) == old(FinishCount(log, g))
    {
      hide LogOk, FinishCount;
      if !commandsEnabled || !active || !hasFacade || goalReserved || request.None? {
        return false;
      }
      Reserve(request.value.(id := nextGoal));
      return true;
    }

    /** Accept a cancellation while a goal is reserved. */
    method CancelCallback() returns (accepted: bool)
      ensures accepted == goalReserved
    {
      return goalReserved;
    }

    /** While a goal is reserved, other threads change neither the reservation nor the log and call nothing,
        and the driver stays active unless the goal is said to have lapsed. */
    twostate predicate OthersActed()
      reads this
    {
      && RunIsOver() && calls == old(calls) && readings == old(readings)
      && (current !in lapsed ==> (old(active) ==> active) && (old(hasFacade) ==> hasFacade))
    }

    /** The same when the callback itself has gone on to call the facade. */
    twostate predicate RunIsOver()
      reads this
    {
      && (old(cancelRequested) ==> cancelRequested) && old(lapsed) <= lapsed && clock >= old(clock)
      && goalReserved == old(goalReserved) && acceptedGoal == old(acceptedGoal)
      && WorkerDid(old(late), old(lateSamples), late, lateSamples)
      && (pathViolation == [] <==> old(pathViolation) == [] && AllClose(lateSamples))
      && nextGoal == old(nextGoal) && current == old(current) && samples == old(samples) && log == old(log)
    }

    lemma PathOfValid()
      requires Valid()
      ensures pathViolation == [] ==> AllClose(lateSamples)
    {
      hide LogOk, FinishCount, AllClose;
    }

    /** Cancel requests, lifecycle changes, goal requests, late samples and time, while a goal is reserved. */
    method Interfere()
      requires Valid() && goalReserved
      modifies this
      ensures Valid() && OthersActed()
    {
      hide Valid, WorkerDid, AllClose;
      var n: nat := *;
      NothingDid(late, lateSamples);
      PathOfValid();
      while n > 0
        invariant Valid() && OthersActed()
      {
        ghost var before, seen := late, lateSamples;
        Requests();
        DidTransitively(old(late), old(lateSamples), before, seen, late, lateSamples);
        before, seen := late, lateSamples;
        WorkerGoesOn();
        DidTransitively(old(late), old(lateSamples), before, seen, late, lateSamples);
        n := n - 1;
      }
    }

    lemma CurrentIsOld()
      requires Valid()
      ensures goalReserved ==> current < nextGoal
    {
      hide FinishCount, SingleGoal, Outstanding, AllClose;
    }

    /** One goal request, one cancel request and one change of the lifecycle. */
    method Requests()
      requires Valid() && goalReserved
      modifies this
      ensures Valid() && OthersActed()
    {
      hide LogOk, FinishCount, AllClose, WorkerDid;
      NothingDid(late, lateSamples);
      CurrentIsOld();
      var request: Option<Goal> := *;
      var accepted := GoalCallback(request);
      var cancel: bool := *;
      if cancel {
        var canceling := CancelCallback();
        cancelRequested := cancelRequested || canceling;
      }
      active, hasFacade := *, *;
      if !active || !hasFacade {
        lapsed := lapsed + {current};
      }
    }

    /** Time passes, and the worker may deliver a sample of an earlier goal or finish its run. */
    method WorkerGoesOn()
      requires Valid() && goalReserved
      modifies this
      ensures Valid() && OthersActed()
    {
      hide LogOk, FinishCount, AllClose, WorkerDid;
      var dt: real := *;
      clock := clock + (if dt > 0.0 then dt else 0.0);
      NothingDid(late, lateSamples);
      if late != [] && late[0].left != Some(0) {
        var sample: Sample := *;
        LateSample(sample);
      }
      ghost var before, seen := late, lateSamples;
      var ended: bool := *;
      if late != [] && ended {
        EndDid(late, lateSamples);
        late := late[1..];
        DidTransitively(old(late), old(lateSamples), before, seen, late, lateSamples);
      }
    }

    /** A progress sample from the run of an earlier goal writes the shared path violation exactly when it
        is off the path of its own goal. */
    method LateSample(sample: Sample)
      requires Valid() && goalReserved && late != [] && late[0].left != Some(0)
      modifies this`pathViolation, this`late, this`lateSamples
      ensures Valid() && late == Delivered(old(late)) && WorkerDid(old(late), old(lateSamples), late, lateSamples)
      ensures lateSamples == old(lateSamples) + [Delivery(old(late[0].goal), sample)]
      ensures if SampleClose(old(late[0].goal), sample) then pathViolation == old(pathViolation) else pathViolation != []
      ensures pathViolation == [] <==> old(pathViolation) == [] && AllClose(lateSamples)
    {
      hide LogOk, FinishCount, AllClose, WorkerDid, Close, Violated;
      var goal := late[0].goal;
      DeliveryDid(late, lateSamples, sample);
      DeliveryCloses(lateSamples, Delivery(goal, sample));
      NothingViolated(sample.actual, sample.desired, goal.pathTolerance, goal.jointNames);
      var violation := Violated(sample.actual, sample.desired, goal.pathTolerance, goal.jointNames);
      late, lateSamples := Delivered(late), lateSamples + [Delivery(goal, sample)];
      if violation != [] {
        pathViolation := violation;
      }
    }

    /** While a goal is reserved, a run left behind with a sample left and off its path does harm by steps of
        the worker alone: a violation comes about without a sample of the present goal. */
    method Harm(k: nat, off: Sample)
      requires Valid() && goalReserved && k < |late| && late[k].left != Some(0) && !SampleClose(late[k].goal, off)
      modifies this`pathViolation, this`late, this`lateSamples
      ensures Valid() && OthersActed() && pathViolation != []
    {
      hide LogOk, FinishCount, AllClose, WorkerDid, SampleClose;
      NothingDid(late, lateSamples);
      var i := 0;
      while i < k
        invariant i <= k && late == old(late[i..])
        invariant Valid() && OthersActed()
      {
        ghost var before := late;
        EndDid(late, lateSamples);
        late := late[1..];
        DidTransitively(old(late), old(lateSamples), before, lateSamples, late, lateSamples);
        i := i + 1;
      }
      ghost var before, seen := late, lateSamples;
      LateSample(off);
      DidTransitively(old(late), old(lateSamples), before, seen, late, lateSamples);
    }

    /** _take_accepted_goal. */
    method TakeAcceptedGoal() returns (goal: Option<Goal>)
      requires Valid()
      modifies this`acceptedGoal
      ensures Valid() && goal == old(acceptedGoal) && acceptedGoal == None
    {
      goal := acceptedGoal;
      acceptedGoal := None;
    }

    /** _release_goal by the callback of the goal that holds the reservation. */
    method ReleaseGoal()
      requires Valid() && goalReserved
      modifies this`goalReserved, this`acceptedGoal, this`pathViolation, this`lateSamples, this`log
      ensures Valid() && !goalReserved && acceptedGoal == None && log == old(log) + [Release(current)]
      ensures FinishCount(log, current) == old(FinishCount(log, current))
    {
      hide LogOk, FinishCount;
      ReleaseKeeps(log, current, nextGoal);
      goalReserved, acceptedGoal, pathViolation, lateSamples := false, None, [], [];
      log := log + [Release(current)];
    }

    /** The one terminal call on the goal handle. */
    method FinishGoal(ghost id: nat, terminal: Terminal)
      requires Valid() && id < nextGoal && acceptedGoal.None?
      modifies this`log
      ensures Valid() && log == old(log) + [Finish(id, terminal)]
      ensures FinishCount(log, id) == old(FinishCount(log, id)) + 1
    {
      hide LogOk, FinishCount;
      FinishKeeps(log, goalReserved, current, nextGoal, id, terminal);
      log := log + [Finish(id, terminal)];
    }

    /** The terminal call of a goal that was released before it; another may hold the reservation. */
    method FinishOther(ghost id: nat, terminal: Terminal)
      requires Valid() && id < nextGoal && (acceptedGoal.Some? ==> acceptedGoal.value.id != id)
      modifies this`log
      ensures Valid() && log == old(log) + [Finish(id, terminal)]
      ensures FinishCount(log, id) == old(FinishCount(log, id)) + 1 && Outstanding(log) == old(Outstanding(log))
    {
      hide LogOk, FinishCount, Outstanding;
      FinishKeeps(log, goalReserved, current, nextGoal, id, terminal);
      Append(log, Finish(id, terminal));
      log := log + [Finish(id, terminal)];
    }

    /** A progress sample from the worker; a violation is remembered. */
    method ProgressCallback(goal: Goal, sample: Sample)
      requires Valid() && goalReserved && acceptedGoal.None?
      modifies this`pathViolation, this`samples
      ensures Valid() && samples == old(samples) + [sample]
      ensures pathViolation == (if SampleClose(goal, sample) then old(pathViolation) else
                                  Violated(sample.actual, sample.desired, goal.pathTolerance, goal.jointNames))
      ensures !SampleClose(goal, sample) ==> pathViolation != []
    {
      NothingViolated(sample.actual, sample.desired, goal.pathTolerance, goal.jointNames);
      var violation := Violated(sample.actual, sample.desired, goal.pathTolerance, goal.jointNames);
      if violation != [] {
        pathViolation := violation;
      }
      samples := samples + [sample];
    }

    /** What stays as it is while the callback of the current goal runs, its own samples and the run it may
        leave behind aside. */
    twostate predicate Held()
      reads this
    {
      && (old(cancelRequested) ==> cancelRequested) && old(lapsed) <= lapsed && clock >= old(clock)
      && goalReserved == old(goalReserved) && acceptedGoal == old(acceptedGoal)
      && nextGoal == old(nextGoal) && current == old(current) && log == old(log)
      && DeliveredBy(old(late), old(lateSamples), lateSamples)
    }

    /** A path violation is remembered exactly when some sample of the goal was off its path, or a late one
        of an earlier goal was off the path of that. */
    ghost predicate PathKnown(goal: Goal)
      reads this
    {
      pathViolation == [] <==> OnPath(goal, samples) && AllClose(lateSamples)
    }

    /** At least this time passes while other threads act. */
    method Pass(period: real)
      requires Valid() && goalReserved && period >= 0.0
      modifies this
      ensures Valid() && OthersActed() && clock >= old(clock) + period
    {
      hide LogOk, FinishCount, AllClose, WorkerDid;
      clock := clock + period;
      Interfere();
    }

    /** _wait_for_start: false when a cancel or an inactive driver comes first. */
    method WaitForStart(goal: Goal) returns (started: bool)
      requires Valid() && goalReserved && active
      modifies this
      ensures Valid() && OthersActed()
      ensures started ==> !cancelRequested && (goal.startTime.None? || clock >= goal.startTime.value)
      ensures !started ==> cancelRequested || (current in lapsed && goal.startTime.Some? && clock < goal.startTime.value)
    {
      hide Valid, AllClose, WorkerDid;
      NothingDid(late, lateSamples);
      PathOfValid();
      while goal.startTime.Some? && clock < goal.startTime.value
        invariant Valid() && OthersActed() && (active || current in lapsed)
        decreases (if goal.startTime.Some? then goal.startTime.value else clock) * 50.0 - clock * 50.0
      {
        if cancelRequested || !active {
          return false;
        }
        ghost var before, seen := late, lateSamples;
        Pass(POLL_PERIOD);
        DidTransitively(old(late), old(lateSamples), before, seen, late, lateSamples);
      }
      return !cancelRequested;
    }

    /** Any number of progress samples from the worker, which first finishes what it has left over. */
    method Deliver(goal: Goal)
      requires Valid() && goalReserved && acceptedGoal.None? && PathKnown(goal)
      modifies this`pathViolation, this`samples
      ensures Valid() && PathKnown(goal) && (old(pathViolation) != [] ==> pathViolation != [])
    {
      hide Valid, OnPath, AllClose;
      var n: nat := *;
      while n > 0 && late == []
        invariant Valid() && PathKnown(goal) && (old(pathViolation) != [] ==> pathViolation != [])
      {
        var sample: Sample := *;
        OneMoreSample(goal, samples, sample);
        ProgressCallback(goal, sample);
        n := n - 1;
      }
    }

    /** Other threads act, and the worker may run this goal. */
    method Wait(goal: Goal, period: real)
      requires Valid() && goalReserved && acceptedGoal.None? && PathKnown(goal) && period >= 0.0
      modifies this
      ensures Valid() && Held() && PathKnown(goal) && WorkerDid(old(late), old(lateSamples), late, lateSamples)
      ensures calls == old(calls) && readings == old(readings) && (old(pathViolation) != [] ==> pathViolation != [])
      ensures old(active) ==> active || current in lapsed
    {
      hide Valid, OnPath, AllClose, WorkerDid, DeliveredBy;
      Deliver(goal);
      Pass(period);
      DidOnly(old(late), old(lateSamples), late, lateSamples);
    }

    /** The exception for a cancel call that was not accepted leaves the run of the goal in the worker. */
    method LeaveBehind(goal: Goal, bumped: bool)
      requires Valid()
      modifies this`late
      ensures Valid() && late == LeftBehind(old(late), goal, bumped)
    {
      hide LogOk, FinishCount, AllClose;
      late := LeftBehind(late, goal, bumped);
    }

    /** The one cancel call that was not accepted yet: it is sent, or stays pending without an active
        command, or leaves the run of the goal behind with an exception. */
    method CancelCore(goal: Goal) returns (sent: bool, raised: bool)
      requires Valid() && goalReserved
      modifies this`late, this`calls
      ensures Valid() && calls == old(calls) + [CancelCurrent]
      ensures sent <==> Accepted(facade.answer(|old(calls)|))
      ensures raised <==> !Accepted(facade.answer(|old(calls)|)) && !Pending(facade.answer(|old(calls)|))
      ensures !raised ==> WorkerDid(old(late), lateSamples, late, lateSamples)
      ensures raised ==> late == LeftBehind(old(late), goal, facade.answer(|old(calls)|).Answer?)
    {
      hide LogOk, FinishCount, AllClose, WorkerDid;
      NothingDid(late, lateSamples);
      CappedDid(late, lateSamples);
      var reply := facade.answer(|calls|);
      calls := calls + [CancelCurrent];
      if !reply.Answer? {
        LeaveBehind(goal, false);
        return false, true;
      }
      if reply.status == Succeeded || reply.status == Canceled {
        late := Capped(late);
        return true, false;
      }
      if reply.status == Rejected && reply.noActiveCommand {
        return false, false;
      }
      LeaveBehind(goal, true);
      return false, true;
    }

    /** The one worker has come to the end of the present run, so no earlier one is left. */
    method RunEnds()
      requires Valid() && goalReserved
      modifies this
      ensures Valid() && OthersActed() && late == [] && lateSamples == old(lateSamples)
    {
      hide LogOk, FinishCount, AllClose, WorkerDid;
      AllEnd(late, lateSamples);
      late := [];
      ghost var seen := lateSamples;
      Interfere();
      DidOnly([], seen, late, lateSamples);
    }

    /** Something calls for the end of the run of the present goal. */
    ghost predicate CalledFor()
      reads this
    {
      cancelRequested || pathViolation != [] || current in lapsed
    }

    /** The one accepted cancel, sent when something calls for it. */
    method CancelIfCalledFor(goal: Goal, run: nat, cancelSent: bool) returns (sent: bool, raised: bool)
      requires Valid() && goalReserved && (active || current in lapsed)
      requires Canceling(facade, calls, run, cancelSent) && (|calls| > run + 1 ==> CalledFor())
      modifies this`late, this`calls
      ensures Valid() && old(calls) <= calls && (|calls| > run + 1 ==> CalledFor())
      ensures LastDecides(facade, calls, run)
      ensures !raised ==> Canceling(facade, calls, run, sent) && WorkerDid(old(late), lateSamples, late, lateSamples)
      ensures |calls| == |old(calls)| + (if !cancelSent && (cancelRequested || pathViolation != [] || !active) then 1 else 0)
      ensures raised ==>
        |calls| > run + 1 && LastRefused(facade, calls) && late == LeftBehind(old(late), goal, facade.answer(|old(calls)|).Answer?)
    {
      hide Valid, AllClose, WorkerDid, LastDecides, Accepted, Pending;
      NothingDid(late, lateSamples);
      sent, raised := cancelSent, false;
      if (cancelRequested || pathViolation != [] || !active) && !cancelSent {
        OneMoreCall(facade, calls, run, CancelCurrent);
        sent, raised := CancelCore(goal);
      }
    }

    /** _wait_for_core_result: poll the future of call number `run`, send one accepted cancel when something
        calls for it, and stop late if the run ended without one. Calls before the last one are cancels that
        found no active command, and the last one decides. */
    method WaitForCoreResult(goal: Goal, run: nat) returns (reply: Reply)
      requires Valid() && goalReserved && acceptedGoal.None? && PathKnown(goal)
      requires |calls| == run + 1 && (active || current in lapsed)
      modifies this
      ensures Valid() && Held() && PathKnown(goal) && readings == old(readings)
      ensures reply.Answer? ==> late == [] && reply == facade.answer(run)
      ensures old(late) == [] && late != [] ==> reply.Exception? && |late| == 1 && late[0].goal == goal
      ensures old(calls) <= calls && (|calls| > run + 1 ==> CalledFor())
      ensures LastDecides(facade, calls, run)
      ensures reply.Exception? ==> facade.answer(run).Exception? || (|calls| > run + 1 && LastRefused(facade, calls))
      ensures reply.Answer? && reply.status != Canceled && (cancelRequested || pathViolation != []) ==>
        |calls| > run + 1 && Accepted(facade.answer(|calls| - 1))
    {
      hide Valid, OnPath, AllClose, WorkerDid, DeliveredBy, LastDecides, Accepted, Pending;
      NothingDid(late, lateSamples);
      NothingDelivered(late, lateSamples);
      Wait(goal, 0.0);
      NoCallYet(facade, calls, run);
      var cancelSent := false;
      var polls: nat := *;
      while polls > 0
        invariant Valid() && Held() && PathKnown(goal) && WorkerDid(old(late), old(lateSamples), late, lateSamples)
        invariant readings == old(readings) && (active || current in lapsed)
        invariant old(calls) <= calls && (|calls| > run + 1 ==> CalledFor())
        invariant Canceling(facade, calls, run, cancelSent)
      {
        ghost var before, seen := late, lateSamples;
        var raised;
        cancelSent, raised := CancelIfCalledFor(goal, run, cancelSent);
        if raised {
          DidOnly(old(late), old(lateSamples), before, lateSamples);
          return Exception;
        }
        DidTransitively(old(late), old(lateSamples), before, seen, late, lateSamples);
        before, seen := late, lateSamples;
        Wait(goal, POLL_PERIOD);
        DidTransitively(old(late), old(lateSamples), before, seen, late, lateSamples);
        DidDelivers(old(late), old(lateSamples), before, seen, lateSamples);
        polls := polls - 1;
      }
      RunEnds();
      reply := facade.answer(run);
      if reply.Answer? && (cancelRequested || pathViolation != []) && !cancelSent && reply.status != Canceled {
        OneMoreCall(facade, calls, run, Stop);
        var stopped := StopAfterExecution();
        if !stopped {
          return Exception;
        }
      }
    }

    /** _stop_after_execution: false is the exception for a stop that was not accepted. */
    method StopAfterExecution() returns (stopped: bool)
      requires Valid()
      modifies this`calls
      ensures Valid() && calls == old(calls) + [Stop] && stopped == Accepted(facade.answer(|old(calls)|))
    {
      hide LogOk, FinishCount, AllClose;
      var reply := facade.answer(|calls|);
      calls := calls + [Stop];
      return reply.Answer? && (reply.status == Succeeded || reply.status == Canceled);
    }

    /** read_joint_state; None is an exception. */
    method ReadJointState() returns (actual: Option<seq<real>>)
      requires Valid()
      modifies this`readings
      ensures Valid() && readings == old(readings) + 1 && actual == facade.read(old(readings))
    {
      hide LogOk, FinishCount, AllClose;
      actual := facade.read(readings);
      readings := readings + 1;
    }

    /** _wait_for_goal_tolerance: read until the goal tolerance is met, the settling time is over, or a
        cancel comes. */
    method WaitForGoalTolerance(goal: Goal) returns (settled: Settled)
      requires Valid() && goalReserved
      modifies this
      ensures Valid() && RunIsOver()
      ensures settled == Met ==>
        && calls == old(calls) && old(readings) < readings
        && ReadsFar(facade, goal, old(readings), readings - 1) && ReadClose(facade, goal, readings - 1)
      ensures settled == TooFar ==>
        && calls == old(calls) && old(readings) < readings && !cancelRequested
        && ReadsFar(facade, goal, old(readings), readings) && clock >= old(clock) + goal.goalTime
      ensures settled == CanceledMeanwhile ==>
        && calls == old(calls) + [Stop] && Accepted(facade.answer(|old(calls)|))
        && cancelRequested && ReadsFar(facade, goal, old(readings), readings)
      ensures settled == StopFailed ==>
        calls == old(calls) + [Stop] && !Accepted(facade.answer(|old(calls)|)) && cancelRequested
      ensures settled == ReadFailed ==>
        && calls == old(calls) && old(readings) < readings
        && ReadsFar(facade, goal, old(readings), readings - 1) && facade.read(readings - 1).None?
    {
      hide Valid, AllClose, WorkerDid, Violated, Close;
      NothingDid(late, lateSamples);
      PathOfValid();
      var deadline := clock + goal.goalTime;
      while true
        invariant Valid() && RunIsOver() && calls == old(calls)
        invariant old(readings) <= readings && ReadsFar(facade, goal, old(readings), readings)
        decreases deadline * 50.0 - clock * 50.0
      {
        if cancelRequested {
          var stopped := StopAfterExecution();
          return if stopped then CanceledMeanwhile else StopFailed;
        }
        var actual := ReadJointState();
        if actual.None? {
          return ReadFailed;
        }
        NothingViolated(actual.value, goal.target, goal.goalTolerance, goal.jointNames);
        if Violated(actual.value, goal.target, goal.goalTolerance, goal.jointNames) == [] {
          return Met;
        }
        if clock >= deadline {
          return TooFar;
        }
        ghost var before, seen := late, lateSamples;
        Pass(POLL_PERIOD);
        DidTransitively(old(late), old(lateSamples), before, seen, late, lateSamples);
      }
    }

    /** record_runtime_fault takes the lifecycle out of ACTIVE; a later goal needs a recover first. */
    method RecordFault()
      requires Valid() && acceptedGoal.None?
      modifies this`active
      ensures Valid() && !active
    {
      hide LogOk, FinishCount;
      active := false;
    }

    /** The except clause of execute_callback: the fault is recorded and the goal aborted. */
    method Fault() returns (terminal: Terminal, code: Code)
      requires Valid() && acceptedGoal.None?
      modifies this`active
      ensures Valid() && !active && terminal == Abort && code == InvalidGoal
    {
      RecordFault();
      return Abort, InvalidGoal;
    }

    /** The cancel flag is looked at once more before the success. */
    method LastCheck() returns (settled: Settled)
      requires Valid() && goalReserved
      modifies this
      ensures Valid() && RunIsOver() && readings == old(readings)
      ensures settled == Met ==> calls == old(calls) && !cancelRequested
      ensures settled == CanceledMeanwhile ==>
        calls == old(calls) + [Stop] && Accepted(facade.answer(|old(calls)|)) && cancelRequested
      ensures settled == StopFailed ==>
        calls == old(calls) + [Stop] && !Accepted(facade.answer(|old(calls)|)) && cancelRequested
      ensures settled in {Met, CanceledMeanwhile, StopFailed}
    {
      hide Valid, AllClose, WorkerDid;
      Interfere();
      if !cancelRequested {
        return Met;
      }
      var stopped := StopAfterExecution();
      return if stopped then CanceledMeanwhile else StopFailed;
    }

    /** The run, call number `run`, succeeded, and the samples known at the path check were on their paths. */
    ghost predicate Passed(goal: Goal, run: nat, known: seq<Delivery>)
      reads this
    {
      && Submitted(goal, run, calls) && facade.answer(run).Answer?
      && OnPath(goal, samples) && AllClose(known)
    }

    /** What follows a run that succeeded and passed the path check. */
    method Settle(goal: Goal, ghost run: nat, ghost known: seq<Delivery>) returns (terminal: Terminal, code: Code, ghost course: Course)
      requires Valid() && goalReserved && acceptedGoal.None?
      requires Passed(goal, run, known) && facade.answer(run).status == Succeeded
      modifies this
      ensures Valid() && RunIsOver() && old(calls) <= calls && Reports(course, terminal, code)
      ensures Went(facade, goal, run, old(readings), calls, readings, samples, cancelRequested, current in lapsed, course)
      ensures course.Raised? || (course.Checked? && course.late == known && course.asked == cancelRequested)
    {
      hide Valid, AllClose, OnPath, WorkerDid, ReadClose, ReadsFar, Close, Went;
      ghost var first := readings;
      var settled := WaitForGoalTolerance(goal);
      ghost var met := settled == Met;
      if settled == Met {
        ghost var before, seen := late, lateSamples;
        settled := LastCheck();
        DidTransitively(old(late), old(lateSamples), before, seen, late, lateSamples);
      }
      if settled == StopFailed || settled == ReadFailed {
        if settled == StopFailed {
          RefusedWent(facade, goal, run, first, calls, readings, samples, cancelRequested, current in lapsed, known);
        } else {
          ReadRaisedWent(facade, goal, run, first, calls, readings, samples, cancelRequested, current in lapsed, known);
        }
        course := Raised(if settled == StopFailed then CallRefused else ReadRaised, known);
        terminal, code := Fault();
        return;
      }
      ghost var ending :=
        if settled == CanceledMeanwhile then (if met then CanceledAtEnd else CanceledSettling)
        else if settled == TooFar then Missed else Done;
      course := Checked(known, cancelRequested, ending);
      CheckedWent(facade, goal, run, first, calls, readings, samples, cancelRequested, current in lapsed, known, ending);
      match settled {
        case CanceledMeanwhile => return Cancel, Successful, course;
        case TooFar => return Abort, GoalToleranceViolated, course;
        case Met => return Succeed, Successful, course;
      }
    }

    /** What follows the path check of a run that passed it. */
    method Conclude(goal: Goal, core: Status, ghost run: nat, ghost known: seq<Delivery>)
      returns (terminal: Terminal, code: Code, ghost course: Course)
      requires Valid() && goalReserved && acceptedGoal.None?
      requires Passed(goal, run, known) && facade.answer(run).status == core
      modifies this
      ensures Valid() && RunIsOver() && old(calls) <= calls && Reports(course, terminal, code)
      ensures Went(facade, goal, run, old(readings), calls, readings, samples, cancelRequested, current in lapsed, course)
      ensures course.Raised? || (course.Checked? && course.late == known && course.asked == cancelRequested)
    {
      hide Valid, AllClose, OnPath, WorkerDid, Close, SampleClose, ReadClose, ReadsFar;
      Interfere();
      if cancelRequested {
        return Cancel, Successful, Checked(known, true, CanceledAfterRun);
      }
      if core == Canceled {
        return Cancel, Successful, Checked(known, false, CanceledAfterRun);
      }
      if core != Succeeded {
        return Abort, InvalidGoal, Checked(known, false, CoreFailed);
      }
      ghost var before, seen := late, lateSamples;
      terminal, code, course := Settle(goal, run, known);
      DidTransitively(old(late), old(lateSamples), before, seen, late, lateSamples);
    }

    lemma KnownAtStart(goal: Goal)
      requires Valid() && samples == []
      ensures PathKnown(goal)
    {
      hide LogOk, FinishCount, AllClose;
    }

    /** The work is submitted to the one worker. */
    method SubmitRun(goal: Goal) returns (run: nat)
      requires Valid()
      modifies this`calls
      ensures Valid() && run == |old(calls)| && calls == old(calls) + [Submit(goal.id)]
    {
      hide LogOk, FinishCount, AllClose;
      run := |calls|;
      calls := calls + [Submit(goal.id)];
    }

    /** The try body of execute_callback and its except clause: which terminal call and which code it comes
        to, and by which course. */
    method RunGoal(goal: Goal) returns (terminal: Terminal, code: Code, ghost course: Course)
      requires Valid() && goalReserved && acceptedGoal.None? && samples == [] && active
      modifies this
      ensures Valid() && Held() && old(calls) <= calls && Reports(course, terminal, code)
      ensures Went(facade, goal, |old(calls)|, old(readings), calls, readings, samples, cancelRequested, current in lapsed, course)
      ensures !course.NoGoal? && !course.Inactive? && (course.Checked? ==> course.asked == cancelRequested)
      ensures course.Checked? ==> DeliveredBy(old(late), old(lateSamples), course.late) && late == []
    {
      hide Valid, AllClose, OnPath, WorkerDid, DeliveredBy, SampleClose, ReadClose, ReadsFar;
      ghost var first := readings;
      var started := WaitForStart(goal);
      DidOnly(old(late), old(lateSamples), late, lateSamples);
      if !started {
        terminal := if cancelRequested then Cancel else Abort;
        code := if cancelRequested then Successful else InvalidGoal;
        return terminal, code, NotStarted(cancelRequested);
      }
      ghost var before, seen := late, lateSamples;
      KnownAtStart(goal);
      var run := SubmitRun(goal);
      var reply := WaitForCoreResult(goal, run);
      DidDelivers(old(late), old(lateSamples), before, seen, lateSamples);
      ghost var known := lateSamples;
      if reply.Exception? {
        if facade.answer(run).Exception? {
          RunRaisedWent(facade, goal, run, first, calls, samples, cancelRequested, current in lapsed, known);
          course := Raised(RunRaised, known);
        } else {
          RefusedWent(facade, goal, run, first, calls, first, samples, cancelRequested, current in lapsed, known);
          course := Raised(CallRefused, known);
        }
        terminal, code := Fault();
        return;
      }
      if pathViolation != [] {
        CheckedWent(facade, goal, run, first, calls, first, samples, cancelRequested, current in lapsed, known, OffPath);
        return Abort, PathToleranceViolated, Checked(known, cancelRequested, OffPath);
      }
      terminal, code, course := Conclude(goal, reply.status, run, known);
      DidOnly([], known, late, lateSamples);
    }

    lemma NoneOutstanding()
      requires Valid()
      ensures Outstanding(log) == if goalReserved then {current} else {}
    {
      hide FinishCount, SingleGoal, Outstanding, AllClose;
    }

    lemma ReservedIsAccepted()
      requires Valid()
      ensures acceptedGoal.Some? ==> goalReserved && current < nextGoal
    {
      hide FinishCount, SingleGoal, Outstanding, AllClose;
    }

    lemma OffPathBefore()
      requires Valid()
      ensures samples == [] && pathViolation != [] ==> !AllClose(lateSamples)
    {
      hide LogOk, FinishCount, AllClose;
    }

    /** The terminal call for the goal that holds the reservation, after which it is released. */
    method FinishAndRelease(terminal: Terminal)
      requires Valid() && goalReserved && acceptedGoal.None? && current < nextGoal
      modifies this
      ensures Valid() && samples == old(samples) && calls == old(calls) && readings == old(readings) && Outstanding(log) == {}
      ensures (old(cancelRequested) ==> cancelRequested) && old(lapsed) <= lapsed
      ensures log == old(log) + [Finish(old(current), terminal), Release(old(current))]
      ensures FinishCount(log, old(current)) == old(FinishCount(log, current)) + 1
    {
      hide Valid, FinishCount, Outstanding, AllClose, WorkerDid;
      FinishGoal(current, terminal);
      Interfere();
      ReleaseGoal();
      NoneOutstanding();
    }

    /** The driver became inactive before the execution: the goal is released first, then aborted, and the
        driver may be active again and another goal accepted in between. */
    method ReleaseAndAbort()
      requires Valid() && goalReserved && acceptedGoal.None? && current < nextGoal
      modifies this
      ensures Valid() && calls == old(calls) && readings == old(readings) && lapsed == old(lapsed)
      ensures old(log) + [Release(old(current))] <= log && log[|log| - 1] == Finish(old(current), Abort)
      ensures old(current) !in Outstanding(log)
      ensures FinishCount(log, old(current)) == old(FinishCount(log, current)) + 1
    {
      hide LogOk, FinishCount, Outstanding, AllClose, WorkerDid;
      ghost var handle := current;
      ReleaseGoal();
      NoneOutstanding();
      active, hasFacade := *, *;
      var request: Option<Goal> := *;
      var other := GoalCallback(request);
      NoneOutstanding();
      FinishOther(handle, Abort);
    }

    /** Nobody asked for a cancel, the driver stayed active, all samples known were on their paths, the run
        succeeded, and the first read after it is within the goal tolerance. */
    ghost predicate Calm(goal: Goal, run: nat, first: nat, lapse: bool, course: Course)
      reads this
    {
      && !lapse && !cancelRequested && OnPath(goal, samples) && (course.Raised? || course.Checked? ==> AllClose(course.late))
      && facade.answer(run).Answer? && facade.answer(run).status == Succeeded && ReadClose(facade, goal, first)
    }

    /** execute_callback for the goal handle of a goal that was accepted. It makes exactly one terminal
        call for the goal and frees its reservation. `course` says what the goal came to, and the terminal
        call and the code are the ones that belong to it. When no run left behind can do harm, a path
        violation is reported only for a sample of the goal itself. */
    method ExecuteCallback(handle: nat) returns (terminal: Terminal, code: Code, ghost goal: Option<Goal>, ghost course: Course)
      requires Valid() && handle < nextGoal && (acceptedGoal.Some? ==> acceptedGoal.value.id == handle)
      modifies this
      ensures Valid() && goal == old(acceptedGoal) && old(calls) <= calls
      ensures FinishCount(log, handle) == old(FinishCount(log, handle)) + 1
      ensures goal.Some? ==> FinishCount(log, handle) == 1 && handle !in Outstanding(log)
      ensures match course {
        case NoGoal => log == old(log) + [Finish(handle, Abort)]
        case Inactive => old(log) + [Release(handle)] <= log && log[|log| - 1] == Finish(handle, Abort)
        case _ => log == old(log) + [Finish(handle, terminal), Release(handle)]
      }
      ensures goal.None? ==> course == NoGoal && Outstanding(log) == old(Outstanding(log))
      ensures goal.Some? ==>
        Went(facade, goal.value, |old(calls)|, old(readings), calls, readings, samples, cancelRequested, handle in lapsed, course)
      ensures Reports(course, terminal, code) && (terminal == Abort <==> code != Successful)
      ensures goal.Some? && Calm(goal.value, |old(calls)|, old(readings), handle in lapsed, course) ==> terminal == Succeed
      ensures course.Checked? ==> DeliveredBy(old(late), old(lateSamples), course.late)
      ensures goal.Some? && Harmless(old(late)) && AllClose(old(lateSamples)) && code == PathToleranceViolated ==>
        !OnPath(goal.value, samples)
      ensures course.Checked? && old(pathViolation) != [] ==> code == PathToleranceViolated
    {
      hide LogOk, Outstanding, FinishCount, AllClose, WorkerDid, Harmless, Bounded, SamplesLeft, OnPath, Ended, ReadClose;
      goal := acceptedGoal;
      ReservedIsAccepted();
      var accepted := TakeAcceptedGoal();
      if accepted.None? {
        terminal, code, course := Abort, InvalidGoal, NoGoal;
        FinishOther(handle, terminal);
        return;
      }
      OffPathBefore();
      Interfere();
      if !hasFacade || !active {
        terminal, code, course := Abort, InvalidGoal, Inactive;
        ReleaseAndAbort();
        return;
      }
      ghost var before, seen := late, lateSamples;
      terminal, code, course := RunGoal(accepted.value);
      ghost var asked, lapse := cancelRequested, current in lapsed;
      if course.Checked? {
        DidDelivers(old(late), old(lateSamples), before, seen, course.late);
        if AllClose(course.late) {
          PrefixCloses(old(lateSamples), course.late);
        }
      }
      FinishAndRelease(terminal);
      WentOn(facade, accepted.value, |old(calls)|, old(readings), calls, readings, samples, asked, lapse,
             cancelRequested, handle in lapsed, course);
      CalmSucceeds(accepted.value, |old(calls)|, old(readings), handle in lapsed, course);
    }

    lemma CalmSucceeds(goal: Goal, run: nat, first: nat, lapse: bool, course: Course)
      requires Went(facade, goal, run, first, calls, readings, samples, cancelRequested, lapse, course)
      ensures Calm(goal, run, first, lapse, course) ==> course.Checked? && course.ending == Done
    {
      hide Went, ReadClose, OnPath, AllClose;
      if Calm(goal, run, first, lapse, course) {
        CalmGoalSucceeds(facade, goal, run, first, calls, readings, samples, course);
      }
    }
  }

  /** The cancel call for a first goal is not accepted; it is aborted and released, and its run is left
      behind with the one sample in flight. */
  method OneLeftBehind(facade: Facade, first: Goal) returns (c: TrajectoryActionCoordinator)
    requires facade.answer(1).Answer? && !Accepted(facade.answer(1)) && !Pending(facade.answer(1))
    ensures fresh(c) && c.Valid() && c.commandsEnabled && c.hasFacade && !c.active && !c.goalReserved && c.nextGoal == 1
    ensures c.log == [Accept(0), Finish(0, Abort), Release(0)] && c.late == [LateRun(first.(id := 0), Some(1))]
    ensures c.calls == [Submit(0), CancelCurrent]
  {
    hide LogOk, FinishCount, AllClose, Accepted, Pending, WorkerDid, TrajectoryActionCoordinator.Valid;
    c := new TrajectoryActionCoordinator(true, facade);
    c.Activate();
    var accepted := c.GoalCallback(Some(first));
    var goal := c.TakeAcceptedGoal();
    var run := c.SubmitRun(goal.value);
    var sent, raised := c.CancelCore(goal.value);
    var terminal, code := c.Fault();
    c.FinishGoal(0, terminal);
    c.ReleaseGoal();
  }

  /** A violation that is not the goal's own, step by step: after that the lifecycle recovers, a second goal
      is accepted, and the sample in flight arrives. */
  method AnotherGoalsViolation(facade: Facade, first: Goal, second: Goal, off: Sample) returns (c: TrajectoryActionCoordinator)
    requires facade.answer(1).Answer? && !Accepted(facade.answer(1)) && !Pending(facade.answer(1)) && !SampleClose(first, off)
    ensures fresh(c) && c.Valid() && c.acceptedGoal == Some(second.(id := 1)) && c.active
    ensures c.log == [Accept(0), Finish(0, Abort), Release(0), Accept(1)] && c.calls == [Submit(0), CancelCurrent]
    ensures c.samples == [] && c.lateSamples == [Delivery(first.(id := 0), off)] && c.pathViolation != []
    ensures c.late == [LateRun(first.(id := 0), Some(0))]
  {
    hide LogOk, FinishCount, Close, AllClose, Accepted, Pending, TrajectoryActionCoordinator.Valid, WorkerDid;
    c := OneLeftBehind(facade, first);
    c.Activate();
    var accepted := c.GoalCallback(Some(second));
    c.LateSample(off);
  }

  const POLL_PERIOD := 0.02

  datatype Settled = Met | TooFar | CanceledMeanwhile | StopFailed | ReadFailed

  /** This progress sample met the path tolerance. */
  predicate SampleClose(goal: Goal, sample: Sample) {
    Close(sample.actual, sample.desired, goal.pathTolerance, goal.jointNames)
  }
}
