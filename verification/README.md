# A Dafny model of the MyArm M750 driver

The project models the safety core of the MyArm M750 driver and proves what it is there for.

* **The command protocol** (`ExecutorModel`, `ExecutorLog`, `ExecutorInvariant`, `ExecutorTheorems`,
  `ExecutorLifecycle`, `ExecutorProgress`, `ExecutorRace`, `Executor`, `DriverStates`, `Controller`, `Scheduler`).
  One thread is inside `execute`, one may be inside connect or disconnect under the session's lifecycle lock, and
  any number of others cancel, stop and recover. It is a step system: each block under the command-lane lock is one
  step, and a state check and the `apply` after it are two, so that `apply` may raise in between. Hardware may
  acknowledge, refuse or raise, and a released adapter raises. An invariant over all steps gives the theorems over
  whole runs. The classes `TrajectoryExecutor` and `RobotController` then update the fields of the source block by
  block; each block is proved to be one step, and other threads act between any two, so the theorems about runs are
  theorems about that code.
* **Admission and generation** (`Safety`, `SafetyTheorems`, `SafetyFields`, `Validator`, `Generator`,
  `GeneratorTheorems`). `Safe` says declaratively what a trajectory must satisfy; the validator's loops produce an
  empty report exactly for safe trajectories, and `SafetyFields` says what that is in the policy's own fields. The
  generator's analytic extrema imply all its finite-difference checks, and a prefix of a safe trajectory is safe,
  which joins it to the protocol.
* **Kinematics** (`Geometry`, `Matrices`, `Twists`, `TwistTheorems`, `UrdfChain`, `Poe`, `PoeTheorems`,
  `Quaternions`, `RotationLog`, `RotationConventions`, `Ik`, `DampedSystem`). Sine, cosine and square root are
  parameters known by their laws: sin^2 + cos^2 = 1, the addition formulas, their values at zero, and the square of
  a root; the inverse cosine inverts the cosine from zero to pi. The product of exponentials is proved equal to the
  chain it was built from.
* **The frame graph** (`FrameGraph`, `FrameComponents`, `Descents`, `ZeroPose`). Depth-first cycles, breadth-first
  components, and the zero pose along the first of the shortest descents, which agrees with the home transform.
* **Three stateful cores** (`Coordinator`, `NetworkMetrics`, `Camera`).

`dafny verify dfyconfig.toml` checks the whole project.

## What the proofs found

* `disconnect` reads the driver state before it decides whether to stop the active command, and a `connect`
  that failed withdraws without looking, so a DISCONNECT_REQUESTED can land on a command accepted in between.
  The command is not cancelled by it. `ExecutorRace.WriteOutsideExecuting` says exactly when that happens. While
  the driver is DISCONNECTED the command's next write attempt raises and it ends as FAILED
  (`AttemptWhileDisconnected`); when the session connects again first, the attempt is acknowledged in the new
  connection while the driver is IDLE (`WriteWhileIdle`). A command accepted while no connect or disconnect is
  under way is safe from this (`QuietAcceptance`), and every other theorem holds in such runs too.
* `recover` takes no lock, so a concurrent disconnect can make its last apply raise.
  `Controller.RobotController.Recover` says when each of its applies does, and `ExecutorRace.RecoverApplyRaises`
  gives a run.
* A failed inverse kinematics run returns the iterate after the last one it measured, with the errors of
  the one before. `Ik.ReportedErrors` says exactly when these are the errors of the returned joints, and
  `Ik.FailureCanReportStaleErrors` gives a run whose returned joints are within tolerance.
* The rotation logarithm loses the signs of the axis at half a turn, and is only approximate within 1e-6 below
  it. `RotationLog` says exactly when it is right.
* A trajectory goal whose cancel call raised or was not accepted is aborted, but leaves its run in the worker,
  and after a recover a late sample of that run can abort the next goal for a path violation that is not its own:
  `Coordinator.AnotherGoalsViolation` goes through the steps. It can never make one succeed, and a cancel that was
  not accepted has bumped the generation of the run, which then has one sample left at most. A goal is safe from
  this exactly when no run left behind at its acceptance has both a sample left and a finite path tolerance, in
  particular when none was left behind: `ExecuteCallback` is the one direction, `Harm` with `HarmfulRun` the other.
* The square root and divisions of the matrix-to-quaternion conversion are defined for every matrix, not
  only for rotations.

## Assumptions

What the hardware and the facade answer, and where they raise, are given functions of the command and its place
(`ExecutorProgress.Hardware`) or of the number of the call (`Coordinator.Facade`), so that a result can be said to
follow from the answers; every theorem is for all such functions. Other threads act freely.

Numbers are reals: no rounding, NaN or infinity, except the infinite derived rates that the validator creates
itself. Command ids are fresh, the clock does not run backwards, and only ordinary exceptions occur. Trajectories
satisfy what their constructor demands (pycore/src/domain/models.py:267-290): at least one point and strictly
increasing, non-negative times. Configuration objects satisfy what their constructors demand;
the witnesses of `ExecutorRace` also need a state timeout that is not negative, and the loader accepts only
positive ones (pycore/src/runtime/config/loader.py:355-367). One thread at a time is inside connect or disconnect (pycore/src/api/session.py:63, 78); any number are inside recover. An adapter counts
as released once its disconnect was called, whether or not that call raised, as in all three adapters
(mock_robot.py:38-40, replay_robot.py:74-76, vendor_serial.py:167-193 in pycore/src/adapters); from then on its
writes and reads raise and its stop fails.

## Model

| member | source | states |
|---|---|---|
| ExecutorTheorems.CancellationIsFinal | pycore/src/runtime/executor.py:107-128 | In every run and interleaving: once a cancel or stop bumps the generation while command c is active, no later hardware write carries c and `execute` never returns SUCCEEDED for c. |
| ExecutorTheorems.SuccessMeansUndisturbed | pycore/src/runtime/executor.py:240-251 | A SUCCEEDED result means that nothing bumped the generation while the command was active, that no stop was issued for it, and that every admitted point was written and acknowledged. |
| ExecutorTheorems.StopAtMostOnce | pycore/src/runtime/executor.py:73-128 | However many cancels, stops and failure paths race, the hardware stop is reached at most once per command: never for a success or rejection, exactly once and successfully for CANCELED, exactly once for FAILED or an escaping exception. |
| ExecutorTheorems.WrittenPrefixIsSafe | pycore/src/runtime/executor.py:177-239 | The written targets are the first admitted points, in order and without a gap, each no earlier than start plus its time; that prefix is itself a safe trajectory from the measured state, so a cancelled or failed run wrote something that validates. |
| ExecutorTheorems.NoWriteWithoutAdmission | pycore/src/runtime/executor.py:158-203 | Every hardware write belongs to a command whose admission is in the log. |
| ExecutorTheorems.ExecutingHasAnOwner | pycore/src/runtime/executor.py:151-319 | Whenever the execution lock is free the driver is not EXECUTING and no command is active; EXECUTING always has a worker that owns the active id, across raising applies and concurrent disconnect or recover. |
| ExecutorTheorems.LogGrows | pycore/src/runtime/executor.py:143-265 | Along any run the log of writes, stops and results only grows. |
| ExecutorTheorems.StopCountIsOne | pycore/src/runtime/executor.py:73-93 | The count of stops of a command is at most one, and one exactly when the log holds a stop for it. |
| ExecutorInvariant.StepKeepsInv | pycore/src/runtime/executor.py:66-319 | Every step of every thread, including each apply that raises, keeps the protocol invariant: ids, ownership, plan, stop and cancellation facts and the log. |
| ExecutorInvariant.RunKeepsInv | pycore/src/runtime/executor.py:66-319 | Every state of every run satisfies the protocol invariant. |
| ExecutorInvariant.WriteAcknowledgedKeeps | pycore/src/runtime/executor.py:189-203 | An acknowledged write keeps the invariant: it is the next point of the admitted list, on time, and not after a cancellation. |
| ExecutorInvariant.CommitKeeps | pycore/src/runtime/executor.py:240-251 | The committing lane block keeps the invariant on all three of its ways out: cancelled, committed, and raising. |
| ExecutorInvariant.StopFacts | pycore/src/runtime/executor.py:73-93 | What the memoised stop establishes: at most one logged stop for the id, and a memo that agrees with it. |
| ExecutorInvariant.CancelActiveKeeps | pycore/src/runtime/executor.py:107-119 | A cancel of the active command keeps the invariant wherever the worker is. |
| ExecutorInvariant.StopIdleKeeps | pycore/src/runtime/executor.py:121-128 | A stop without an active command uses a fresh id and keeps the invariant. |
| ExecutorLog.AppendKeepsLog | pycore/src/runtime/executor.py:143-319 | A log in which stops are unique, cancellation is final, writes follow the plan and results keep their promises stays so under every event the protocol may append. |
| ExecutorRace.WriteOutsideExecuting | pycore/src/application/robot_controller.py:97-133 | From acceptance on, while a command is uncancelled, a write attempt meets a driver that is not EXECUTING if and only if a connect or disconnect that began (for disconnect: that read the driver state) before the acceptance applied its DISCONNECT_REQUESTED in between. |
| ExecutorRace.QuietAcceptance | pycore/src/application/robot_controller.py:97-133 | If no connect or disconnect is under way when a command is accepted, every write attempt of it until a cancel meets EXECUTING. |
| ExecutorRace.DisconnectedUntilNextConnect | pycore/src/application/robot_controller.py:123-131 | Under a running uncancelled command the driver is DISCONNECTED exactly from a withdrawal until the request of the next connect. |
| ExecutorRace.WriteWhileDisconnectedRaises | pycore/src/adapters/mock_robot.py:42-76 | No write that meets a DISCONNECTED driver is acknowledged or refused: the released adapter raises and the command enters its failure path. |
| ExecutorRace.WriteInNextConnection | pycore/src/application/robot_controller.py:68-95 | A write that meets an open adapter outside EXECUTING comes after such a withdrawal and after a later connect that attached the adapter again, and the driver is not DISCONNECTED. |
| ExecutorRace.AttemptWhileDisconnected | pycore/src/application/robot_controller.py:97-133 | For every safe trajectory there is a run of these steps in which a disconnect that read IDLE takes the driver to DISCONNECTED under the command: its first write attempt raises, its stop fails and it ends as FAILED. |
| ExecutorRace.WriteWhileIdle | pycore/src/application/robot_controller.py:68-133 | For every safe trajectory there is a run in which, after such a disconnect and a new connect, the old command's first write is acknowledged while the driver is IDLE. |
| ExecutorRace.FailedConnectWithdraws | pycore/src/application/robot_controller.py:77-95 | The DISCONNECT_REQUESTED of a connect that failed and cleaned up can land on a running command too, without any disconnect. |
| ExecutorRace.RecoverApplyRaises | pycore/src/application/robot_controller.py:265-287 | There is a run of these steps in which a recover has read the state of the open adapter, a disconnect takes the driver to DISCONNECTED, and the recover's last apply then raises and changes nothing. |
| ExecutorRace.ExecutingUnlessDisconnected | pycore/src/application/robot_controller.py:97-133 | While a command runs uncancelled, the driver is EXECUTING exactly as long as no DISCONNECT_REQUESTED was applied since its acceptance. |
| ExecutorLifecycle.RunKeepsLifecycle | pycore/src/application/robot_controller.py:68-133 | In every state of every run the driver is CONNECTING exactly inside connect, never DISCONNECTED with an open adapter, and a released adapter stays released until the next connect attaches it. |
| ExecutorLifecycle.SessionAppliesSucceed | pycore/src/application/robot_controller.py:74-131 | The applies of connect after its request and the last apply of disconnect never raise. |
| ExecutorLifecycle.SeenExecutingIsStopped | pycore/src/application/robot_controller.py:100-102 | A disconnect that has seen EXECUTING calls stop_now before it goes on. |
| ExecutorLifecycle.RecoveringEnded | pycore/src/runtime/state_machine.py:53-70 | Only a withdrawal or the result of a recover takes the driver out of RECOVERING. |
| ExecutorLifecycle.FaultEnded | pycore/src/runtime/state_machine.py:53-70 | Only a withdrawal or the request of a recover takes the driver out of FAULT. |
| Executor.TrajectoryExecutor.IssueStopLocked | pycore/src/runtime/executor.py:73-93 | The memoised stop: the recorded outcome of this command if there is one, else the hardware reply, which is recorded. |
| Executor.TrajectoryExecutor.CancelBlock | pycore/src/runtime/executor.py:107-119 | The block up to the state check is exactly one cancel step of the protocol; without an active command it rejects and changes nothing. |
| Executor.TrajectoryExecutor.StopNowBlock | pycore/src/runtime/executor.py:121-128 | The block up to the state check is exactly one stop step of the protocol. |
| Executor.TrajectoryExecutor.CheckStopBlock | pycore/src/runtime/executor.py:95-100 | The state check after a stop is one step of its own. |
| Executor.TrajectoryExecutor.FaultStopBlock | pycore/src/runtime/executor.py:101-105 | The apply after a failed stop is one step of its own, and frees the lane even when it raises. |
| Executor.TrajectoryExecutor.WriteBlock | pycore/src/runtime/executor.py:189-203 | The lane block around a write: re-check of the generation, then one write of the next point; on cancellation the lane is kept. |
| Executor.TrajectoryExecutor.CommitBlock | pycore/src/runtime/executor.py:240-251 | The committing lane block: cancelled with the lane kept, committed, or left on an exception. |
| Executor.TrajectoryExecutor.FinishCanceled | pycore/src/runtime/executor.py:267-285 | Ends in CANCELED after a successful stop, in the failure path after a failed one, or on an exception, never holding the lane. |
| Executor.TrajectoryExecutor.FinishFailed | pycore/src/runtime/executor.py:287-319 | Ends in FAILED, or in an exception that the except clause handles once and that escapes the second time. |
| Executor.TrajectoryExecutor.AdmitBlock | pycore/src/runtime/admission.py:49-85 | Admission reads the driver state and validates the complete trajectory. A rejection comes only with its reason: the step it names read another driver state than IDLE, or validated at a time at which the measured state was too old, the names were others, or the trajectory was not safe. |
| Executor.TrajectoryExecutor.Execute | pycore/src/runtime/executor.py:143-265 | With arbitrary interference between any two blocks, the run is one of the protocol; a busy executor rejects; otherwise the lock is free afterwards, the result is logged and the log keeps what that result promises. A rejection of an executor that was not busy has its reason in the run; and if the driver is IDLE and attached, no other thread cancels, stops or changes the session, the hardware acknowledges, reads fresh and never raises, and the trajectory is admissible when it is validated, then the command succeeds and all its points are written. |
| ExecutorProgress.RejectedForAReason | pycore/src/runtime/admission.py:65-85 | In every run a rejected command read another driver state than IDLE, or was validated when its names, the age of its measured state or the trajectory itself were not admissible. |
| ExecutorProgress.UndisturbedCommandSucceeds | pycore/src/runtime/executor.py:143-265 | In every run, a command that begins on an IDLE and attached driver, that nobody cancels, stops or disconnects, with hardware that acknowledges every write, reads fresh and raises nowhere, and that is admissible if validated, ends as SUCCEEDED. |
| ExecutorProgress.FailureEndsInFault | pycore/src/runtime/executor.py:287-319 | In every run, a command that returns FAILED leaves the driver in FAULT unless a session operation (a withdrawal, connect or recover) acted since it began, and its exception escapes only if another thread applied a fault. |
| DriverStates.DriverStateMachine.Apply | pycore/src/runtime/state_machine.py:93-125 | Applies an event exactly when the table has it, recording the transition; a missing reason or a forbidden event changes nothing. |
| DriverStates.ExecutionsBalance | pycore/src/runtime/state_machine.py:53-70 | In every history EXECUTING is entered only from IDLE by an accepted execution, and once more than it was left exactly when the driver is in it. |
| Controller.RobotController.Connect | pycore/src/application/robot_controller.py:68-95 | Under the lifecycle lock and with other threads acting between any two blocks: raises at once exactly outside DISCONNECTED; a normal return took request, attach and success in this order and leaves the adapter open; otherwise it took the cleanup and the failure, the adapter is closed, and the driver is DISCONNECTED exactly when the cleanup succeeded. |
| Controller.RobotController.Disconnect | pycore/src/application/robot_controller.py:97-133 | Under the lifecycle lock and with other threads acting in between: which blocks it takes for each outcome; the adapter is always closed afterwards, a release that did not raise leaves the driver DISCONNECTED, and its apply happens exactly when it was not DISCONNECTED before. |
| Controller.RobotController.StopForDisconnect | pycore/src/application/robot_controller.py:100-121 | Waits for the command lane whoever holds it, then takes exactly one stop step and its check and apply. |
| Executor.TrajectoryExecutor.AwaitLane | pycore/src/runtime/executor.py:121-128 | A thread that waits for the command lane gets it: whoever holds it comes to an end in finitely many steps of its own. |
| Controller.RobotController.Recover | pycore/src/application/robot_controller.py:263-287 | With no lock held: success exactly when its last apply took the driver from RECOVERING to IDLE after a read of an open adapter, failure exactly from RECOVERING to FAULT, and a last apply that raises only because a withdrawal or another recover took the driver out of RECOVERING in between. It is rejected exactly when its look at the state did not find FAULT, and its request raises exactly when the driver left FAULT after that look, by a withdrawal or by another recover's request. |
| Controller.RobotController.MoveJoints | pycore/src/application/robot_controller.py:158-178 | A generated trajectory always meets the constructor's demands on times, runs through the guarded path, and its logged result keeps its promise. |
| Scheduler.DeadlineScheduler.WaitUntil | pycore/src/runtime/scheduler.py:45-56 | Never returns before the deadline unless a cancellation was seen, never sleeps longer than a poll period, and never more often than the distance to the deadline allows, however the clock runs. |
| Scheduler.VirtualScheduler.WaitUntil | pycore/src/runtime/scheduler.py:69-77 | Virtual time moves to the deadline and never back; a cancelled wait leaves it alone. |
| Scheduler.PollsGoDown | pycore/src/runtime/scheduler.py:51-55 | Each poll uses up one of the polls that fit before the deadline. |
| Validator.TrajectoryValidator.Validate | pycore/src/domain/safety/trajectory_validator.py:90-223 | In the fields of the policy: the report is empty if and only if the measured state is at most state_timeout old, the names match and every limit with its margin, step, rate, budget, workspace and singularity demand is met. Within the budgets every point beyond a margin or a step limit is in the report with its place, value and limit; a stale state is reported with its age. Forward kinematics is called at most as often as the budget allows. |
| Validator.TrajectoryValidator.Report | pycore/src/domain/safety/trajectory_validator.py:90-223 | State and names first, then the budgets, then the points: the report in order. |
| SafetyFields.SafeMeansPolicy | pycore/src/domain/safety/trajectory_validator.py:169-223 | Safety is the conjunction of the policy's demands written out on the positions, times and rates of the points, for every policy and trajectory. |
| SafetyFields.CountIsLeast | pycore/src/domain/safety/trajectory_validator.py:421-427 | The number of samples of a segment is the least positive number of equal steps that move no joint by more than the resample step, and no other number is. |
| SafetyFields.BudgetInFields | pycore/src/domain/safety/trajectory_validator.py:225-259 | The sample budget holds exactly when the sum of those least numbers over the segments is within it. |
| SafetyFields.FullReport | pycore/src/domain/safety/trajectory_validator.py:261-293 | For a trajectory in time order, each joint of each point outside its limits with margin, or with too large a step, is reported with that point, joint, value and bound. |
| Validator.TrajectoryValidator.ValidatePoints | pycore/src/domain/safety/trajectory_validator.py:169-223 | The loop that carries the last accepted position, time and velocity produces the specified report and number of kinematics calls. |
| Validator.TrajectoryValidator.WorkspaceSampleCount | pycore/src/domain/safety/trajectory_validator.py:225-259 | The guarded early-exit estimate is the plain sum of segment counts whenever that sum fits the budget, and exceeds the budget exactly when the sum does. |
| Validator.TrajectoryValidator.ValidatePosition | pycore/src/domain/safety/trajectory_validator.py:261-293 | Appends exactly the limit and step violations, joint by joint: nothing is appended if and only if each joint is at least the margin inside its limits and within the step limit. |
| Validator.TrajectoryValidator.ValidateDerivative | pycore/src/domain/safety/trajectory_validator.py:332-369 | Appends exactly the violations of one vector of rates. |
| Validator.TrajectoryValidator.ValidateVelocity | pycore/src/domain/safety/trajectory_validator.py:295-330 | Appends the violations of the provided and of the derived velocity and returns the derived one. |
| Validator.TrajectoryValidator.ValidateAcceleration | pycore/src/domain/safety/trajectory_validator.py:371-412 | Appends the violations of the provided and of the derived acceleration. |
| Validator.TrajectoryValidator.ValidateWorkspaceSegment | pycore/src/domain/safety/trajectory_validator.py:414-460 | Appends the violations of every sample of the segment, with one kinematics call per sample. |
| Validator.ReportMeans | pycore/src/domain/safety/trajectory_validator.py:169-223 | The report of a whole run is empty exactly for a clean start and points that pass every check; with increasing times its kinematics calls equal the plain total. |
| Validator.EarlyViolationsStay | pycore/src/domain/safety/trajectory_validator.py:90-223 | Violations found early are never lost. |
| SafetyTheorems.WalkClean | pycore/src/domain/safety/trajectory_validator.py:169-223 | No violation after k points if and only if each of them is safe, and then the carried position, time and velocity are those of the previous point. |
| SafetyTheorems.PointClean | pycore/src/domain/safety/trajectory_validator.py:172-222 | The report of one point is empty exactly when the point is safe. |
| SafetyTheorems.PositionClean | pycore/src/domain/safety/trajectory_validator.py:261-293 | No position report exactly when lower + margin <= position <= upper - margin and the step limit hold for each joint. |
| SafetyTheorems.RateClean | pycore/src/domain/safety/trajectory_validator.py:332-369 | No rate report exactly when every finite rate is within its limit. |
| SafetyTheorems.SegmentClean | pycore/src/domain/safety/trajectory_validator.py:414-460 | No segment report exactly when every sample passes the workspace and singularity checks. |
| SafetyTheorems.WalkCalls | pycore/src/domain/safety/trajectory_validator.py:145-167 | With increasing times the calls made equal the plain sum of segment counts, whatever else is violated. |
| SafetyTheorems.PrefixIsSafe | pycore/src/domain/safety/trajectory_validator.py:169-223 | Every prefix of a safe trajectory is safe. |
| SafetyTheorems.SegmentVelocity | pycore/src/domain/safety/trajectory_validator.py:295-330 | On each segment, the first one from the measured state included, each joint respects its velocity limit; a first point at time zero may be off by the slack. |
| SafetyTheorems.VelocityTelescopes | pycore/src/domain/safety/trajectory_validator.py:295-330 | Between any two points the displacement of a joint is at most its velocity limit, slack included, times the elapsed time. |
| SafetyTheorems.VelocityFromMeasured | pycore/src/domain/safety/trajectory_validator.py:165-223 | From the measured state to any point the displacement of a joint is at most its velocity limit times the time, plus the slack when the first point is at time zero. |
| SafetyTheorems.SegmentIsCovered | pycore/src/domain/safety/trajectory_validator.py:414-460 | Every configuration on a segment of a safe trajectory, from the measured state on, lies within the resample step of a sample that passed the workspace and singularity checks. |
| Generator.PointToPointTrajectoryGenerator.Generate | pycore/src/runtime/trajectory.py:24-87 | Refuses exactly when for some joint the extremum 1.5 D / T or 6 D / T^2 exceeds its profile limit. Otherwise the points start at zero, end at the duration, come at least at the command rate with one interval less not sufficing, and lie with their rates on the cubic from start to target. |
| Generator.PacedByIntervals | pycore/src/runtime/trajectory.py:65-66 | The points come at least at the command rate, and no smaller number of intervals would do. |
| Generator.AllOnCubic | pycore/src/runtime/trajectory.py:67-83 | Point i of n lies at 3 x^2 - 2 x^3 of the way for x = i / n, with the first and second derivative by time as its rates. |
| Generator.RefusedForAJoint | pycore/src/runtime/trajectory.py:37-64 | The extremum of the largest displacement exceeds a limit exactly when that of some joint does. |
| GeneratorTheorems.GeneratedMotionIsSafe | pycore/src/runtime/trajectory.py:37-87 | If the endpoints lie in the margin box and the analytic extrema and largest step fit the policy, every point of the cubic passes every limit, step, velocity, acceleration and time check, for every interval count; the trajectory is safe if and only if the budgets and workspace checks hold as well. |
| GeneratorTheorems.GeneratedEndpoints | pycore/src/runtime/trajectory.py:67-83 | The cubic starts at the start at time zero and ends at the target at the duration, with zero velocities. |
| GeneratorTheorems.VelocitiesFit | pycore/src/runtime/trajectory.py:42-75 | Every finite-difference velocity is within the limit when 1.5 D / T is. |
| GeneratorTheorems.AccelerationsFit | pycore/src/runtime/trajectory.py:42-75 | Every finite-difference acceleration, the first one included, is within the limit when 6 D / T^2 is. |
| GeneratorTheorems.StepsFit | pycore/src/runtime/trajectory.py:65-75 | Every step is within the limit when 1.5 D / N is. |
| GeneratorTheorems.ProvidedRatesFit | pycore/src/runtime/trajectory.py:70-82 | The attached velocities and accelerations are within the limits. |
| GeneratorTheorems.PositionsFit | pycore/src/runtime/trajectory.py:69-72 | Every point stays between the endpoints, so inside their box. |
| GeneratorTheorems.ScalesAreDerivatives | pycore/src/runtime/trajectory.py:69-74 | The velocity and acceleration scales are the derivatives of the cubic: the remainder of the expansion at any two points is bounded by a higher power of their distance. |
| GeneratorTheorems.CubicSecondDifference | pycore/src/runtime/trajectory.py:69-71 | The second difference of the cubic on an even grid. |
| TwistTheorems.TwistsAdd | pycore/src/domain/kinematics/math3d.py:80-104 | exp(S a) exp(S b) = exp(S (a + b)) for every screw and all a and b. |
| TwistTheorems.TwistAtZero | pycore/src/domain/kinematics/math3d.py:80-104 | exp(S 0) is the identity. |
| TwistTheorems.RotationsAdd | pycore/src/domain/kinematics/math3d.py:65-77 | Rotations about one axis add their angles. |
| TwistTheorems.RotationExpIsRotation | pycore/src/domain/kinematics/math3d.py:65-77 | Rodrigues' formula gives an element of SO(3) for every axis and angle. |
| TwistTheorems.TwistIsRigid | pycore/src/domain/kinematics/math3d.py:80-104 | Every twist exponential is a rigid motion. |
| TwistTheorems.AdjointConjugates | pycore/src/domain/kinematics/math3d.py:107-116 | T exp(S a) = exp(Ad(T) S a) T for every rigid T: the adjoint carries a screw along. |
| TwistTheorems.CarriedScrew | pycore/src/domain/kinematics/math3d.py:107-116 | The 6x6 adjoint times a screw is the rotated axis and the rotated moment plus the moment through the new origin. |
| Twists.TurnTwice | pycore/src/domain/kinematics/math3d.py:65-104 | Polynomials in the skew matrix of a unit vector multiply by the rule that its cube is its negative. |
| Twists.UnitAxis | pycore/src/domain/kinematics/math3d.py:67-71 | Normalising an axis gives a unit vector, and normalising again changes nothing. |
| Geometry.RotationKeepsDot | pycore/src/domain/kinematics/math3d.py:65-77 | A rotation keeps inner products. |
| Geometry.RotationKeepsCross | pycore/src/domain/kinematics/math3d.py:107-116 | A rotation keeps cross products. |
| Geometry.ProductOfRotations | pycore/src/domain/kinematics/poe.py:287-294 | SO(3) is closed under products. |
| Geometry.ComposeAssociates | pycore/src/domain/kinematics/poe.py:287-294 | Composition of rigid transforms is associative. |
| UrdfChain.ParseJoint | pycore/src/domain/kinematics/poe.py:49-92 | Rejects exactly incomplete joints and revolute or prismatic ones without limits; otherwise name, kind and axis are those of the element, continuous joints have the limits plus and minus pi and fixed ones none, and the origin has the given translation and a rotation in SO(3). |
| UrdfChain.ParsedRotation | pycore/src/domain/kinematics/poe.py:49-92 | The rotation of the origin is that of the element's roll, pitch and yaw. |
| UrdfChain.RpyIsRotation | pycore/src/domain/kinematics/math3d.py:51-54 | Roll, pitch and yaw always give a rotation. |
| RotationConventions.TurnsAreRightHanded | pycore/src/domain/kinematics/math3d.py:65-77 | A turn about z takes x towards y, one about x takes y towards z, one about y takes z towards x, for every angle. |
| RotationConventions.AxisTurns | pycore/src/domain/kinematics/math3d.py:24-48 | The three axis rotations are Rodrigues' rotations about x, y and z. |
| RotationConventions.RpyIsThreeTurns | pycore/src/domain/kinematics/math3d.py:51-54 | Roll, pitch and yaw turn a vector about the fixed axes x, y and z, in this order. |
| RotationConventions.QuaternionTurns | pycore/src/domain/kinematics/math3d.py:119-150 | The quaternion (u sin(a/2), cos(a/2)) gives Rodrigues' rotation by a about u, for every unit axis and angle. |
| UrdfChain.ResolveChain | pycore/src/domain/kinematics/poe.py:168-186 | Finds the chain exactly when climbing from the end link reaches the base; a cycle error means that the climb never ends, a missing parent that it stops. |
| UrdfChain.LoopNeverArrives | pycore/src/domain/kinematics/poe.py:173-177 | A link met twice before the base means that the base is never reached. |
| Poe.FromUrdf | pycore/src/domain/kinematics/poe.py:151-257 | Succeeds exactly when the chain exists, all its joints are usable, and the actuated names are the expected six; then screws, limits and home transform are those of the chain; otherwise the first unusable joint decides the error. |
| Poe.PoeKinematics.FkMatrix | pycore/src/domain/kinematics/poe.py:287-294 | The loop computes the product of the six exponentials and the home transform, and refuses a wrong number of joints. |
| Poe.PoeKinematics.SpaceJacobian | pycore/src/domain/kinematics/poe.py:304-319 | Column j is screw j carried by the exponentials before it. |
| Poe.PoeKinematics.ComputeJacobian | pycore/src/domain/kinematics/poe.py:321-332 | Column j is the carried screw with the velocity of the end point. |
| PoeTheorems.PoeIsChain | pycore/src/domain/kinematics/poe.py:188-233 | For all joint values the exponentials of the space screws times the home transform equal the chain's own product of origins and joint motions. |
| PoeTheorems.ScrewIsCarried | pycore/src/domain/kinematics/poe.py:194-227 | The screw the builder computes is the joint's local screw carried by its frame. |
| PoeTheorems.FkIsRigid | pycore/src/domain/kinematics/poe.py:296-302 | Forward kinematics of a parsed chain is always in SE(3). |
| Matrices.RotationsPassTheGuard | pycore/src/domain/models.py:186-208 | A rigid transform passes the SE(3) guard, so the guard never rejects a computed pose. |
| PoeTheorems.FkAtZeroIsHome | pycore/src/domain/kinematics/poe.py:287-294 | At zero joint values the pose is the home transform. |
| PoeTheorems.RevoluteColumn | pycore/src/domain/kinematics/poe.py:200-206 | A revolute column is the carried axis and its cross product with the vector from the carried joint point to the end. |
| PoeTheorems.PrismaticColumn | pycore/src/domain/kinematics/poe.py:211-224 | A prismatic column is zero and the carried axis. |
| PoeTheorems.ColumnOfJoint | pycore/src/domain/kinematics/poe.py:304-332 | In the terms of the URDF: each column is the joint's axis in its present frame and its moment about the present end point, or the axis alone for a prismatic joint. |
| PoeTheorems.JointMotion | pycore/src/domain/kinematics/poe.py:304-319 | Moving one joint by any amount moves the end link by the exponential of its space Jacobian column, exactly and not only to first order. |
| PoeTheorems.ScrewsAreProper | pycore/src/domain/kinematics/poe.py:200-224 | Every screw of a built chain has an axis of full length or none. |
| Quaternions.QuaternionRoundTrip | pycore/src/domain/kinematics/math3d.py:119-203 | For every unit quaternion q, matrix and back is q or its opposite in all four branches. |
| Quaternions.ConversionNeverFails | pycore/src/domain/kinematics/math3d.py:173-203 | For every matrix the value under the root is at least one in the branch taken, so no root and no division fails. |
| Quaternions.RotationRoundTrip | pycore/src/domain/models.py:177-226 | For every rotation matrix, quaternion and back is the same matrix: storing a transform as translation and quaternion loses nothing. |
| Quaternions.QuaternionGivesRotation | pycore/src/domain/kinematics/math3d.py:119-150 | Refused exactly when the norm is too small; every other quaternion gives a rotation. |
| Quaternions.RotationIsRankOne | pycore/src/domain/kinematics/math3d.py:173-200 | The ten products read off a rotation matrix are those of one vector with itself. |
| Ik.Solve | pycore/src/domain/kinematics/solver.py:38-115 | A success is the first iterate within tolerance, whose distance and turn from the target are within the two tolerances, and carries that iterate's errors; a failure returns the iterate after the last one measured, with the errors of the one before; the joints stay in the box; forward kinematics runs once per iteration, at most max_iterations + 1 times; frame and length mismatches are refused. |
| Ik.ConvergedIsClose | pycore/src/domain/kinematics/solver.py:75-93 | An iterate counts as converged exactly when the squared components of its distance and of its turn add up to at most the squared tolerances. |
| Ik.StepMinimises | pycore/src/domain/kinematics/solver.py:94-102 | Of all joint steps d the computed one, and it alone, has the least |J d - e|^2 + damping^2 |d|^2, where e is written out as the three components of the turn and the three of the way to the target. |
| Ik.TurnIsTheError | pycore/src/domain/kinematics/solver.py:75-80 | A target away by a turn of an angle about a unit axis has that turn as its orientation error. |
| Ik.GantryApproaches | pycore/src/domain/kinematics/solver.py:94-106 | For a robot that slides along x, y and z one pass shrinks each component of the error by the same factor between zero and one, as long as no joint limit is in the way. |
| Ik.ReportedErrors | pycore/src/domain/kinematics/solver.py:72-115 | The run succeeds exactly when some iterate up to max_iterations is within tolerance; the reported errors are those of the returned joints exactly then, or when the last update did not change the errors. |
| Ik.StepIsUnique | pycore/src/domain/kinematics/solver.py:94-102 | Every solution of the damped system gives the same joint step. |
| Ik.DampingBoundsStep | pycore/src/domain/kinematics/solver.py:94-103 | For every Jacobian, however singular, the step is at most the length of the error vector divided by twice the damping. |
| Ik.IterateIsInBox | pycore/src/domain/kinematics/solver.py:65-67 | Every iterate stays in the joint box. |
| Ik.UpdateIsShort | pycore/src/domain/kinematics/solver.py:103-106 | Every update moves at most max_step_rad in Euclidean norm, clipping included. |
| Ik.BoundedDeltaIsShort | pycore/src/domain/kinematics/solver.py:103-105 | Scaling makes the step at most max_step_rad long. |
| Ik.FailureCanReportStaleErrors | pycore/src/domain/kinematics/solver.py:103-115 | A run whose every step solves the damped system can fail with a reported error of half a metre and return joints that are within tolerance. |
| DampedSystem.TrivialKernel | pycore/src/domain/kinematics/solver.py:95-102 | J J' + damping^2 I has trivial kernel for every Jacobian of any size and every positive damping. |
| DampedSystem.FormIsNonnegative | pycore/src/domain/kinematics/solver.py:96-98 | x' J J' x is never negative. |
| DampedSystem.SolutionIsUnique | pycore/src/domain/kinematics/solver.py:96-100 | The damped system has at most one solution, for every Jacobian of any size. |
| DampedSystem.StepIsBounded | pycore/src/domain/kinematics/solver.py:96-100 | 4 damping^2 |J' y|^2 <= |e|^2 for the solution y, for every Jacobian of any size. |
| DampedSystem.StepIsCheapest | pycore/src/domain/kinematics/solver.py:95-102 | For every Jacobian of any size the step of a solution minimises the damped least squares, and is the only one that does. |
| DampedSystem.CostSplits | pycore/src/domain/kinematics/solver.py:95-102 | Any other step costs more by exactly the damped squares of the difference. |
| DampedSystem.Adjoint | pycore/src/domain/kinematics/solver.py:95-102 | y'(J h) = (J'y)'h for every Jacobian of any size. |
| RotationLog.LogInverts | pycore/src/domain/kinematics/math3d.py:206-233 | For every unit axis and every angle from 1e-9 to pi - 1e-6 the logarithm of Rodrigues' rotation is the angle times the axis. |
| RotationLog.LogOfHalfTurn | pycore/src/domain/kinematics/math3d.py:213-224 | At half a turn the signs of the axis are lost: the logarithm is pi times the axis of absolute values. |
| RotationLog.HalfTurnIsInvertedExactly | pycore/src/domain/kinematics/math3d.py:213-224 | That axis gives the same rotation if and only if no two components of the true one have opposite signs. |
| RotationLog.NearHalfTurnIsApproximate | pycore/src/domain/kinematics/math3d.py:213-224 | Within 1e-6 below half a turn the logarithm is exact if and only if all three components of the axis have the same magnitude. |
| RotationLog.SmallAngleIsDropped | pycore/src/domain/kinematics/math3d.py:211-212 | An angle below 1e-9 counts as no rotation. |
| FrameGraph.CycleFinder.Search | tools/model/inspect_model.py:104-122 | No cycle is reported if and only if no directed cycle is reachable from the listed links, and every reported path without its repeated last entry is a reachable closed walk. |
| FrameGraph.CycleFinder.Visit | tools/model/inspect_model.py:108-119 | The recursion ends; the active set is restored; without a report the visited links stay in an order in which children come first. |
| FrameGraph.FinishedIsAcyclic | tools/model/inspect_model.py:104-122 | A finishing order that holds all listed links leaves no reachable cycle. |
| FrameGraph.CycleFound | tools/model/inspect_model.py:109-112 | A link met again on its own path closes a reachable directed cycle. |
| FrameComponents.Components | tools/model/inspect_model.py:124-137 | The components are the undirected connectivity classes of the listed links, each sorted, covering all links, in the order of their least members. |
| FrameComponents.SameComponent | tools/model/inspect_model.py:124-137 | Two listed links are in the same component if and only if joints through listed links join them. |
| FrameComponents.OneComponent | tools/model/inspect_model.py:146 | One component exactly when there are links and all of them are joined. |
| FrameComponents.Explore | tools/model/inspect_model.py:126-137 | One breadth-first round takes out exactly the class of the least remaining link. |
| ZeroPose.ZeroPose | tools/model/inspect_model.py:151-190 | Resolved exactly when joints lead down from the base to the end, with the product of the origins on the first such descent: no descent is shorter, and none of its length stands earlier in the order of the joints. |
| ZeroPose.DerivedIsUnique | tools/model/inspect_model.py:165-190 | That matrix is determined by the model, with any number of parents per link. |
| Descents.FirstFound | tools/model/inspect_model.py:167-175 | When the queue is empty every descent leads to a known link and is not before the descent found to it. |
| Descents.ChildFound | tools/model/inspect_model.py:168-175 | Adding the child of the next joint keeps the order of the queue and of the descents found. |
| Descents.EdgesInOrder | tools/model/inspect_model.py:151-164 | The joints below a link are taken in the order in which they first stand in the model. |
| Descents.FirstIsUnique | tools/model/inspect_model.py:165-175 | There is at most one first descent. |
| ZeroPose.ZeroPoseIsHome | tools/model/inspect_model.py:165-190 | With at most one parent joint per link the inspector resolves the end frame exactly when the kinematics find their chain, and its matrix is the home transform. |
| ZeroPose.OriginsAgree | tools/model/inspect_model.py:61-84 | The closed-form origin matrix is Rz Ry Rx with the translation. |
| ZeroPose.DescentIsClimb | pycore/src/domain/kinematics/poe.py:168-194 | A descent from the base is the climb from the end read backwards, with the same product. |
| Matrices.MultiplyIsCompose | tools/model/inspect_model.py:51-58 | The four-index product of homogeneous matrices is composition of rigid transforms. |
| Coordinator.TrajectoryActionCoordinator.GoalCallback | ros2/src/myarm_m750_driver/myarm_m750_driver/action_coordinator.py:72-116 | Accepts exactly when commands are enabled, the driver is active with a facade, nothing is reserved and the request converts; a rejection changes nothing. |
| Coordinator.TrajectoryActionCoordinator.ExecuteCallback | ros2/src/myarm_m750_driver/myarm_m750_driver/action_coordinator.py:125-242 | Exactly one terminal call for the goal, the one that is returned, and then its release. The goal succeeds if and only if the run succeeded, all its own and late samples were on their paths, the reads were off the goal up to the last one and that one within tolerance, and no cancel was requested; it is aborted as invalid if and only if its metadata was missing, the driver lapsed before the start, the run failed, or a facade call raised or was refused; each other end has its cause in the facade's answers, the samples and the cancel flag. A goal whose run succeeds on its path with the driver active, no cancel and a first read within tolerance always succeeds. If no run left behind has both a sample left and a finite tolerance, only a sample of the goal itself can cause a path violation. |
| Coordinator.TrajectoryActionCoordinator.RunGoal | ros2/src/myarm_m750_driver/myarm_m750_driver/action_coordinator.py:146-231 | The same for the try body: the course the goal took is tied to the answers of the facade in the order of the calls, to its reads, to the samples and to the cancel flag, and terminal call and code are the ones of that course, both ways. A path violation is reported only after an accepted cancel or stop, unless the run was canceled. A goal that reaches the path check leaves no run behind. |
| Coordinator.CalmGoalSucceeds | ros2/src/myarm_m750_driver/myarm_m750_driver/action_coordinator.py:146-230 | Of all the courses only success is open to a goal without a cancel, with an active driver, samples on their paths, a successful run and a first read within tolerance; it is then read once. |
| Coordinator.TrajectoryActionCoordinator.CancelIfCalledFor | ros2/src/myarm_m750_driver/myarm_m750_driver/action_coordinator.py:297-318 | A cancel call is made exactly when none was accepted yet and a cancel was requested, a violation is known or the driver is inactive; every call before the last one found no active command. |
| Coordinator.TrajectoryActionCoordinator.Settle | ros2/src/myarm_m750_driver/myarm_m750_driver/action_coordinator.py:195-230 | What follows a successful run on its path: each of the six ends with the reads, the stop call and the cancel flag it rests on. |
| Coordinator.TrajectoryActionCoordinator.WaitForCoreResult | ros2/src/myarm_m750_driver/myarm_m750_driver/action_coordinator.py:289-327 | The reply is the one to this goal's submission. Calls are made only if something calls for them, all but the last one are cancels that found no active command, and when an uncanceled run ends with a cancel requested or a violation known, the last call was accepted; an exception means that the run raised or the last call was refused. A path violation is known exactly when a sample of this goal was off its path or a late one off the path of its own goal; with an answer no run is left behind, and with none left behind before, an exception leaves at most this goal's. |
| Coordinator.TrajectoryActionCoordinator.LateSample | ros2/src/myarm_m750_driver/myarm_m750_driver/action_coordinator.py:256-273 | A sample of an earlier goal writes the violation of the present one exactly when it is off the path of its own goal, and uses up one of the samples that run has left. |
| Coordinator.TrajectoryActionCoordinator.CancelCore | ros2/src/myarm_m750_driver/myarm_m750_driver/action_coordinator.py:303-318 | Sent exactly when the call was accepted, which bumps the run in the worker; pending exactly without an active command; anything else leaves the goal's run behind, with one sample at most if the call was answered and it was the one running, and with no bound if the call raised. |
| Coordinator.TrajectoryActionCoordinator.Harm | ros2/src/myarm_m750_driver/myarm_m750_driver/action_coordinator.py:256-273 | From every state with a goal reserved, any run left behind with a sample left and off its path brings a path violation by steps of the worker alone, without a sample of the goal: the converse of the condition in ExecuteCallback. |
| Coordinator.HarmfulRun | ros2/src/myarm_m750_driver/myarm_m750_driver/trajectory_converter.py:149-165 | A run left behind can deliver a sample off its path if and only if one has a sample left and a finite tolerance. |
| Coordinator.AnotherGoalsViolation | ros2/src/myarm_m750_driver/myarm_m750_driver/action_coordinator.py:232-242 | For any two goals, a sample off the path of the first and a facade that refuses the first cancel call, the steps submit, cancel, abort, release, recover, accept, late sample leave the second goal with a path violation and no sample of its own. |
| Coordinator.TrajectoryActionCoordinator.WaitForGoalTolerance | ros2/src/myarm_m750_driver/myarm_m750_driver/action_coordinator.py:345-370 | Met: the last read is within the goal tolerance and none before it was; missed: no read was, and the settling time is over; canceled: a cancel was requested and one stop call accepted; raised: that stop was refused, or the last read raised. |
| Coordinator.TrajectoryActionCoordinator.WaitForStart | ros2/src/myarm_m750_driver/myarm_m750_driver/action_coordinator.py:329-343 | Starts no earlier than the requested time and only without a cancel; gives up only for a cancel, or before that time when the driver left ACTIVE. |
| Coordinator.TrajectoryActionCoordinator.ProgressCallback | ros2/src/myarm_m750_driver/myarm_m750_driver/action_coordinator.py:256-273 | A sample off the path is remembered, and only such a sample changes the violation. |
| Coordinator.NothingViolated | ros2/src/myarm_m750_driver/myarm_m750_driver/trajectory_converter.py:149-165 | No joint is named exactly when every joint with a finite tolerance is within it. |
| Coordinator.ReleaseKeeps | ros2/src/myarm_m750_driver/myarm_m750_driver/action_coordinator.py:389-393 | Releasing keeps the log in which at no point more than one goal was outstanding. |
| NetworkMetrics.Aggregator.Observe | ros2/src/myarm_m750_visualization/myarm_m750_visualization/network_metrics.py:62-91 | After every observation each field is the fold over the whole history and the windows hold its last entries; a negative size is refused and changes nothing. |
| NetworkMetrics.Aggregator.TakeSnapshot | ros2/src/myarm_m750_visualization/myarm_m750_visualization/network_metrics.py:93-148 | The reconnect maximum never exceeds the gap maximum, discovery, silence, staleness and ages are as specified over the history, the rate times the window is the messages after its first, the bandwidth times the run is all bits, and the percentiles are the interpolated ones with p50 <= p95 <= p99. |
| NetworkMetrics.PercentileMonotone | ros2/src/myarm_m750_visualization/myarm_m750_visualization/network_metrics.py:151-166 | For any window percentiles are ordered as the percentages are and lie between the least and greatest value. |
| NetworkMetrics.PercentileInterpolates | ros2/src/myarm_m750_visualization/myarm_m750_visualization/network_metrics.py:151-166 | Over any ascending arrangement of the values, the percentile at (i + f) / (n - 1) of a hundred lies at the share f from value i to the next. |
| NetworkMetrics.MedianOfTwo | ros2/src/myarm_m750_visualization/myarm_m750_visualization/network_metrics.py:151-166 | The median of two values is their mean. |
| NetworkMetrics.LargestGapMeans | ros2/src/myarm_m750_visualization/myarm_m750_visualization/network_metrics.py:74-81 | The gap maximum bounds every silence between messages and is one of them, or zero. |
| NetworkMetrics.CountMeans | ros2/src/myarm_m750_visualization/myarm_m750_visualization/network_metrics.py:76-78 | The reconnect count is the number of silences above the limit. |
| NetworkMetrics.LargestReconnectMeans | ros2/src/myarm_m750_visualization/myarm_m750_visualization/network_metrics.py:77-81 | The reconnect maximum bounds the silences above the limit and is one of them, or zero. |
| NetworkMetrics.RankMonotone | ros2/src/myarm_m750_visualization/myarm_m750_visualization/network_metrics.py:157-166 | Interpolation is monotone in the rank. |
| NetworkMetrics.ReconnectIsAGap | ros2/src/myarm_m750_visualization/myarm_m750_visualization/network_metrics.py:74-81 | The reconnect maximum is at most the gap maximum and zero exactly when nothing was counted. |
| NetworkMetrics.SortedPermutes | ros2/src/myarm_m750_visualization/myarm_m750_visualization/network_metrics.py:154 | Sorting keeps the values. |
| NetworkMetrics.PushKeepsLast | ros2/src/myarm_m750_visualization/myarm_m750_visualization/network_metrics.py:49-53 | A bounded window after an append holds the last entries of the whole sequence. |
| Camera.CameraWorker.Publish | pycore/src/application/camera_pipeline.py:153-161 | Publishing keeps the conservation law and appends the frame. |
| Camera.CameraWorker.TakeLatest | pycore/src/application/camera_pipeline.py:81-87 | Returns the latest frame exactly when it is newer than the one asked for, marks it read, and keeps the conservation law. |
| Camera.PublishStep | pycore/src/application/camera_pipeline.py:153-161 | Captured frames = overflows + distinct frames read + one if the latest is unread, kept by publishing. |
| Camera.TakeStep | pycore/src/application/camera_pipeline.py:81-87 | The same conservation law, kept by reading. |
| Camera.CameraWorker.Run | pycore/src/application/camera_pipeline.py:163-209 | The wait after the k-th failure since the last frame is min(maximum, initial * multiplier^(k-1)); FAULT comes exactly at the first failure that is maximum_attempts + 1 in a row; every frame is published in order; every failure is counted, that of the session which a stop request ends included. |
| Camera.BackoffGrows | pycore/src/application/camera_pipeline.py:202-208 | The backoff update follows the capped exponential for every policy the configuration accepts. |

## Left out

* Floating-point rounding, NaN and infinity: the bound on kinematics calls is stated for finite positions.
* Waypoint, overrun, stale-state, jitter and latency metrics of the executor: counters without influence on the protocol.
* Message texts and error codes, except where they decide a branch.
* The bounded stop's own context and clock reads are taken not to raise.
* `CameraWorker.latest_frame`: the locked success branch is modelled; the waiting around it, its timeout and the closed-state error are not.
* `CameraWorker.start` and `close`: thread start and join.
* The vendor adapter, OpenCV, Pinocchio and pytransform3d: hardware is a port that may succeed, fail or raise.
* `np.linalg.solve` is known by the equation its result satisfies; the `LinAlgError` branch with `pinv` is not reached, since the system is proved non-singular. `svd` and the singularity score are parameters.
* `RobotSession` beyond its lifecycle lock: its own connected flag, the readiness checks and the vendor probe.
* XML and attribute parsing: a joint element comes with its attributes read.
* `move_pose`: the inverse kinematics and the guarded path it chains are modelled one by one.
* Goal conversion, YAML loaders, manifests, fingerprints, ROS nodes, launch files and lifecycle services.
* A terminal call on a goal handle is taken not to raise.
* In `inspect_model.py` the mesh reports and the sorted root and missing-link lists: one set expression each.
* Link names of the frame graph are numbers that stand for their place in the sorted order of names.
