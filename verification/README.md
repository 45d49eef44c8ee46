# A verified model of an EDM machine controller

The repository controls a spark-erosion machine: a motion thread executes feed, lift and drill tasks
cycle by cycle, an interpreter works through a G-code program by commanding and observing that
thread, and coordinate, limit, queue and drive code sits around the two. This project models the
state machines and the geometry they have to respect, over real-valued six-axis positions, and proves
what every run of them keeps.

## How it is built

Each stateful part appears twice. A specification machine (`G01Machine`, `Motion`, `RunnerMachine`,
`DrillMachine`, ...) is a datatype with one function per call and per cycle; whole runs are sequences
of events, and the results about runs are lemmas. A class in the form of the original (`G01AutoTask`,
`GCodeRunner`, `DrillAutoTask`, `CoordinateSystem`, `ServoDevice`, ...) has the original's fields and
methods, and each of its methods is proved to change the state exactly as the machine says.

| file | content |
|---|---|
| `Common`, `Axes`, `SoftLimit`, `MoveTargets` | vectors and lengths, limits, targets of G00, G01 and jogs |
| `PointMove`, `Trajectory` | point moves on top of the speed planner, the linear segment |
| `G01Machine`, `G01AutoTask`, `G01Properties`, `G01Completion`, `G01Safety` | the servo/jump task, its class, its runs, its end, its soft limits |
| `PauseMove`, `Motion`, `Jogs` | jogging during a pause and the way back, the task runner, the main mode, jogs |
| `GCodeProgram`, `RunnerMachine`, `GCodeRunner`, `RunnerProperties` | the interpreter, its class, its invariant |
| `Protocol`, `Liveness`, `RememberedPause`, `Completion` | the two-party protocol, what arrives, and programs that get on |
| `ProtocolSafety`, `ProgramSafety` | soft limits of the protocol and of whole programs |
| `G01Group` | polylines as increments |
| `DrillMachine`, `DrillAutoTask`, `DrillProperties`, `DrillCompletion`, `DrillLimits` | the drilling task, its class, its runs, its end, its limit |
| `CommandQueue`, `ServoCycle` | the command queue's threads; the drives |
| `Coordinates`, `CoordinateJson` | frames, caches, persistence |

## Main results

* Interpreter and motion side agree. For every program and every interleaving of user commands,
  polls, cycles and jogs, no waiting state of the interpreter gives the run up on any node but a rapid
  move, and a paused interpreter has a paused task below it.
* A node the interpreter accepts keeps every commanded position inside the soft limits, and every jump
  turns at least 100 um short of the first limit; also over every run of the whole protocol, and a
  program without jogs and groups that begins inside commands nothing outside at all.
* From the cycle that completes a pause to the cycle that resumes the task, through any jogs, the task
  is untouched and goes on at exactly the position commanded when it was paused.
* Accepted pauses, stops and resumes arrive after finitely many cycles, through task, runner and
  interpreter, on every kind of motion node and also while jogs are retraced; and a pause that was
  refused takes effect.
* What has happened to a program is always its nodes 0, 1, 2, ... in this order, each once, up to the
  current one; only motion nodes with nothing to do are skipped, and the first M02 is never passed.
* A program that nobody disturbs is worked off to its first M02: every motion node comes to its end,
  a rapid move on exactly its target and a line at its end, and a poll gives up iff there is one of the
  stated causes. Every drilling job comes to its end too, with a return on exactly its return point.
* The breakout hold of the drill, over every run, ends at exactly the first unpaused cycle whose clock
  exceeds the 32-bit sum of its beginning and the waiting time.

## What turned out not to hold

Each of these is in the model as the code does it, with the exact condition or a concrete run.

* Discharge power stays on after a G01 line that ended by itself after a completed pause and resume
  (`G01Properties.DischargePower`, `G01Properties.PowerLeftOn`).
* With a jump interval of 0 ms a G01 task only jumps and is never fed
  (`G01Completion.NoIntervalNoFeed`); a line ends if cycles come within the interval of each other
  (`G01Completion.LineCompletes`).
* Contact while a rapid move brakes for a pause makes the interpreter give up
  (`Protocol.ContactWhilePausingGivesUp`, `Protocol.ContactWhilePausingHappens`).
* A pause between start and the first poll is refused and not remembered
  (`Protocol.RefusedPauseIsRemembered`, `Protocol.ForgottenPause`).
* A program of drill commands only converts, in the build without a drill, to an empty list, whose
  last element the runner then reads (`GCodeProgram.ConvertedPrograms`,
  `GCodeProgram.CheckListAtFirst`). What follows is undefined; the model gives the run up with a reason
  of its own.
* Points of a G01 group closer than the dead band are sent as segments of no length
  (`G01Group.ZeroItems`, `G01Group.ZeroItemHappens`), and an accepted group can end beyond a limit: the
  position reached is the intended one minus the increments lost in the dead band
  (`G01Group.ReachedExactly`, `G01Group.ReachedBeyondLimit`).
* The breakout hold ends at its first cycle on a clock beyond 32 bits (`DrillProperties.HoldEndsExactly`,
  `DrillProperties.HoldSkippedHappens`); the slow-down is void in the cycle that detects the breakout
  (`DrillProperties.SlowDownExact`, `DrillProperties.UnslowedFeedHappens`).
* The limit check of a drill node compares a motor position with a machine limit: it protects every
  job without touching iff the global offset of the axis is not positive
  (`DrillLimits.AcceptedJobsAboveIff`, `DrillLimits.AcceptedJobBelowLimit`). A touch job may drill below
  the limit even without an offset, and touching itself knows no limit
  (`DrillLimits.TouchRunBelowLimit`, `DrillLimits.TouchingPassesEveryLimit`).
* The queue's destructor can wait for ever (`CommandQueue.ShutdownEnds`, `CommandQueue.LostWakeUp`).
* A fault that survives its reset edge is never reset again (`ServoCycle.FaultStaysForever`).
* The cached work coordinate is stale after an offset change (`Coordinates.WorkCacheRight`,
  `Coordinates.StaleWorkCache`); the G-code zero gives minus the global offset
  (`Coordinates.GCodeSetZero`, `Coordinates.ZeroingAgrees`); the default limits pin all axes but the
  first to zero (`Coordinates.DefaultLimitsPinAxes`).

## Assumptions

* Reals instead of floating point; one blu is one um. The square root is a parameter trusted for
  `sqrt(x)^2 == x` on non-negative `x`.
* The speed planner answers with any number of cycles and any progress, but a plan has at least one
  cycle, never moves back or past its end, and its last cycle is corrected to the exact end, as
  Src/Motion/Moveruntime/Moveruntime.cpp:626-632 does. Planning a positive length succeeds.
* Public calls, polls and cycles are atomic, a motion command is answered at once, and what a poll
  observes is the present state: the motion thread copies its state after handling a command and
  before answering (Src/Motion/MotionThread/MotionThreadController.cpp:1123-1134).
* Jump buffers are not negative (App/SharedCoreData/Power/PowerManager.cpp:116-118); the clock of a
  G01 task does not run backwards (asserted at Src/Motion/MotionStateMachine/G01AutoTask.cpp:557).
* The drill's touch return and allowed move after breakout are not negative, and breakout drilling
  starts with touching: without it the detection fields are never initialised.

## Model

| member | source | states |
|---|---|---|
| `Axes.CalcAxisLength` | Src/Motion/MotionUtils/MotionUtils.h:23-30 | the result is the length: non-negative, its square the sum of squares |
| `Axes.UnitVectorIsUnit` | Src/Motion/MotionUtils/MotionUtils.h:50-68 | the direction between different points has length one, and following it for the distance ends on the second point |
| `Axes.AlongUnit` | Src/Motion/MotionUtils/MotionUtils.h:33-68 | length and direction recomputed from two points of a line are the ones the line was built with |
| `SoftLimit.CheckPosandnegSoftLimit` | App/TaskManager/TaskHelper.h:43-61 | passes iff no axis is beyond the limit it moves towards |
| `SoftLimit.GetMaxLengthOnCurrentDir` | App/TaskManager/TaskHelper.h:79-117 | from inside the limits, a point of the ray is inside iff it is no farther than the result |
| `SoftLimit.InsideBetween` | App/TaskManager/TaskHelper.h:79-117 | the limits are convex along every line |
| `MoveTargets.MachineTarget` | App/TaskManager/GCodeRunner.cpp:603-652 | G91: the way on each named axis is the value; G90: target minus work offset is the value; other axes stay |
| `MoveTargets.TargetMeaning` | App/TaskManager/GCodeRunner.cpp:603-652 | in the work coordinates of the node's system the target is the commanded value on named axes and the start on the others; in G91 the value is the way to go |
| `MoveTargets.TouchLength` | App/TaskManager/GCodeRunner.cpp:678-720 | exactly how far the ray stays inside; zero iff an axis of the move is at or beyond its limit |
| `MoveTargets.PrepareG00` | App/TaskManager/GCodeRunner.cpp:581-756 | skipped, refused or sent iff the stated end-point conditions; a clamped touch target is the last inside point of the ray, strictly before the requested one |
| `MoveTargets.CheckOnEndPoints` | App/TaskManager/TaskHelper.h:43-61 | the check on target and direction depends on the two end points only, and decides whether the target is inside |
| `MoveTargets.PrepareG01` | App/TaskManager/GCodeRunner.cpp:759-875 | a sent target is the requested one and inside; the headroom is exactly how far the line may be followed backwards |
| `MoveTargets.JogTarget` | App/MovePanel/MovePanel.cpp:442-528 | refused iff an axis has nothing left; otherwise ends inside with an axis exactly on its limit, and in the finest mode less than 1 um beyond |
| `PointMove.Start` | Src/Motion/MoveruntimeWrapper/MoveruntimeWrapper.cpp:42-69 | a started move is sound |
| `PointMove.Run` | Src/Motion/MoveruntimeWrapper/MoveruntimeWrapper.cpp:329-372 | a cycle keeps soundness and never moves back |
| `PointMove.Pause` | Src/Motion/MoveruntimeWrapper/MoveruntimeWrapper.cpp:71-134 | braking keeps soundness and moves nothing by itself |
| `PointMove.Resume` | Src/Motion/MoveruntimeWrapper/MoveruntimeWrapper.cpp:136-175 | resuming keeps soundness and position |
| `PointMove.Stop` | Src/Motion/MoveruntimeWrapper/MoveruntimeWrapper.cpp:177-256 | stopping keeps soundness and position |
| `PointMove.BrakesAndResumes` | Src/Motion/MoveruntimeWrapper/MoveruntimeWrapper.cpp:71-256 | pause and stop brake over the braking distance cut at the end, or halt at once; resume drives on to the end |
| `PointMove.HaltsAtGoal` | Src/Motion/MoveruntimeWrapper/MoveruntimeWrapper.cpp:329-372 | braking takes exactly its planned cycles and ends on exactly its goal |
| `PointMove.ReachesTargetExactly` | Src/Motion/Moveruntime/Moveruntime.cpp:558-645 | whatever the profile, an undisturbed move ends after exactly its planned cycles, on exactly its length |
| `PointMove.PositionAtEnds` | Src/Motion/PointMoveHandler/PointMoveHandler.cpp:14-73 | the position is the start before the move and the target when all is gone |
| `Trajectory.LinearSegment.constructor` | Src/Motion/Trajectory/TrajectorySegement.h:58-63 | a new segment stands on its start, with true length and direction |
| `Trajectory.LinearSegment.SetCurrLength` | Src/Motion/Trajectory/TrajectorySegement.cpp:31-52 | length clamped to the segment, position on it |
| `Trajectory.LinearSegment.RunOnce` | Src/Motion/Trajectory/TrajectorySegement.cpp:25-42 | moves by the increment, clamped |
| `Trajectory.PlanAlong` | Src/Motion/MotionStateMachine/G01AutoTask.cpp:433-449 | a point move along the line has exactly the planned length and plus or minus the line's direction |
| `G01AutoTask.G01AutoTask.constructor` | Src/Motion/MotionStateMachine/G01AutoTask.cpp:20-52 | the task starts at the start of its line, with voltage gate and power on |
| `G01AutoTask.G01AutoTask.PauseTask` | Src/Motion/MotionStateMachine/G01AutoTask.cpp:54-70 | the machine's pause, with its answer |
| `G01AutoTask.G01AutoTask.ResumeTask` | Src/Motion/MotionStateMachine/G01AutoTask.cpp:72-88 | the machine's resume, with its answer |
| `G01AutoTask.G01AutoTask.StopTask` | Src/Motion/MotionStateMachine/G01AutoTask.cpp:90-119 | the machine's stop, with its answer |
| `G01AutoTask.G01AutoTask.RunOnce` | Src/Motion/MotionStateMachine/G01AutoTask.cpp:137-160 | one cycle over six axes does along the line what the machine does, and the command position is on the line |
| `G01AutoTask.G01AutoTask.StateNormalRunning` | Src/Motion/MotionStateMachine/G01AutoTask.cpp:246-264 | the normal cycle: jump, or feed and perhaps end |
| `G01AutoTask.G01AutoTask.ServoingCheckAndPlanJump` | Src/Motion/MotionStateMachine/G01AutoTask.cpp:547-598 | when a jump begins, and what it leaves unchanged |
| `G01AutoTask.G01AutoTask.PlanJumpUp` | Src/Motion/MotionStateMachine/G01AutoTask.cpp:689-714 | the turning point lies the validated height behind the present point, the move points exactly against the feed |
| `G01AutoTask.G01AutoTask.CheckAndValidateJumpHeight` | Src/Motion/MotionStateMachine/G01AutoTask.cpp:716-748 | the validated height and buffer, and whether a jump is allowed |
| `G01AutoTask.G01AutoTask.ServoingDoServothings` | Src/Motion/MotionStateMachine/G01AutoTask.cpp:600-687 | feed clamped to the line; may end iff feeding forward reaches the end |
| `G01AutoTask.G01AutoTask.JumpUpingOnce` | Src/Motion/MotionStateMachine/G01AutoTask.cpp:415-464 | a cycle of the lift, and the hand-over to the way down |
| `G01AutoTask.G01AutoTask.JumpDowningOnce` | Src/Motion/MotionStateMachine/G01AutoTask.cpp:466-496 | a cycle of the way down, and the hand-over to the buffer |
| `G01AutoTask.G01AutoTask.JumpDowningBufferOnce` | Src/Motion/MotionStateMachine/G01AutoTask.cpp:498-545 | a cycle of the servo-controlled buffer |
| `G01AutoTask.G01AutoTask.StatePausingOrStopping` | Src/Motion/MotionStateMachine/G01AutoTask.cpp:312-399 | finish the jump, power off, retreat or stop |
| `G01Machine.ValidatedBounds` | Src/Motion/MotionStateMachine/G01AutoTask.cpp:716-748 | an allowed jump keeps 100 um to the free length and 10 um between height and buffer, and never grows a setting |
| `G01Machine.TickInv` | Src/Motion/MotionStateMachine/G01AutoTask.cpp:137-545 | every cycle keeps the reachable-state invariant of position, substates, gate and power |
| `G01Machine.ExecInv` | Src/Motion/MotionStateMachine/G01AutoTask.cpp:54-545 | so does every run of cycles and commands |
| `G01Properties.CommandsAnswer` | Src/Motion/MotionStateMachine/G01AutoTask.cpp:54-119 | when pause, resume and stop are accepted, and what they lead to; nothing moves |
| `G01Properties.EveryRunSafe` | Src/Motion/MotionStateMachine/G01AutoTask.cpp:415-545 | the commanded position stays between the deepest allowed retreat and the end of the line; jumps never go deeper than they began |
| `G01Properties.HandOver` | Src/Motion/MotionStateMachine/G01AutoTask.cpp:415-545 | each change of servo substate takes over at exactly the commanded position; turning point and buffer start are the planned ones |
| `G01Properties.JumpStaysPlanned` | Src/Motion/MotionStateMachine/G01AutoTask.cpp:415-545 | while a jump lasts, whatever is commanded, its plan is fixed and the position stays within it |
| `G01Properties.JumpBeginsIff` | Src/Motion/MotionStateMachine/G01AutoTask.cpp:547-598 | a jump begins iff the interval is over and it is allowed, with exactly the height and buffer set and cut |
| `G01Properties.IntervalRestarts` | Src/Motion/MotionStateMachine/G01AutoTask.cpp:274-300 | the interval is restarted iff a jump ends, a resume is carried out, or a normal cycle finds it over |
| `G01Properties.JumpBecomesDue` | Src/Motion/MotionStateMachine/G01AutoTask.cpp:556-564 | a feeding task begins a jump at exactly the first cycle at which the interval is over, if allowed |
| `G01Properties.FeedExact` | Src/Motion/MotionStateMachine/G01AutoTask.cpp:600-687 | a cycle without a jump feeds by exactly the servo command, cut at the ends; the line ends iff a forward command reaches its end |
| `G01Properties.BufferExact` | Src/Motion/MotionStateMachine/G01AutoTask.cpp:498-545 | the buffer is fed by the servo command up to where the jump began, or ends where it stands |
| `G01Properties.JumpsKeepInterval` | Src/Motion/MotionStateMachine/G01AutoTask.cpp:556-564 | over every run, jumps are more than the set interval apart |
| `G01Properties.AssertionsHold` | Src/Motion/MotionStateMachine/G01AutoTask.cpp:274-464 | the three assertions hold in every reachable state; the gate is off iff lifting; paused, resuming and stopped are out of every jump |
| `G01Properties.StoppedIsFinal` | Src/Motion/MotionStateMachine/G01AutoTask.cpp:308-310 | nothing changes a stopped task |
| `G01Properties.DischargePower` | Src/Motion/MotionStateMachine/G01AutoTask.cpp:274-411 | paused: power off; stopped: power on iff the line ended by itself after a completed pause and resume |
| `G01Properties.RetreatExact` | Src/Motion/MotionStateMachine/G01AutoTask.cpp:351-399 | each cycle of the retreat goes back by the set step or what is left of 0.1 mm, not behind the start; when it is the last |
| `G01Properties.PowerLeftOn` | Src/Motion/MotionStateMachine/G01AutoTask.cpp:401-413 | a run that ends with the power on |
| `G01Properties.RetreatCompletes` | Src/Motion/MotionStateMachine/G01AutoTask.cpp:351-399 | the retreat ends after finitely many cycles and goes back exactly 0.1 mm, or to the start |
| `G01Properties.PauseCompletes` | Src/Motion/MotionStateMachine/G01AutoTask.cpp:312-399 | from any point of a jump, an accepted pause is completed under a decreasing measure, power off |
| `G01Properties.StopCompletes` | Src/Motion/MotionStateMachine/G01AutoTask.cpp:304-349 | from any point of a jump, a stopping task is stopped after finitely many cycles |
| `G01Completion.LineCompletes` | Src/Motion/MotionStateMachine/G01AutoTask.cpp:246-545 | a fed line, jumps and all, is stopped at exactly its end after finitely many cycles |
| `G01Completion.NoIntervalNoFeed` | Src/Motion/MotionStateMachine/G01AutoTask.cpp:556-564 | with no interval the task jumps for ever and machines nothing |
| `G01Safety.LineInside` | App/TaskManager/GCodeRunner.cpp:838-862 | a point of the line or its backward extension is inside iff it is within the headroom |
| `G01Safety.EveryRunWithinLimits` | Src/Motion/MotionStateMachine/G01AutoTask.cpp:689-748 | for every accepted node and every run all commanded machine positions are inside, and jumps turn 100 um short of the limit |
| `G01Safety.RunNode` | Src/Motion/MotionStateMachine/MotionStateMachine.cpp:295-322 | the same for the objects: sent iff the target is new and inside; what is observed after each event is where the machine puts the task on the accepted line, inside with 100 um behind every turning point |
| `PauseMove.RunOnceInv` | Src/Motion/PauseMoveController/PauseMoveController.cpp:174-305 | the recorded legs form a chain from the pause point to the present one, in every state |
| `PauseMove.ActivateInv` | Src/Motion/PauseMoveController/PauseMoveController.cpp:133-172 | recovery starts except during a jog, back along the last leg |
| `PauseMove.RecoveryReturns` | Src/Motion/PauseMoveController/PauseMoveController.cpp:253-281 | an undisturbed recovery ends after finitely many cycles exactly on the pause point |
| `Motion.RunTaskKeeps` | Src/Motion/MotionStateMachine/G00AutoTask.cpp:20-42 | how a cycle may change what a task reports; only contact during G00 leaves the expected path |
| `Motion.PauseKeeps` | Src/Motion/MotionStateMachine/MotionAutoTaskRunner.cpp:88-137 | an accepted pause is under way or complete, moves nothing, and keeps the invariant |
| `Motion.ResumeKeeps` | Src/Motion/MotionStateMachine/MotionAutoTaskRunner.cpp:139-191 | a paused task is resumed iff no jog is running |
| `Motion.StopKeeps` | Src/Motion/MotionStateMachine/MotionAutoTaskRunner.cpp:193-247 | stopping is accepted iff the main mode is automatic |
| `Motion.JogKeeps` | Src/Motion/MotionStateMachine/MotionStateMachine.cpp:220-267 | jogs keep the invariant and the automatic state |
| `Jogs.JogAcceptedIff` | Src/Motion/MotionStateMachine/MotionStateMachine.cpp:220-248 | a jog is accepted iff it goes somewhere and the axes are free for it |
| `Jogs.JogArrives` | Src/Motion/MotionStateMachine/MotionStateMachine.cpp:464-492 | without contact it is idle after its planned cycles and two more, exactly on its target |
| `Jogs.JogContact` | Src/Motion/MotionStateMachine/MotionStateMachine.cpp:464-492 | contact with detection on ends it where it is, with the warning; without detection it goes on |
| `Jogs.JogStops` | Src/Motion/MotionStateMachine/MotionStateMachine.cpp:250-267 | a request stops it at once or by braking |
| `Jogs.JogAwayArrives` | Src/Motion/PauseMoveController/PauseMoveController.cpp:208-251 | a jog away from a paused program arrives and is recorded |
| `Jogs.JogAwayContact` | Src/Motion/PauseMoveController/PauseMoveController.cpp:208-251 | contact stops it where it is |
| `Jogs.JogAwayStops` | Src/Motion/PauseMoveController/PauseMoveController.cpp:58-65 | a request stops it |
| `Motion.TickKeeps` | Src/Motion/MotionStateMachine/MotionAutoTaskRunner.cpp:281-457 | every cycle keeps the invariant and, except after contact while pausing, what the interpreter's waiting states expect |
| `GCodeProgram.MakeTaskList` | App/TaskManager/GCodeTaskConverter.cpp:529-579 | succeeds iff the array is non-empty and no element fails; the result is the kept commands in order |
| `GCodeProgram.ConvertedPrograms` | App/TaskManager/GCodeTaskConverter.cpp:387-579 | only kinds the runner can execute; empty iff all commands are drill commands |
| `GCodeProgram.CheckListAtFirst` | App/TaskManager/GCodeRunner.cpp:400-434 | passes iff all referenced indices exist and the last node is M02; reads past the end iff the list is empty |
| `GCodeRunner.GCodeRunner.StartProgram` | App/TaskManager/GCodeRunner.cpp:56-78 | the machine's start, for every list; the invariant is kept for programs of known kinds |
| `GCodeRunner.GCodeRunner.PauseRun` | App/TaskManager/GCodeRunner.cpp:80-132 | the machine's pause, with the delayed-pause flag |
| `GCodeRunner.GCodeRunner.ResumeRun` | App/TaskManager/GCodeRunner.cpp:134-183 | the machine's resume |
| `GCodeRunner.GCodeRunner.StopProgram` | App/TaskManager/GCodeRunner.cpp:185-237 | the machine's stop, by force if refused |
| `GCodeRunner.GCodeRunner.EStop` | App/TaskManager/GCodeRunner.cpp:239-251 | the machine's emergency stop |
| `GCodeRunner.GCodeRunner.RunOnce` | App/TaskManager/GCodeRunner.cpp:324-398 | the machine's poll; agreement, order and remembered pause are kept |
| `GCodeRunner.GCodeRunner.StateCurrentNodeIniting` | App/TaskManager/GCodeRunner.cpp:552-1091 | a local node starts running; a motion node fails, is skipped, or is launched |
| `GCodeRunner.GCodeRunner.StateRunning` | App/TaskManager/GCodeRunner.cpp:1093-1171 | local nodes are executed, motion nodes watched until Idle or Paused |
| `GCodeRunner.GCodeRunner.StateRunningNonMotion` | App/TaskManager/GCodeRunner.cpp:1173-1272 | the effect of each local kind |
| `GCodeRunner.GCodeRunner.StateWaitingForPaused` | App/TaskManager/GCodeRunner.cpp:1274-1308 | paused, still pausing, or given up |
| `GCodeRunner.GCodeRunner.StateWaitingForResumed` | App/TaskManager/GCodeRunner.cpp:1310-1358 | running again, still waiting, or given up |
| `GCodeRunner.GCodeRunner.StateWaitingForStopped` | App/TaskManager/GCodeRunner.cpp:1360-1406 | ended, still stopping, or given up |
| `GCodeRunner.GCodeRunner.CheckToNextGcode` | App/TaskManager/GCodeRunner.cpp:489-519 | the next node, or the overflow abort |
| `GCodeRunner.Operate` | App/TaskManager/GCodeRunner.cpp:56-1406 | the objects under any events: what is observed at each is the machine's interpreter before and after; in order at every moment, no waiting poll gives up outside rapid moves |
| `RunnerProperties.PollInv` | App/TaskManager/GCodeRunner.cpp:324-398 | every poll keeps agreement with the motion side, the history as the prefix of the program, and the remembered pause |
| `RunnerProperties.ExecInv` | App/TaskManager/GCodeRunner.cpp:56-1406 | so does every run of calls, polls, cycles and jogs |
| `Protocol.WaitingNeverGivesUp` | App/TaskManager/GCodeRunner.cpp:1274-1406 | no poll of a waiting state gives up, except the wait for a pause of a rapid move that has ended |
| `Protocol.PollGivesUpIff` | App/TaskManager/GCodeRunner.cpp:552-1406 | in every state a poll gives the run up iff there is one of the listed causes |
| `Protocol.WaitEndsIff` | App/TaskManager/GCodeRunner.cpp:1274-1406 | when each wait is over, and that the interpreter waits on until then |
| `Protocol.ResumeAnswers` | App/TaskManager/GCodeRunner.cpp:134-183 | accepted iff paused with no jog running, or under way; what follows for local and motion nodes |
| `Protocol.StopAnswers` | App/TaskManager/GCodeRunner.cpp:185-237 | accepted iff a polled program runs, with the one exception; a node in motion is stopped there, otherwise the run ends without an error |
| `Protocol.EmergencyStopsAll` | App/TaskManager/GCodeRunner.cpp:239-251 | nothing is left running, nothing moves |
| `Protocol.ContactWhilePausingGivesUp` | Src/Motion/MotionStateMachine/MotionAutoTaskRunner.cpp:299-325 | it then gives up iff contact occurred in the cycle before |
| `Protocol.ContactWhilePausingHappens` | Src/Motion/MotionStateMachine/G00AutoTask.cpp:26-42 | a run from the start of the system in which it does |
| `Protocol.ContactEndsRapidMove` | App/TaskManager/GCodeRunner.cpp:1133-1163 | contact stops a rapid move in place; a touch motion goes on with the next node and clears the warning, any other gives up |
| `Protocol.PausedTogether` | App/TaskManager/GCodeRunner.cpp:1274-1308 | interpreter paused on a motion node: task paused; a G01 task is out of its jump, on its line, power off |
| `Protocol.PausedInPlace` | Src/Motion/MotionStateMachine/MotionAutoTaskRunner.cpp:276-325 | the cycle that completes a pause leaves the axes where the task stands |
| `Protocol.HeldTask` | Src/Motion/MotionStateMachine/MotionAutoTaskRunner.cpp:327-457 | while the program is paused or its jogs are retraced nothing touches the task, in any run |
| `Protocol.ResumesWherePaused` | Src/Motion/MotionStateMachine/MotionAutoTaskRunner.cpp:327-419 | from the cycle that completes a pause to the one that resumes: the task goes on at exactly the position commanded when it was paused |
| `Liveness.AcceptedPauseArrives` | App/TaskManager/GCodeRunner.cpp:1274-1308 | on every motion node, in a jump or while jogs are retraced: after finitely many cycles without contact the next poll finds the program paused |
| `Liveness.AcceptedStopArrives` | App/TaskManager/GCodeRunner.cpp:1360-1406 | after finitely many cycles the motion side is idle and the next poll ends the run without an error |
| `Liveness.AcceptedResumeArrives` | App/TaskManager/GCodeRunner.cpp:1310-1358 | after finitely many cycles the jogs are retraced, the task drives again or has ended, and the next poll finds the program running |
| `Completion.RapidArrives` | Src/Motion/MotionStateMachine/G00AutoTask.cpp:26-42 | an undisturbed rapid move drives its planned cycles, and two later the motion side is idle on exactly the target |
| `Completion.RapidStopsOnlyAtTarget` | Src/Motion/MotionStateMachine/G00AutoTask.cpp:20-42 | it reports stopped only on its target, after contact, or after a stop |
| `Completion.DelayEnds` | Src/Motion/MotionStateMachine/G04AutoTask.h:65-79 | a delay takes exactly its cycles |
| `Completion.NodeArrives` | Src/Motion/MotionStateMachine/MotionStateMachine.cpp:494-503 | every undisturbed node ends after finitely many cycles where it should |
| `Completion.MotionGoesOn` | App/TaskManager/GCodeRunner.cpp:1133-1163 | after a motion node has ended the poll goes to the next one |
| `Completion.ProgramCompletes` | App/TaskManager/GCodeRunner.cpp:56-1272 | a startable program that nobody disturbs ends with M02 executed and no error, the history exactly the nodes up to the first M02; or it stands on an M00 |
| `ProtocolSafety.PrepareTask` | App/TaskManager/GCodeRunner.cpp:759-875 | the preparation yields a fresh task whose line ends on the motor image of the requested point and passed the limit checks; skipped and failed iff the stated conditions |
| `ProtocolSafety.DrivingStaysInside` | Src/Motion/MotionStateMachine/G01AutoTask.cpp:415-748 | over every run of the protocol, a driving G01 task that began inside the limits stays inside, and its jumps keep 100 um |
| `ProgramSafety.PrepareRapid` | App/TaskManager/GCodeRunner.cpp:581-756 | the preparation of G00 yields a fresh move to the motor image of the requested point, or of the last point inside; skipped and failed iff the stated conditions |
| `ProgramSafety.MoveStaysInside` | Src/Motion/PointMoveHandler/PointMoveHandler.cpp:53-73 | every position of a move between points inside the limits is inside |
| `ProgramSafety.WholeProgramStaysInside` | App/TaskManager/GCodeRunner.cpp:552-1091 | without jogs and groups, a run that begins inside commands no position outside, at any moment |
| `Protocol.ProgramOrder` | App/TaskManager/GCodeRunner.cpp:489-519 | the history is the nodes 0, 1, 2, ... in order, each once, up to the current one; no local node is passed over, the index never passes the first M02; overflow and unknown kinds never occur |
| `Protocol.RefusedPauseIsKept` | App/TaskManager/GCodeRunner.cpp:80-132 | until the run pauses or ends a refused pause stays remembered and no local node takes effect |
| `RememberedPause.RememberedPauseTakesEffect` | App/TaskManager/GCodeRunner.cpp:392-397 | from every reachable state with a pause pending, finitely many cycles and polls lead to Paused or to the end of the run |
| `Protocol.RefusedPauseIsRemembered` | App/TaskManager/GCodeRunner.cpp:118-131 | a refusal is remembered iff a node was running or being initialised; forgotten between start and the first poll |
| `Protocol.ForgottenPause` | App/TaskManager/GCodeRunner.cpp:118-131 | a program that runs to its end although a pause was asked for |
| `G01Group.PrepareGroup` | App/TaskManager/GCodeRunner.cpp:953-1066 | refused iff some point carries an axis beyond a limit; the items are the increments between the intended points |
| `G01Group.IntendedInside` | App/TaskManager/GCodeRunner.cpp:1045-1066 | every intended point of an accepted group is inside the limits |
| `G01Group.RunningSum` | App/TaskManager/GCodeRunner.cpp:986-1065 | the increments add up to the intended position within less than 1e-6 per absolute point sent |
| `G01Group.IncrementalIsExact` | App/TaskManager/GCodeRunner.cpp:983-995 | incremental programs add up exactly |
| `G01Group.ReachedNearLimits` | Src/Motion/MotionStateMachine/G01GroupAutoTask.cpp:18-52 | the positions really reached exceed a limit by no more than that |
| `G01Group.PathNearLimits` | Src/Motion/Trajectory/TrajectoryList.cpp:15-37 | so does every point of the way between them |
| `G01Group.ReachedExactly` | App/TaskManager/GCodeRunner.cpp:1036-1065 | the position reached is the intended one minus what the dead band dropped, on every axis |
| `G01Group.ReachedInsideIff` | App/TaskManager/GCodeRunner.cpp:1036-1065 | a group ends inside the limits iff what was dropped does not carry it out |
| `G01Group.NothingDropsIsExact` | App/TaskManager/GCodeRunner.cpp:1036-1042 | if no absolute increment is non-zero and below the dead band, every intended point is reached |
| `G01Group.OnePointExactIff` | App/TaskManager/GCodeRunner.cpp:1036-1042 | for one point that condition is exact |
| `G01Group.ReachedBeyondLimit` | App/TaskManager/GCodeRunner.cpp:1036-1065 | an accepted group that ends beyond a limit |
| `G01Group.ZeroItems` | App/TaskManager/GCodeRunner.cpp:1036-1065 | an item has no length iff its absolute point is within the dead band on every axis |
| `G01Group.ZeroItemHappens` | App/TaskManager/GCodeRunner.cpp:1036-1065 | a point that is sent with no length |
| `DrillAutoTask.DrillAutoTask.constructor` | Src/Motion/MotionStateMachine/DrillAutoTask.cpp:22-45 | the initial phase and geometry |
| `DrillAutoTask.DrillAutoTask.PauseTask` | Src/Motion/MotionStateMachine/DrillAutoTask.cpp:47-56 | the machine's pause |
| `DrillAutoTask.DrillAutoTask.ResumeTask` | Src/Motion/MotionStateMachine/DrillAutoTask.cpp:58-93 | the machine's resume, outputs by phase |
| `DrillAutoTask.DrillAutoTask.StopTask` | Src/Motion/MotionStateMachine/DrillAutoTask.cpp:95-102 | the machine's stop |
| `DrillAutoTask.DrillAutoTask.RunOnce` | Src/Motion/MotionStateMachine/DrillAutoTask.cpp:421-481 | the machine's cycle |
| `DrillAutoTask.DrillAutoTask.DrillingOnce` | Src/Motion/MotionStateMachine/DrillAutoTask.cpp:198-387 | feed, breakout detection, general limits, end of drilling |
| `DrillAutoTask.RunJob` | Src/Motion/MotionStateMachine/DrillAutoTask.cpp:22-481 | the object under any events: what is observed after each is the machine's state; between target and start whenever it drills, power on only in the drilling phases |
| `DrillCompletion.CommandsAnswer` | Src/Motion/MotionStateMachine/DrillAutoTask.cpp:47-102 | when pause, resume and stop are accepted, and what they lead to |
| `DrillProperties.EveryDrillRun` | Src/Motion/MotionStateMachine/DrillAutoTask.cpp:122-395 | target <= position <= start, the floor after breakout, and power only in the drilling phases, in every run |
| `DrillProperties.PhasesOnlyAdvance` | Src/Motion/MotionStateMachine/DrillAutoTask.cpp:421-481 | phases never go back |
| `DrillProperties.FloorFromTheStart` | Src/Motion/MotionStateMachine/DrillAutoTask.cpp:250-269 | at detection the floor holds iff the retreat of that cycle is within the allowed move |
| `DrillCompletion.DrillingLeavesIff` | Src/Motion/MotionStateMachine/DrillAutoTask.cpp:365-387 | drilling is left iff the target is reached or the hold is over, to the return iff the job has one, to the end iff not |
| `DrillCompletion.FeedExact` | Src/Motion/MotionStateMachine/DrillAutoTask.cpp:198-363 | how far a cycle feeds, by state of the detection |
| `DrillCompletion.DetectionIff` | Src/Motion/MotionStateMachine/DrillAutoTask.cpp:215-359 | when the detection is switched on, notices the breakout, and begins the hold |
| `DrillCompletion.TouchExact` | Src/Motion/MotionStateMachine/DrillAutoTask.cpp:122-163 | contact sets all points, and the cycle still moves down once |
| `DrillCompletion.BackExact` | Src/Motion/MotionStateMachine/DrillAutoTask.cpp:165-182 | one unit per cycle after contact, two on the return, the last cycle to exactly the point |
| `DrillCompletion.SlowDownAfter` | Src/Motion/MotionStateMachine/DrillAutoTask.cpp:275-293 | between 0.35 and the set ratio, falling from the set one to 0.35 on the floor |
| `DrillCompletion.DelayExact` | Src/Motion/MotionStateMachine/DrillAutoTask.h:93-105 | each preparation delays until 1000 ms have passed, not less and not more |
| `DrillCompletion.BottomToHome` | Src/Motion/MotionStateMachine/DrillAutoTask.cpp:365-419 | a job with return that reaches its target ends idle on exactly the return point |
| `DrillCompletion.JobCompletes` | Src/Motion/MotionStateMachine/DrillAutoTask.cpp:104-481 | every undisturbed job comes to its end; without touching and with return, where it began |
| `DrillProperties.SlowDownExact` | Src/Motion/MotionStateMachine/DrillAutoTask.cpp:228-248 | the feed is slowed iff enabled and the count is above half the threshold and not above it |
| `DrillProperties.UnslowedFeedHappens` | Src/Motion/MotionStateMachine/DrillAutoTask.cpp:228-269 | a run with the slow-down enabled: slowed to 0.35 at the threshold, not at all one count above |
| `DrillProperties.HoldBegins` | Src/Motion/MotionStateMachine/DrillAutoTask.cpp:298-333 | the cycle that begins the hold notes its time in 32 bits |
| `DrillProperties.HoldEndsExactly` | Src/Motion/MotionStateMachine/DrillAutoTask.cpp:304-347 | over every run, through pauses: the drill holds at the frozen position up to exactly the first unpaused cycle whose clock exceeds the 32-bit sum |
| `DrillProperties.HoldLastsSetTime` | Src/Motion/MotionStateMachine/DrillAutoTask.cpp:304-347 | while clock and sum fit in 32 bits the hold lasts exactly the set time, also through pauses that outlast it |
| `DrillProperties.HoldSkipped` | Src/Motion/MotionStateMachine/DrillAutoTask.cpp:335-347 | with a clock of 2^32 or more the first unpaused cycle ends it |
| `DrillProperties.HoldSkippedHappens` | Src/Motion/MotionStateMachine/DrillAutoTask.cpp:304-347 | a whole run in which a hold of 1000 ms is over after 1 ms |
| `DrillProperties.ReturnEnds` | Src/Motion/MotionStateMachine/DrillAutoTask.cpp:403-419 | the return ends on exactly the return point in a bounded number of cycles |
| `DrillProperties.BackingEnds` | Src/Motion/MotionStateMachine/DrillAutoTask.cpp:165-182 | after contact the drill backs to exactly the set distance, in bounded time; that is start and return point, the depth counts from the contact |
| `DrillProperties.PausesKeepPlace` | Src/Motion/MotionStateMachine/DrillAutoTask.cpp:47-93 | any number of pauses and resumes keeps phase, position, record and timer, and the outputs those of the phase, off in between |
| `DrillLimits.AboveIff` | App/TaskManager/GCodeRunner.cpp:915-931 | no run of a job without touching commands a machine position below the limit iff its depth, taken from the machine position, ends above it |
| `DrillLimits.AcceptedJobsAboveIff` | App/TaskManager/GCodeRunner.cpp:915-931 | the check, in motor coordinates, protects every such job iff the global offset is not positive |
| `DrillLimits.AcceptedJobBelowLimit` | App/TaskManager/GCodeRunner.cpp:915-931 | an accepted job without touching that ends below the limit |
| `DrillLimits.TouchRunAgainstLimit` | Src/Motion/MotionStateMachine/DrillAutoTask.cpp:122-137 | a touch job drills above the limit, in machine coordinates, if its contact point is high enough |
| `DrillLimits.TouchRunContinuesBelow` | Src/Motion/MotionStateMachine/DrillAutoTask.cpp:365-372 | if it is not, one cycle of feed takes it below |
| `DrillLimits.TouchingPassesEveryLimit` | Src/Motion/MotionStateMachine/DrillAutoTask.cpp:158-162 | without contact the touching phase passes every limit |
| `DrillLimits.TouchRunBelowLimit` | App/TaskManager/GCodeRunner.cpp:915-931 | an accepted touch job that drills below the limit without any global offset |
| `CommandQueue.FirstInFirstOut` | Src/GlobalCommandQueue/GlobalCommandQueue.cpp:30-78 | pushed = fetched ++ queued, run = fetched without the one in flight; at most one fetch after the exit flag |
| `CommandQueue.HeadIsRun` | Src/GlobalCommandQueue/GlobalCommandQueue.cpp:49-78 | what heads the queue is fetched and run within six steps of the worker |
| `CommandQueue.ShutdownProceeds` | Src/GlobalCommandQueue/GlobalCommandQueue.cpp:16-78 | after the notification every worker step brings the exit nearer; no step is left iff stuck |
| `CommandQueue.ShutdownEnds` | Src/GlobalCommandQueue/GlobalCommandQueue.cpp:16-28 | the worker exits, except when the notification fell between predicate check and block |
| `CommandQueue.LostWakeUp` | Src/GlobalCommandQueue/GlobalCommandQueue.cpp:16-59 | a run that gets stuck |
| `ServoCycle.ClearFaultCycleRunOnce` | Src/EcatManager/EcatManager.cpp:932-960 | every drive gets the outputs of the enable cycle, none is disturbed by another |
| `ServoCycle.DisableCycleRunOnce` | Src/EcatManager/EcatManager.cpp:962-980 | the same for the disable cycle |
| `ServoCycle.ServoHasFault` | Src/EcatManager/EcatManager.cpp:902-910 | true iff some drive reports a fault |
| `ServoCycle.ServoAllOperationEnabled` | Src/EcatManager/EcatManager.cpp:912-920 | true iff all drives are enabled |
| `ServoCycle.ServoAllDisabled` | Src/EcatManager/EcatManager.cpp:922-930 | true iff all drives are disabled |
| `ServoCycle.StatusDecodes` | Src/EcatManager/ServoDevice.cpp:95-113 | the masked comparisons recognise exactly the five states, whatever the free bits are |
| `ServoCycle.ExchangeKeeps` | Src/EcatManager/EcatManager.cpp:932-980 | quick stop is never commanded; a drive becomes enabled only with target = actual |
| `ServoCycle.ExchangeProgress` | Src/EcatManager/EcatManager.cpp:932-980 | each calm exchange lowers the rank of a clean drive until it is zero |
| `ServoCycle.SurvivedEdge` | Src/EcatManager/ServoDevice.cpp:115-117 | a fault whose cause persists survives the edge, with the reset bit left high |
| `ServoCycle.FaultStaysForever` | Src/EcatManager/ServoDevice.cpp:115-117 | from then on no sequence of exchanges, of either cycle in any order, resets it |
| `ServoCycle.AllDrivesReachAim` | Src/EcatManager/EcatManager.cpp:932-980 | any number of drives reach Operation Enabled, or Switch On Disabled, within five calm exchanges iff none began faulted with the reset bit high |
| `Coordinates.FramesAgree` | Src/Coordinate/CoordinateManager.cpp:341-418 | the conversions are mutual inverses, commute, and fail on the same indices |
| `Coordinates.DefaultLimitsPinAxes` | Src/Coordinate/CoordinateManager.h:15-18 | the default limits allow exactly zero on all axes but the first |
| `Coordinates.CoordinateManager.SetCoordOffset` | Src/Coordinate/CoordinateManager.cpp:329-339 | changes that offset only, iff the index exists |
| `Coordinates.CoordinateManager.SetSoftLimits` | Src/Coordinate/CoordinateManager.cpp:420-430 | accepted iff ordered; limits stay ordered |
| `Coordinates.CoordinateManager.ToMachine` | Src/Coordinate/CoordinateManager.cpp:370-377 | the loop computes the conversion |
| `Coordinates.CoordinateManager.ToCoord` | Src/Coordinate/CoordinateManager.cpp:379-393 | the loop computes the conversion, or leaves the output |
| `Coordinates.CoordinateSystem.UpdateMotorPos` | Src/Coordinate/CoordinateSystem.cpp:64-71 | refreshes both caches |
| `Coordinates.CoordinateSystem.SetCoordIndex` | Src/Coordinate/CoordinateSystem.cpp:73-85 | refreshes the work cache, iff the index exists |
| `Coordinates.CoordinateSystem.SetCoordOffset` | Src/Coordinate/CoordinateSystem.cpp:97-114 | changes the offset and refreshes no cache |
| `Coordinates.CoordinateSystem.SetGlobalOffset` | Src/Coordinate/CoordinateSystem.cpp:116-121 | refreshes the machine cache and not the work cache |
| `Coordinates.CoordinateSystem.GetCoordAxis` | Src/Coordinate/CoordinateSystem.cpp:87-95 | off from a direct computation by exactly the offset change since the last refresh |
| `Coordinates.WorkCacheRight` | Src/Coordinate/CoordinateSystem.cpp:132-142 | the cached work coordinate is right iff the offsets are those of the last refresh |
| `Coordinates.StaleWorkCache` | Src/Coordinate/CoordinateSystem.cpp:97-114 | a coordinate system whose cached work coordinate is wrong after an offset change |
| `Coordinates.GCodeSetZero` | App/TaskManager/GCodeRunner.cpp:1222-1260 | zeroed axes read minus the global offset, the others keep their value |
| `Coordinates.PanelSetZero` | App/CoordSettingPanel/CoordSettingPanel.cpp:394-431 | the zeroed axis reads zero, the others keep their value |
| `Coordinates.ZeroingAgrees` | App/TaskManager/GCodeRunner.cpp:1240-1248 | the two agree iff the global offset of the axis is zero |
| `CoordinateJson.CheckJson` | Src/Coordinate/CoordinateManager.cpp:146-222 | accepts exactly the well-formed files |
| `CoordinateJson.FromJson` | Src/Coordinate/CoordinateManager.cpp:224-267 | loading a checked file succeeds and gives its content |
| `CoordinateJson.RoundTrip` | Src/Coordinate/CoordinateManager.cpp:63-268 | in whatever order it is written, a storable manager passes the check and is restored exactly |
| `CoordinateJson.FileContent` | Src/Coordinate/CoordinateManager.cpp:65-144 | the file holds millimetres under their names, and each system with its index |
| `CoordinateJson.LoadedIsStorable` | Src/Coordinate/CoordinateManager.cpp:224-267 | whatever is loaded can be stored again |
| `CoordinateJson.EmptyIsRefused` | Src/Coordinate/CoordinateManager.cpp:161-164 | a manager without coordinate systems is written to a file that is refused |

## Left out

- User interface, logging, data recording, audio, CAN and UDP traffic, the Python interpreter and the power database.
- EtherCAT master calls, connection and clock synchronisation; the process data of a drive are plain fields.
- Floating-point rounding, including the not-a-number results of a zero allowed move after breakout and of a segment of no length.
- The speed planner itself: its answers are inputs, within what it guarantees.
- Re-entrant event pumping while a command waits, command time-outs, and polls between command and answer.
- `PauseMove`, `Motion` and `CommandQueue` are modelled on values, as step functions of a shared state; object identity and aliasing of the tasks are not captured there.
- The path of a G01 group task between its end points: where a cycle of it ends, and when, are inputs of `Motion`.
- The drill task inside the two-party protocol; it belongs to the build with the drill, where G01 jumps are off.
- GCodeRunner.GCodeRunner.StateCurrentNodeIniting: the preparation of a motion node is an input of the poll; `ProtocolSafety.PrepareTask`, `MoveTargets` and `G01Group` say what it computes for G01, G00 and groups.
- GCodeRunner.GCodeRunner.StateRunningNonMotion: the effect of a local node on the rest of the system is a success flag and an entry in the history; for setting zero `Coordinates.GCodeSetZero` says what it does.
- Changes of limits, offsets or the global offset while a program runs: `ProtocolSafety` and `ProgramSafety` keep them fixed.
- The JSON fields of single commands: an element of a program is well formed or not.
- The conversion of a delay in seconds into cycles: a G04 task carries its number of cycles.
- Task timers, spindle, voltage-gate resends, the dynamic-jump judge and the breakout filter, whose answers are inputs.
- MovePanel's absolute and incremental targets and its two-sided limit check, which are routine.
- What an emergency stop does to the discharge outputs; the model's reset touches modes, tasks and moves only.
