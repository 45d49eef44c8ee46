/** `GCodeRunner` as an object: its fields, its public calls and its polled state methods, proved to
    do what `RunnerMachine` says. */
module GCodeRunner {
  import opened GCodeProgram
  import opened RunnerMachine
  import opened RunnerProperties
  import opened Axes
  import M = Motion
  import PM = PointMove
  import PR = Protocol

  /** The motion side as the interpreter reaches it: commands are answered at once, and what is
      observed is its present state. */
  class MotionPort {
    var m: M.Motion

    constructor (m: M.Motion)
      ensures this.m == m
    {
      this.m := m;
    }

    method CmdAutoPause(plan: PM.Plan) returns (ok: bool)
      modifies this
      ensures (m, ok) == M.Pause(old(m), plan)
    {
      var (n, accepted) := M.Pause(m, plan);
      m, ok := n, accepted;
    }

    method CmdAutoStop(plan: PM.Plan) returns (ok: bool)
      modifies this
      ensures (m, ok) == M.Stop(old(m), plan)
    {
      var (n, accepted) := M.Stop(m, plan);
      m, ok := n, accepted;
    }

    method CmdAutoResume(sqrt: real -> real, plan: PM.Plan) returns (ok: bool)
      modifies this
      ensures (m, ok) == M.Resume(sqrt, old(m), plan)
    {
      var (n, accepted) := M.Resume(sqrt, m, plan);
      m, ok := n, accepted;
    }

    method CmdStart(task: M.Task, ready: bool) returns (ok: bool)
      modifies this
      ensures (m, ok) == M.Launch(old(m), task, ready)
    {
      var (n, accepted) := M.Launch(m, task, ready);
      m, ok := n, accepted;
    }

    method CmdEmergencyStop()
      modifies this
      ensures m == M.Reset(old(m))
    {
      m := M.Reset(m);
    }

    method CmdClearWarning()
      modifies this
      ensures m == old(m).(warning := false)
    {
      m := m.(warning := false);
    }

    // The motion thread's own cycle, and jogs, which do not pass through the interpreter.

    method RunOnce(sqrt: real -> real, inp: M.Input)
      modifies this
      ensures m == M.Tick(sqrt, old(m), inp)
    {
      m := M.Tick(sqrt, m, inp);
    }

    method StartPointMove(sqrt: real -> real, target: Axis, detect: bool, plan: PM.Plan)
      modifies this
      ensures m == M.StartJog(sqrt, old(m), target, detect, plan).0
    {
      m := M.StartJog(sqrt, m, target, detect, plan).0;
    }

    method StopPointMove(immediate: bool, plan: PM.Plan)
      modifies this
      ensures m == M.StopJog(old(m), immediate, plan).0
    {
      m := M.StopJog(m, immediate, plan).0;
    }
  }

  class GCodeRunner {
    const sqrt: real -> real
    const motion: MotionPort
    var state: State
    var gcodeList: seq<Node>
    var currGcodeNum: nat
    var delayPauseFlag: bool
    var lastError: Abort
    var trail: seq<Visit>         // the history of the run, kept for the observer

    ghost function Abs(): Sys
      reads this, motion
    {
      Sys(Runner(gcodeList, currGcodeNum, state, delayPauseFlag, lastError, trail), motion.m)
    }

    /** While a program runs there is a current node. */
    ghost predicate Indexed()
      reads this
    {
      state != Stopped ==> currGcodeNum < |gcodeList|
    }

    /** Interpreter and motion side agree, the program is in order, a refused pause is remembered. */
    ghost predicate Valid()
      reads this, motion
    {
      IsSqrt(sqrt) && Inv(Abs())
    }

    constructor (sqrt: real -> real, motion: MotionPort)
      ensures Indexed() && this.motion == motion && this.sqrt == sqrt
      ensures IsSqrt(sqrt) && motion.m.mode == M.Idle ==> Valid()
      ensures Abs() == Sys(Runner([], 0, Stopped, false, NoAbort, []), motion.m)
    {
      this.sqrt, this.motion := sqrt, motion;
      state, gcodeList, currGcodeNum, delayPauseFlag := Stopped, [], 0, false;
      lastError, trail := NoAbort, [];
    }

    /** The interpreter's state as a value. */
    method Snapshot() returns (r: Runner)
      ensures r == Abs().r
    {
      r := Runner(gcodeList, currGcodeNum, state, delayPauseFlag, lastError, trail);
    }

    predicate IsOver()
      reads this
    {
      state == Stopped
    }

    // ----- public calls

    method StartProgram(list: seq<Node>, eleparams: set<int>, coords: set<int>) returns (ok: bool)
      requires Indexed()
      modifies this, motion
      ensures Indexed() && (Abs(), ok) == Start(old(Abs()), list, eleparams, coords)
      ensures old(Valid()) && (forall n | n in list :: Executable(n)) ==> Valid()
    {
      if Valid() && forall n | n in list :: Executable(n) { StartInv(Abs(), list, eleparams, coords); }
      if state != Stopped { return false; }
      gcodeList, currGcodeNum := list, 0;
      trail := [];
      var checked := CheckListAtFirst(gcodeList, eleparams, coords);
      ok := checked == Passed;
      if ok {
        state := ReadyToStart;
      } else {
        AbortRun(if checked == ReadsPastEnd then ReadsEmptyList else CheckFailed);
      }
    }

    method PauseRun(plan: PM.Plan) returns (ok: bool)
      requires Indexed()
      modifies this, motion
      ensures Indexed() && (Abs(), ok) == Pause(old(Abs()), plan)
      ensures old(Valid()) ==> Valid()
    {
      if Valid() { PauseInv(Abs(), plan); }
      if IsOver() { return false; }
      match state {
        case WaitingForResumed => ok := PauseCurrent(plan);
        case Running => ok := PauseCurrent(plan);
        case WaitingForPaused => ok := true;
        case Paused => ok := true;
        case NodeIniting =>
          delayPauseFlag := true;
          ok := false;
        case _ => ok := false;
      }
    }

    method PauseCurrent(plan: PM.Plan) returns (ok: bool)
      requires Indexed() && state != Stopped
      modifies this, motion
      ensures Indexed()
      ensures var (m, accepted) := M.Pause(old(motion.m), plan); (Abs(), ok) == PauseNow(old(Abs()), m, accepted)
    {
      if !IsMotion(gcodeList[currGcodeNum]) {
        state := Paused;
        return true;
      }
      ok := motion.CmdAutoPause(plan);
      if !ok {
        delayPauseFlag := true;
      } else {
        state := WaitingForPaused;
      }
    }

    method ResumeRun(plan: PM.Plan) returns (ok: bool)
      requires Indexed()
      modifies this, motion
      ensures Indexed() && (Abs(), ok) == Resume(sqrt, old(Abs()), plan)
      ensures old(Valid()) ==> Valid()
    {
      if Valid() { ResumeInv(sqrt, Abs(), plan); }
      if state == Paused {
        if !IsMotion(gcodeList[currGcodeNum]) {
          state := Running;
          return true;
        }
        ok := motion.CmdAutoResume(sqrt, plan);
        if ok { state := WaitingForResumed; }
      } else {
        ok := state == WaitingForResumed;
      }
    }

    method StopProgram(plan: PM.Plan) returns (ok: bool)
      requires Indexed()
      modifies this, motion
      ensures Indexed() && (Abs(), ok) == StopRun(old(Abs()), plan)
      ensures old(Valid()) ==> Valid()
    {
      if Valid() { StopInv(Abs(), plan); }
      if IsOver() { return false; }
      ok := true;
      if state in {WaitingForResumed, Paused, Running} {
        if !IsMotion(gcodeList[currGcodeNum]) {
          EndRun();
          return;
        }
        var accepted := motion.CmdAutoStop(plan);
        if !accepted {
          motion.CmdEmergencyStop();
          EndRun();
        } else {
          state := WaitingForStopped;
        }
      } else if state == NodeIniting {
        EndRun();
      } else if state == WaitingForPaused {
        ok := motion.CmdAutoStop(plan);
        if ok { state := WaitingForStopped; }
      } else {
        ok := state == WaitingForStopped;
      }
    }

    method EStop()
      requires Indexed()
      modifies this, motion
      ensures Indexed() && Abs() == EmergencyStop(old(Abs()))
      ensures old(Valid()) ==> Valid()
    {
      motion.CmdEmergencyStop();
      if IsOver() {
        delayPauseFlag := false;
      } else {
        state, delayPauseFlag, lastError := Stopped, false, Estop;
        motion.CmdEmergencyStop();
      }
    }

    // ----- one poll

    method RunOnce(env: Env)
      requires Indexed()
      modifies this, motion
      ensures Indexed() && Abs() == Poll(old(Abs()), env)
      ensures old(Valid()) && ValidEvent(old(Abs()), Polled(env)) ==> Valid()
    {
      if Valid() && ValidEvent(Abs(), Polled(env)) { PollInv(Abs(), env); }
      RunState(env);
      if delayPauseFlag {
        var ok := PauseRun(env.plan);
        if ok { delayPauseFlag := false; }
      }
    }

    method RunState(env: Env)
      requires Indexed()
      modifies this, motion
      ensures Indexed() && Abs() == Dispatch(old(Abs()), env)
    {
      match state {
        case ReadyToStart => state := NodeIniting;
        case NodeIniting => StateCurrentNodeIniting(env);
        case Running => StateRunning(env);
        case WaitingForPaused => StateWaitingForPaused();
        case WaitingForResumed => StateWaitingForResumed();
        case WaitingForStopped => StateWaitingForStopped();
        case Paused =>
        case Stopped =>
      }
    }

    method AbortRun(why: Abort)
      modifies this`state, this`delayPauseFlag, this`lastError, motion
      ensures Indexed() && Abs() == Give(old(Abs()), why)
    {
      motion.CmdEmergencyStop();
      state, delayPauseFlag := Stopped, false;
      lastError := why;
    }

    method EndRun()
      modifies this`state, this`delayPauseFlag, this`lastError
      ensures Indexed() && Abs() == End(old(Abs()))
    {
      state, delayPauseFlag := Stopped, false;
      lastError := NoAbort;
    }

    method CheckToNextGcode()
      modifies this`state, this`delayPauseFlag, this`lastError, this`currGcodeNum, motion
      ensures Indexed() && Abs() == NextNode(old(Abs()))
    {
      currGcodeNum := currGcodeNum + 1;
      if currGcodeNum >= |gcodeList| {
        AbortRun(Overflow);
        return;
      }
      state := NodeIniting;
    }

    method StateCurrentNodeIniting(env: Env)
      requires Indexed() && state == NodeIniting
      modifies this, motion
      ensures Indexed() && Abs() == InitNode(old(Abs()), env)
    {
      var node := gcodeList[currGcodeNum];
      if !IsMotion(node) {
        state := Running;
        return;
      }
      if !Executable(node) {
        lastError := UnknownKind;
        return;
      }
      match env.prepared {
        case Fails => AbortRun(NodeFailed);
        case Skips =>
          trail := trail + [Visit(currGcodeNum, false)];
          CheckToNextGcode();
        case Sends(task, ready) =>
          var ok := motion.CmdStart(task, ready);
          if !ok {
            AbortRun(NodeFailed);
          } else {
            trail := trail + [Visit(currGcodeNum, true)];
            state := Running;
          }
      }
    }

    method StateRunning(env: Env)
      requires Indexed() && state == Running
      modifies this, motion
      ensures Indexed()
      ensures Abs() == if OnMotion(old(Abs()).r) then RunMotion(old(Abs()), env) else RunLocal(old(Abs()), env)
    {
      var node := gcodeList[currGcodeNum];
      if !IsMotion(node) {
        StateRunningNonMotion(env);
        return;
      }
      match motion.m.mode {
        case Auto =>
          if motion.m.auto == M.Paused {
            state, delayPauseFlag := Paused, false;
          }
        case Idle =>
          if node.G00? && motion.m.warning {
            if !node.touch {
              AbortRun(TouchWarning);
              return;
            }
            if !env.ackOk {
              AbortRun(AckFailed);
              return;
            }
            motion.CmdClearWarning();
          }
          CheckToNextGcode();
        case Manual => AbortRun(ManualSeen);
      }
    }

    method StateRunningNonMotion(env: Env)
      requires Indexed() && state == Running
      modifies this, motion
      ensures Indexed() && Abs() == RunLocal(old(Abs()), env)
    {
      var node := gcodeList[currGcodeNum];
      match node {
        case ProgramEnd =>
          trail := trail + [Visit(currGcodeNum, true)];
          EndRun();
        case CoordIndex(_) => LocalNode(env.localOk);
        case EleparamSet(_) => LocalNode(env.localOk);
        case CoordSetZero => LocalNode(env.localOk);
        case CoordMode => LocalNode(true);
        case FeedSpeed => LocalNode(true);
        case _ => lastError := UnknownKind;
      }
    }

    method LocalNode(ok: bool)
      modifies this, motion
      ensures Indexed()
      ensures Abs() == if ok then NextNode(TakeEffect(old(Abs()))) else Give(old(Abs()), LocalFailed)
    {
      if !ok {
        AbortRun(LocalFailed);
        return;
      }
      trail := trail + [Visit(currGcodeNum, true)];
      CheckToNextGcode();
    }

    method StateWaitingForPaused()
      requires Indexed() && state == WaitingForPaused
      modifies this, motion
      ensures Indexed() && Abs() == WaitPaused(old(Abs()))
    {
      if motion.m.mode == M.Auto && motion.m.auto == M.Paused {
        state, delayPauseFlag := Paused, false;
      } else if motion.m.mode != M.Auto || motion.m.auto != M.Pausing {
        AbortRun(NotPausing);
      }
    }

    method StateWaitingForResumed()
      requires Indexed() && state == WaitingForResumed
      modifies this, motion
      ensures Indexed() && Abs() == WaitResumed(old(Abs()))
    {
      match motion.m.mode {
        case Auto =>
          match motion.m.auto {
            case Normal => state := Running;
            case Stopping => state := Running;
            case Stopped => state := Running;
            case Paused =>
            case Resuming =>
            case Pausing => AbortRun(NotResuming);
          }
        case Idle => state := Running;
        case Manual => AbortRun(NotResuming);
      }
    }

    method StateWaitingForStopped()
      requires Indexed() && state == WaitingForStopped
      modifies this, motion
      ensures Indexed() && Abs() == WaitStopped(old(Abs()))
    {
      match motion.m.mode {
        case Auto =>
          match motion.m.auto {
            case Stopping =>
            case Stopped => EndRun();
            case _ => AbortRun(NotStopping);
          }
        case Idle => EndRun();
        case Manual => AbortRun(NotStopping);
      }
    }
  }

  /** What an observer notes at every event: the interpreter before and after it. */
  datatype Observed = Observed(polled: bool, before: Runner, after: Runner)

  /** A poll in a waiting state that gives the run up. */
  predicate GaveUpWaiting(o: Observed) {
    && o.polled && o.before.state in {WaitingForPaused, WaitingForResumed, WaitingForStopped}
    && o.after.state == Stopped && o.after.error != NoAbort
  }

  /** One event on the objects.  Jogs are let through only when no program runs or it is paused. */
  method Handle(runner: GCodeRunner, e: Event)
    requires runner.Valid() && ValidEvent(runner.Abs(), e)
    modifies runner, runner.motion
    ensures runner.Valid() && runner.Abs() == Step(runner.sqrt, old(runner.Abs()), e)
  {
    var ok;
    StepInv(runner.sqrt, runner.Abs(), e);
    match e {
      case UserStart(list, eleparams, coords) => ok := runner.StartProgram(list, eleparams, coords);
      case UserPause(plan) => ok := runner.PauseRun(plan);
      case UserResume(plan) => ok := runner.ResumeRun(plan);
      case UserStop(plan) => ok := runner.StopProgram(plan);
      case UserEstop => runner.EStop();
      case Polled(env) => runner.RunOnce(env);
      case Cycle(inp) => runner.motion.RunOnce(runner.sqrt, inp);
      case StartJog(target, detect, plan) =>
        if runner.state in {Stopped, Paused} { runner.motion.StartPointMove(runner.sqrt, target, detect, plan); }
      case StopJog(immediate, plan) => runner.motion.StopPointMove(immediate, plan);
    }
  }

  function View(sqrt: real -> real, s0: Sys, es: seq<Event>, k: nat): Observed
    requires k < |es|
  {
    Observed(es[k].Polled?, Exec(sqrt, s0, es[..k]).r, Exec(sqrt, s0, es[..k + 1]).r)
  }

  /** The program has been worked off in order with no node passed over, and no poll of a waiting state
      gives up outside rapid moves. */
  ghost predicate Proper(o: Observed) {
    InOrder(o.after) && (GaveUpWaiting(o) ==> o.before.state == WaitingForPaused && Current(o.before).G00?)
  }

  /** One event, and what is noted at it. */
  method Observe(runner: GCodeRunner, e: Event) returns (o: Observed)
    requires runner.Valid() && ValidEvent(runner.Abs(), e)
    modifies runner, runner.motion
    ensures runner.Valid() && runner.Abs() == Step(runner.sqrt, old(runner.Abs()), e)
    ensures o == Observed(e.Polled?, old(runner.Abs()).r, runner.Abs().r) && Proper(o)
  {
    ghost var s := runner.Abs();
    var before := runner.Snapshot();
    Handle(runner, e);
    var after := runner.Snapshot();
    o := Observed(e.Polled?, before, after);
    if GaveUpWaiting(o) { PR.WaitingHolds(s, e.env); }
  }

  /** The objects under any sequence of events: what is observed at each of them is what the machine
      says, and is proper. */
  method Operate(sqrt: real -> real, m: M.Motion, es: seq<Event>) returns (log: seq<Observed>)
    requires IsSqrt(sqrt) && m.mode == M.Idle && ValidRun(sqrt, Sys(Resting(), m), es)
    ensures |log| == |es|
    ensures forall k | 0 <= k < |es| :: log[k] == View(sqrt, Sys(Resting(), m), es, k) && Proper(log[k])
  {
    var port := new MotionPort(m);
    var runner := new GCodeRunner(sqrt, port);
    log := [];
    for k := 0 to |es|
      invariant runner.Valid() && runner.sqrt == sqrt && runner.motion == port && fresh(runner) && fresh(port)
      invariant ValidRun(sqrt, runner.Abs(), es[k..])
      invariant runner.Abs() == Exec(sqrt, Sys(Resting(), m), es[..k])
      invariant |log| == k
      invariant forall i | 0 <= i < k :: log[i] == View(sqrt, Sys(Resting(), m), es, i) && Proper(log[i])
    {
      assert es[k..][0] == es[k] && es[k..][1..] == es[k + 1..];
      ExecSnoc(sqrt, Sys(Resting(), m), es[..k], es[k]);
      assert es[..k + 1] == es[..k] + [es[k]];
      var o := Observe(runner, es[k]);
      log := log + [o];
    }
  }

  /** An interpreter that has not run anything yet. */
  function Resting(): Runner { Runner([], 0, Stopped, false, NoAbort, []) }
}
