/** The program interpreter `GCodeRunner` together with the motion side it commands and observes.

    A motion command is answered at once with accept or refuse, and what a poll observes is the
    motion state at that moment.  Public calls, polls and motion cycles are atomic steps. */
module RunnerMachine {
  import opened GCodeProgram
  import M = Motion
  import PM = PointMove
  import opened Axes

  datatype State =
    | ReadyToStart | NodeIniting | Running | WaitingForPaused | Paused
    | WaitingForResumed | WaitingForStopped | Stopped

  /** Why a run was given up. */
  datatype Abort =
    | NoAbort | ReadsEmptyList | CheckFailed | NodeFailed | LocalFailed | Overflow | UnknownKind | ManualSeen
    | TouchWarning | AckFailed | NotPausing | NotResuming | NotStopping | Estop

  /** One entry of the history of a run: a node took effect, or was found to have nothing to do. */
  datatype Visit = Visit(node: nat, done: bool)

  /** `trail` records, in the order in which it happens, every node that takes effect (a local node
      when it is executed, a motion node when the motion side accepts it) or is skipped. */
  datatype Runner = Runner(
    list: seq<Node>, idx: nat, state: State, delay: bool, error: Abort, trail: seq<Visit>)

  datatype Sys = Sys(r: Runner, m: M.Motion)

  /** The preparation of a motion node: it fails, finds nothing to do, or yields the task that the
      motion side builds from the command; `ready` tells whether drives and motion thread are. */
  datatype Preparation = Fails | Skips | Sends(task: M.Task, ready: bool)

  /** What a poll gets from outside: the preparation, whether a local node succeeds, whether a
      warning could be acknowledged, and the planner's answer to a pause. */
  datatype Env = Env(prepared: Preparation, localOk: bool, ackOk: bool, plan: PM.Plan)

  function Current(r: Runner): Node {
    if r.idx < |r.list| then r.list[r.idx] else Undefined
  }

  predicate OnMotion(r: Runner) { IsMotion(Current(r)) }

  function Give(s: Sys, why: Abort): Sys {
    Sys(s.r.(state := Stopped, delay := false, error := why), M.Reset(s.m))
  }

  function End(s: Sys): Sys {
    s.(r := s.r.(state := Stopped, delay := false, error := NoAbort))
  }

  function To(s: Sys, state: State): Sys { s.(r := s.r.(state := state)) }

  function NextNode(s: Sys): Sys {
    var s1 := s.(r := s.r.(idx := s.r.idx + 1));
    if s1.r.idx >= |s1.r.list| then Give(s1, Overflow) else To(s1, NodeIniting)
  }

  function Record(s: Sys, done: bool): Sys { s.(r := s.r.(trail := s.r.trail + [Visit(s.r.idx, done)])) }

  function TakeEffect(s: Sys): Sys { Record(s, true) }

  function Skip(s: Sys): Sys { Record(s, false) }

  // ----- public calls

  /** With an empty list the check reads an element that does not exist.  What happens then is
      undefined; here the run is given up with a reason of its own. */
  function Start(s: Sys, list: seq<Node>, eleparams: set<int>, coords: set<int>): (Sys, bool) {
    if s.r.state != Stopped then (s, false)
    else
      var s1 := s.(r := s.r.(list := list, idx := 0, trail := []));
      if list == [] then (Give(s1, ReadsEmptyList), false)
      else if Startable(list, eleparams, coords) then (To(s1, ReadyToStart), true) else (Give(s1, CheckFailed), false)
  }

  /** `pause()`, given how the motion side would answer. */
  function PauseWith(s: Sys, m: M.Motion, accepted: bool): (Sys, bool) {
    match s.r.state
    case WaitingForResumed => PauseNow(s, m, accepted)
    case Running => PauseNow(s, m, accepted)
    case WaitingForPaused => (s, true)
    case Paused => (s, true)
    case NodeIniting => (s.(r := s.r.(delay := true)), false)
    case _ => (s, false)
  }

  function PauseNow(s: Sys, m: M.Motion, accepted: bool): (Sys, bool) {
    if !OnMotion(s.r) then (To(s, Paused), true)
    else if accepted then (To(s.(m := m), WaitingForPaused), true)
    else (Sys(s.r.(delay := true), m), false)
  }

  function Pause(s: Sys, plan: PM.Plan): (Sys, bool) {
    PauseWith(s, M.Pause(s.m, plan).0, M.Pause(s.m, plan).1)
  }

  function Resume(sqrt: real -> real, s: Sys, plan: PM.Plan): (Sys, bool) {
    match s.r.state
    case Paused =>
      if !OnMotion(s.r) then (To(s, Running), true)
      else
        var (m, ok) := M.Resume(sqrt, s.m, plan);
        if ok then (To(s.(m := m), WaitingForResumed), true) else (s.(m := m), false)
    case WaitingForResumed => (s, true)
    case _ => (s, false)
  }

  /** `stop()`, given how the motion side would answer.  A refusal while a task should be running
      means that it has just ended; then everything is stopped by force. */
  function StopWith(s: Sys, m: M.Motion, accepted: bool): (Sys, bool) {
    match s.r.state
    case NodeIniting => (End(s), true)
    case WaitingForStopped => (s, true)
    case WaitingForPaused =>
      if accepted then (To(s.(m := m), WaitingForStopped), true) else (s.(m := m), false)
    case Stopped => (s, false)
    case ReadyToStart => (s, false)
    case _ =>
      if !OnMotion(s.r) then (End(s), true)
      else if accepted then (To(s.(m := m), WaitingForStopped), true)
      else (End(s.(m := M.Reset(m))), true)
  }

  function StopRun(s: Sys, plan: PM.Plan): (Sys, bool) {
    StopWith(s, M.Stop(s.m, plan).0, M.Stop(s.m, plan).1)
  }

  /** The emergency stop is always accepted. */
  function EmergencyStop(s: Sys): Sys {
    if s.r.state == Stopped then Sys(s.r.(delay := false), M.Reset(s.m)) else Give(s, Estop)
  }

  // ----- one poll

  function InitNode(s: Sys, env: Env): Sys {
    var node := Current(s.r);
    if !IsMotion(node) then To(s, Running)
    else if !Executable(node) then s.(r := s.r.(error := UnknownKind))
    else
      match env.prepared
      case Fails => Give(s, NodeFailed)
      case Skips => NextNode(Skip(s))
      case Sends(task, ready) =>
        var (m, ok) := M.Launch(s.m, task, ready);
        if ok then To(TakeEffect(s.(m := m)), Running) else Give(s.(m := m), NodeFailed)
  }

  function RunLocal(s: Sys, env: Env): Sys {
    match Current(s.r)
    case ProgramEnd => End(TakeEffect(s))
    case CoordIndex(_) => if env.localOk then NextNode(TakeEffect(s)) else Give(s, LocalFailed)
    case EleparamSet(_) => if env.localOk then NextNode(TakeEffect(s)) else Give(s, LocalFailed)
    case CoordSetZero => if env.localOk then NextNode(TakeEffect(s)) else Give(s, LocalFailed)
    case CoordMode => NextNode(TakeEffect(s))
    case FeedSpeed => NextNode(TakeEffect(s))
    case _ => s.(r := s.r.(error := UnknownKind))
  }

  function RunMotion(s: Sys, env: Env): Sys {
    match s.m.mode
    case Auto => if s.m.auto == M.Paused then s.(r := s.r.(state := Paused, delay := false)) else s
    case Manual => Give(s, ManualSeen)
    case Idle =>
      if Current(s.r).G00? && s.m.warning then
        if !Current(s.r).touch then Give(s, TouchWarning)
        else if !env.ackOk then Give(s, AckFailed)
        else NextNode(s.(m := s.m.(warning := false)))
      else NextNode(s)
  }

  function WaitPaused(s: Sys): Sys {
    if s.m.mode != M.Auto then Give(s, NotPausing)
    else match s.m.auto
         case Paused => s.(r := s.r.(state := Paused, delay := false))
         case Pausing => s
         case _ => Give(s, NotPausing)
  }

  function WaitResumed(s: Sys): Sys {
    match s.m.mode
    case Idle => To(s, Running)
    case Manual => Give(s, NotResuming)
    case Auto =>
      match s.m.auto
      case Normal => To(s, Running)
      case Stopping => To(s, Running)
      case Stopped => To(s, Running)
      case Paused => s
      case Resuming => s
      case Pausing => Give(s, NotResuming)
  }

  function WaitStopped(s: Sys): Sys {
    match s.m.mode
    case Idle => End(s)
    case Manual => Give(s, NotStopping)
    case Auto =>
      match s.m.auto
      case Stopping => s
      case Stopped => End(s)
      case _ => Give(s, NotStopping)
  }

  function Dispatch(s: Sys, env: Env): Sys {
    match s.r.state
    case ReadyToStart => To(s, NodeIniting)
    case NodeIniting => InitNode(s, env)
    case Running => if OnMotion(s.r) then RunMotion(s, env) else RunLocal(s, env)
    case WaitingForPaused => WaitPaused(s)
    case WaitingForResumed => WaitResumed(s)
    case WaitingForStopped => WaitStopped(s)
    case Paused => s
    case Stopped => s
  }

  /** A remembered pause is tried again at the end of every poll. */
  function Settle(s: Sys, plan: PM.Plan): Sys {
    if !s.r.delay then s
    else
      var (t, ok) := Pause(s, plan);
      if ok then t.(r := t.r.(delay := false)) else t
  }

  function Poll(s: Sys, env: Env): Sys { Settle(Dispatch(s, env), env.plan) }

  // ----- everything that can happen

  datatype Event =
    | UserStart(list: seq<Node>, eleparams: set<int>, coords: set<int>)
    | UserPause(plan: PM.Plan) | UserResume(plan: PM.Plan) | UserStop(plan: PM.Plan) | UserEstop
    | Polled(env: Env)
    | Cycle(inp: M.Input)
    | StartJog(target: Axis, detect: bool, plan: PM.Plan) | StopJog(immediate: bool, plan: PM.Plan)

  /** Jogs are let through only when no program runs or the program is paused. */
  function Step(sqrt: real -> real, s: Sys, e: Event): Sys {
    match e
    case UserStart(list, eleparams, coords) => Start(s, list, eleparams, coords).0
    case UserPause(plan) => Pause(s, plan).0
    case UserResume(plan) => Resume(sqrt, s, plan).0
    case UserStop(plan) => StopRun(s, plan).0
    case UserEstop => EmergencyStop(s)
    case Polled(env) => Poll(s, env)
    case Cycle(inp) => s.(m := M.Tick(sqrt, s.m, inp))
    case StartJog(target, detect, plan) =>
      if s.r.state in {Stopped, Paused} then s.(m := M.StartJog(sqrt, s.m, target, detect, plan).0) else s
    case StopJog(immediate, plan) => s.(m := M.StopJog(s.m, immediate, plan).0)
  }

  function Exec(sqrt: real -> real, s: Sys, es: seq<Event>): Sys
    decreases |es|
  {
    if es == [] then s else Exec(sqrt, Step(sqrt, s, es[0]), es[1..])
  }

  lemma {:induction false} ExecSnoc(sqrt: real -> real, s: Sys, es: seq<Event>, e: Event)
    ensures Exec(sqrt, s, es + [e]) == Step(sqrt, Exec(sqrt, s, es), e)
    decreases |es|
  {
    if es == [] {
      assert [] + [e] == [e];
    } else {
      ExecSnoc(sqrt, Step(sqrt, s, es[0]), es[1..], e);
      assert (es + [e])[1..] == es[1..] + [e];
    }
  }

  /** Programs come from the converter; a prepared task is the one its node asks for, as its
      constructor leaves it; jump buffers are not negative. */
  ghost predicate ValidEvent(s: Sys, e: Event) {
    match e
    case UserStart(list, _, _) => forall n | n in list :: Executable(n)
    case Polled(env) =>
      env.prepared.Sends? ==> M.Fresh(env.prepared.task, s.m.cmd) && Builds(Current(s.r), M.KindOf(env.prepared.task))
    case Cycle(inp) => inp.g01.jump.buffer >= 0.0
    case _ => true
  }

  predicate Builds(n: Node, k: M.Kind) {
    match k
    case KG00 => n.G00?
    case KG01 => n.G01?
    case KG04 => n.Delay?
    case KM00 => n.PauseNode?
    case KGroup => n.G01Group?
  }

  ghost predicate ValidRun(sqrt: real -> real, s: Sys, es: seq<Event>)
    decreases |es|
  {
    es == [] || (ValidEvent(s, es[0]) && ValidRun(sqrt, Step(sqrt, s, es[0]), es[1..]))
  }
}
