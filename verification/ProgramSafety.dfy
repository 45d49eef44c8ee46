/** Soft limits of whole programs: a program of G00, G01, G04 and M00 nodes and local nodes, run
    without jogs from a position inside the limits, commands nothing outside them. */
module ProgramSafety {
  import opened Axes
  import opened SoftLimit
  import opened MoveTargets
  import opened GCodeProgram
  import opened RunnerMachine
  import opened RunnerProperties
  import opened ProtocolSafety
  import GS = G01Safety
  import M = Motion
  import PC = PauseMove
  import PM = PointMove
  import PR = Protocol

  // ----- tasks that stay inside

  /** A straight move between two points inside the limits. */
  ghost predicate MoveInside(l: Limits, g: Axis, h: PM.Handler) {
    && h.dist > 0.0 && IsLength(Sub(h.to, h.from), h.dist)
    && Inside(l, Sub(h.from, g)) && Inside(l, Sub(h.to, g))
  }

  ghost predicate TaskInside(l: Limits, g: Axis, x: M.Task) {
    match x
    case G01(start, _, _, _) => Built(l, g, x) && Inside(l, Sub(start, g))
    case G00(h, _) => MoveInside(l, g, h)
    case G04(pos, _, _) => Inside(l, Sub(pos, g))
    case M00(pos, _) => Inside(l, Sub(pos, g))
    case Group(_, _) => false
  }

  /** Every position of a straight move between points inside the limits is inside. */
  lemma MoveStaysInside(l: Limits, g: Axis, h: PM.Handler)
    requires MoveInside(l, g, h) && 0.0 <= h.mv.gone <= h.dist
    ensures Inside(l, Sub(PM.Position(h), g))
  {
    var start, target := Sub(h.from, g), Sub(h.to, g);
    assert Plus(start, g) == h.from && Plus(target, g) == h.to;
    GS.ShiftedLine(start, target, g, h.dist, h.mv.gone);
    var dir := UnitVector(start, target, h.dist);
    UnitVectorIsUnit(start, target, h.dist);
    AlongZero(start, dir);
    InsideBetween(l, start, dir, 0.0, h.dist, h.mv.gone);
  }

  lemma PosInside(l: Limits, g: Axis, x: M.Task)
    requires TaskInside(l, g, x) && M.SoundTask(x)
    ensures Inside(l, Sub(M.Pos(x), g))
  {
    match x
    case G01(_, _, _, _) => BuiltStaysInside(l, g, x);
    case G00(h, _) => MoveStaysInside(l, g, h);
    case _ =>
  }

  /** What a task keeps for as long as it exists: its line, its move, its place. */
  predicate SamePath(x: M.Task, y: M.Task) {
    match x
    case G01(start, dir, line, _) => y.G01? && y.start == start && y.dir == dir && y.line == line
    case G00(h, _) => y.G00? && y.h.from == h.from && y.h.to == h.to && y.h.dist == h.dist
    case G04(pos, _, _) => y.G04? && y.pos == pos
    case M00(pos, _) => y.M00? && y.pos == pos
    case Group(_, _) => y.Group?
  }

  lemma SamePathInside(l: Limits, g: Axis, x: M.Task, y: M.Task)
    requires TaskInside(l, g, x) && SamePath(x, y)
    ensures TaskInside(l, g, y)
  {
    if x.G01? { SameLineBuilt(l, g, x, y); }
  }

  lemma RunKeepsPath(x: M.Task, touched: bool, inp: M.Input)
    ensures SamePath(x, M.RunTask(x, touched, inp))
  { }

  lemma CommandsKeepPath(x: M.Task, plan: PM.Plan)
    ensures SamePath(x, M.PauseTask(x, plan).0)
    ensures SamePath(x, M.ResumeTask(x, plan).0)
    ensures SamePath(x, M.StopTask(x, plan).0)
  { }

  // ----- the preparation of rapid moves

  /** The preparation of a G00 node, from the motor position to the task: a fresh move from there that
      ends inside the limits if it begins inside. */
  method PrepareRapid(
    sqrt: real -> real, l: Limits, g: Axis, cmd: Axis, offset: Axis, mode: CoordMode, values: CmdValues,
    touch: bool, detect: bool, plan: PM.Plan, ready: bool) returns (p: Preparation)
    requires IsSqrt(sqrt)
    ensures var start := Sub(cmd, g); var q := Requested(mode, values, start, offset);
      && (p == Fails <==> Beyond(l, start, q) && !touch)
      && (p == Skips <==>
            || q == start
            || (touch && Beyond(l, start, q) && exists i | 0 <= i < AXIS_NUM :: !Free(l, start, Sub(q, start), i)))
    ensures p.Sends? ==>
      var start := Sub(cmd, g); var q := Requested(mode, values, start, offset);
      && p.task.G00?
      && (!Beyond(l, start, q) ==> p.task.h.to == Plus(q, g))
      && (Inside(l, start) && !Inside(l, q) ==> LastInside(l, start, q, Sub(p.task.h.to, g)))
    ensures p.Sends? ==> p.task.G00? && p.ready == ready && M.Fresh(p.task, cmd) && BuiltAt(l, g, p.task, cmd)
  {
    var start := Sub(cmd, g);
    var prepared := PrepareG00(sqrt, l, start, offset, mode, values, touch);
    match prepared {
      case NextNode => return Skips;
      case LimitAbort => return Fails;
      case Send(target, _) =>
        var x := BuildRapid(sqrt, l, g, cmd, target, detect, plan);
        p := Sends(x, ready);
    }
  }

  /** `start_auto_g00`: the move from the motor position to the motor image of the target. */
  method BuildRapid(
    sqrt: real -> real, ghost l: Limits, g: Axis, cmd: Axis, target: Axis, detect: bool, plan: PM.Plan)
    returns (x: M.Task)
    requires IsSqrt(sqrt) && target != Sub(cmd, g) && (Inside(l, Sub(cmd, g)) ==> Inside(l, target))
    ensures x.G00? && M.Fresh(x, cmd) && BuiltAt(l, g, x, cmd) && x.h.to == Plus(target, g)
    ensures Sub(x.h.to, g) == target
  {
    var motorTarget := Plus(target, g);
    assert Sub(motorTarget, g) == target;
    var dist := CalcAxisLength(sqrt, Sub(motorTarget, cmd));
    DifferentHavePositiveLength(cmd, motorTarget, dist);
    x := M.G00(PM.StartHandler(cmd, motorTarget, dist, plan), detect);
  }

  /** A task as the interpreter's preparation has it built at motor position `cmd`. */
  ghost predicate BuiltAt(l: Limits, g: Axis, x: M.Task, cmd: Axis) {
    match x
    case G01(start, _, _, _) => Built(l, g, x) && start == cmd
    case G00(h, _) =>
      && h.from == cmd && h.dist > 0.0 && IsLength(Sub(h.to, h.from), h.dist)
      && (Inside(l, Sub(cmd, g)) ==> Inside(l, Sub(h.to, g)))
    case _ => true
  }

  // ----- runs

  /** No jogs, no groups, and tasks as the preparation has them built. */
  ghost predicate Strict(l: Limits, g: Axis, s: Sys, e: Event) {
    && ValidEvent(s, e) && !e.StartJog?
    && (e.Polled? && e.env.prepared.Sends? ==>
          !e.env.prepared.task.Group? && BuiltAt(l, g, e.env.prepared.task, s.m.cmd))
  }

  ghost predicate StrictRun(sqrt: real -> real, l: Limits, g: Axis, s: Sys, es: seq<Event>)
    decreases |es|
  {
    es == [] || (Strict(l, g, s, es[0]) && StrictRun(sqrt, l, g, Step(sqrt, s, es[0]), es[1..]))
  }

  /** Nothing was jogged: a paused program has nothing recorded, and there is no way back. */
  ghost predicate Quiet(m: M.Motion) {
    && (m.recovering ==> m.pmc.state in {PC.RecoverOver, PC.OutsideStopped})
    && (!m.recovering && m.auto == M.Paused ==> m.pmc.state == PC.AllowManual && m.pmc.stack == [])
  }

  ghost predicate Safe(l: Limits, g: Axis, m: M.Motion) {
    && Inside(l, Sub(m.cmd, g)) && m.mode != M.Manual
    && (m.mode == M.Auto ==> TaskInside(l, g, m.task) && Quiet(m))
  }

  lemma HeldSafe(sqrt: real -> real, l: Limits, g: Axis, m: M.Motion, inp: M.Input)
    requires M.Inv(m) && Safe(l, g, m) && m.mode == M.Auto && (m.recovering || m.auto == M.Paused)
    ensures Safe(l, g, M.Tick(sqrt, m, inp))
  {
    CommandsKeepPath(m.task, inp.plan);
    SamePathInside(l, g, m.task, M.ResumeTask(m.task, inp.plan).0);
    assert M.DrivePauseMove(sqrt, m, inp).pmc == m.pmc && M.DrivePauseMove(sqrt, m, inp).cmd == m.cmd;
  }

  lemma DrivenSafe(sqrt: real -> real, l: Limits, g: Axis, m: M.Motion, inp: M.Input)
    requires M.Inv(m) && Safe(l, g, m) && m.mode == M.Auto && !m.recovering && m.auto !in {M.Paused, M.Stopped}
    requires inp.g01.jump.buffer >= 0.0
    ensures Safe(l, g, M.Tick(sqrt, m, inp))
  {
    var touched := m.task.G00? && M.Touched(m.task.detect, m.warning, inp.contact);
    var x := M.RunTask(m.task, touched, inp);
    RunKeepsPath(m.task, touched, inp);
    SamePathInside(l, g, m.task, x);
    M.RunTaskKeeps(m.task, touched, inp);
    PosInside(l, g, x);
    assert M.Drive(m, inp).task == x && M.Drive(m, inp).cmd == M.Pos(x);
  }

  lemma TickSafe(sqrt: real -> real, l: Limits, g: Axis, m: M.Motion, inp: M.Input)
    requires M.Inv(m) && Safe(l, g, m) && inp.g01.jump.buffer >= 0.0
    ensures Safe(l, g, M.Tick(sqrt, m, inp))
  {
    if m.mode == M.Auto {
      if m.recovering || m.auto == M.Paused {
        HeldSafe(sqrt, l, g, m, inp);
      } else if m.auto != M.Stopped {
        DrivenSafe(sqrt, l, g, m, inp);
      }
    }
  }

  /** A change of the motion side that moves nothing. */
  lemma StandsSafe(l: Limits, g: Axis, m: M.Motion, n: M.Motion)
    requires Safe(l, g, m) && n.cmd == m.cmd && n.mode == m.mode
    requires n.mode == M.Auto ==> SamePath(m.task, n.task) && Quiet(n)
    ensures Safe(l, g, n)
  {
    if m.mode == M.Auto { SamePathInside(l, g, m.task, n.task); }
  }

  lemma PauseQuiet(m: M.Motion, plan: PM.Plan)
    requires M.Inv(m) && m.mode == M.Auto && Quiet(m)
    ensures var n := M.Pause(m, plan).0;
      n.cmd == m.cmd && n.mode == m.mode && SamePath(m.task, n.task) && Quiet(n)
  {
    CommandsKeepPath(m.task, plan);
  }

  lemma PauseSafe(l: Limits, g: Axis, m: M.Motion, plan: PM.Plan)
    requires M.Inv(m) && Safe(l, g, m)
    ensures Safe(l, g, M.Pause(m, plan).0)
  {
    if m.mode == M.Auto { PauseQuiet(m, plan); }
    StandsSafe(l, g, m, M.Pause(m, plan).0);
  }

  lemma StopQuiet(m: M.Motion, plan: PM.Plan)
    requires M.Inv(m) && m.mode == M.Auto && Quiet(m)
    ensures var n := M.Stop(m, plan).0;
      n.cmd == m.cmd && n.mode == m.mode && SamePath(m.task, n.task) && Quiet(n)
  {
    CommandsKeepPath(m.task, plan);
  }

  lemma StopSafe(l: Limits, g: Axis, m: M.Motion, plan: PM.Plan)
    requires M.Inv(m) && Safe(l, g, m)
    ensures Safe(l, g, M.Stop(m, plan).0)
  {
    if m.mode == M.Auto { StopQuiet(m, plan); }
    StandsSafe(l, g, m, M.Stop(m, plan).0);
  }

  lemma ResumeSafe(sqrt: real -> real, l: Limits, g: Axis, m: M.Motion, plan: PM.Plan)
    requires M.Inv(m) && Safe(l, g, m)
    ensures Safe(l, g, M.Resume(sqrt, m, plan).0)
  { }

  lemma LaunchSafe(l: Limits, g: Axis, m: M.Motion, x: M.Task, ready: bool)
    requires Safe(l, g, m) && M.Fresh(x, m.cmd) && BuiltAt(l, g, x, m.cmd) && !x.Group?
    ensures Safe(l, g, M.Launch(m, x, ready).0)
  { }

  lemma PollSafe(l: Limits, g: Axis, s: Sys, env: Env)
    requires M.Inv(s.m) && Safe(l, g, s.m) && Strict(l, g, s, Polled(env))
    ensures Safe(l, g, Poll(s, env).m)
  {
    var t := Dispatch(s, env);
    DispatchMotion(s, env);
    if env.prepared.Sends? {
      M.LaunchKeeps(s.m, env.prepared.task, env.prepared.ready);
      LaunchSafe(l, g, s.m, env.prepared.task, env.prepared.ready);
    }
    assert Safe(l, g, t.m) && M.Inv(t.m);
    PauseSafe(l, g, t.m, env.plan);
    PR.CallsTouchMotion(t, M.Pause(t.m, env.plan).0, M.Pause(t.m, env.plan).1);
  }

  lemma StopWithSafe(l: Limits, g: Axis, s: Sys, m: M.Motion, accepted: bool)
    requires Safe(l, g, s.m) && Safe(l, g, m)
    ensures Safe(l, g, StopWith(s, m, accepted).0.m)
  { }

  lemma StepSafe(sqrt: real -> real, l: Limits, g: Axis, s: Sys, e: Event)
    requires M.Inv(s.m) && Safe(l, g, s.m) && Strict(l, g, s, e)
    ensures Safe(l, g, Step(sqrt, s, e).m)
  {
    match e
    case Polled(env) => PollSafe(l, g, s, env);
    case Cycle(inp) => TickSafe(sqrt, l, g, s.m, inp);
    case UserPause(plan) =>
      PauseSafe(l, g, s.m, plan);
      PR.CallsTouchMotion(s, M.Pause(s.m, plan).0, M.Pause(s.m, plan).1);
    case UserStop(plan) =>
      StopSafe(l, g, s.m, plan);
      StopWithSafe(l, g, s, M.Stop(s.m, plan).0, M.Stop(s.m, plan).1);
    case UserResume(plan) => ResumeCallSafe(sqrt, l, g, s, plan);
    case UserStart(list, eleparams, coords) => StartSafe(l, g, s, list, eleparams, coords);
    case StopJog(immediate, plan) => StopJogSafe(l, g, s.m, immediate, plan);
    case _ =>
  }

  lemma ResumeCallSafe(sqrt: real -> real, l: Limits, g: Axis, s: Sys, plan: PM.Plan)
    requires M.Inv(s.m) && Safe(l, g, s.m)
    ensures Safe(l, g, Resume(sqrt, s, plan).0.m)
  {
    ResumeSafe(sqrt, l, g, s.m, plan);
  }

  lemma StartSafe(l: Limits, g: Axis, s: Sys, list: seq<Node>, eleparams: set<int>, coords: set<int>)
    requires Safe(l, g, s.m)
    ensures Safe(l, g, Start(s, list, eleparams, coords).0.m)
  { }

  lemma StopJogSafe(l: Limits, g: Axis, m: M.Motion, immediate: bool, plan: PM.Plan)
    requires Safe(l, g, m)
    ensures Safe(l, g, M.StopJog(m, immediate, plan).0)
  { }

  lemma {:induction false} RunSafe(sqrt: real -> real, l: Limits, g: Axis, s: Sys, es: seq<Event>)
    requires IsSqrt(sqrt) && Inv(s) && Safe(l, g, s.m) && StrictRun(sqrt, l, g, s, es)
    ensures Safe(l, g, Exec(sqrt, s, es).m)
    decreases |es|
  {
    if es != [] {
      StepInv(sqrt, s, es[0]);
      StepSafe(sqrt, l, g, s, es[0]);
      RunSafe(sqrt, l, g, Step(sqrt, s, es[0]), es[1..]);
    }
  }

  /** Every position commanded in such a run is inside the limits, whatever is paused, resumed, stopped
      and restarted, at every moment. */
  lemma WholeProgramStaysInside(sqrt: real -> real, l: Limits, g: Axis, s0: Sys, es: seq<Event>)
    requires IsSqrt(sqrt) && PR.Initial(s0) && Inside(l, Sub(s0.m.cmd, g)) && StrictRun(sqrt, l, g, s0, es)
    ensures Inside(l, Sub(Exec(sqrt, s0, es).m.cmd, g))
  {
    RunSafe(sqrt, l, g, s0, es);
  }
}
