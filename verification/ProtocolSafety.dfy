/** Soft limits and protocol together: in every run of interpreter and motion side whose G01 nodes are
    prepared by the interpreter's own computation, what a driving G01 task commands is inside. */
module ProtocolSafety {
  import opened Axes
  import opened SoftLimit
  import opened MoveTargets
  import opened RunnerMachine
  import opened RunnerProperties
  import GS = G01Safety
  import M = Motion
  import G = G01Machine
  import PM = PointMove
  import PR = Protocol

  /** A G01 task built for a node: its line is the motor image of a machine line whose target and
      headroom passed the interpreter's checks, if it starts inside the limits. */
  ghost predicate Built(l: Limits, g: Axis, x: M.Task) {
    x.G01? ==> exists target: Axis :: BuiltFor(l, g, x, target)
  }

  ghost predicate BuiltFor(l: Limits, g: Axis, x: M.Task, target: Axis)
    requires x.G01?
  {
    var start, n := Sub(x.start, g), x.line.total;
    && G.ValidLine(x.line) && x.dir == UnitVector(start, target, n)
    && (Inside(l, start) ==> GS.Accepted(l, start, target, n, x.line.headroom))
  }

  /** The preparation of a G01 node, from the motor position to the task the motion thread builds: a
      fresh task on a line that is built for the node. */
  method PrepareTask(
    sqrt: real -> real, l: Limits, g: Axis, cmd: Axis, offset: Axis, mode: CoordMode, values: CmdValues,
    backStep: real, now: int, jump: G.JumpParam, ready: bool) returns (p: Preparation)
    requires IsSqrt(sqrt) && backStep > 0.0
    ensures var start := Sub(cmd, g); var q := Requested(mode, values, start, offset);
      (p == Skips <==> q == start) && (p == Fails <==> Beyond(l, start, q))
    ensures p.Sends? ==>
      var q := Requested(mode, values, Sub(cmd, g), offset);
      && p.task.G01? && BuiltFor(l, g, p.task, q) && IsLength(Sub(q, Sub(cmd, g)), p.task.line.total)
      && Along(cmd, p.task.dir, p.task.line.total) == Plus(q, g)
    ensures p.Sends? ==>
      p.task.G01? && p.task.start == cmd && p.ready == ready && M.Fresh(p.task, cmd) && Built(l, g, p.task)
  {
    var start := Sub(cmd, g);
    var prepared := PrepareG01(sqrt, l, start, offset, mode, values);
    match prepared {
      case NextNode => return Skips;
      case LimitAbort => return Fails;
      case Send(target, headroom) =>
        assert Plus(start, g) == cmd;
        var n := CalcAxisLength(sqrt, Sub(Plus(target, g), cmd));
        GS.ShiftedLine(start, target, g, 1.0, 0.0);
        DifferentHavePositiveLength(start, target, n);
        GS.ShiftedLine(start, target, g, n, 0.0);
        var dir := UnitVector(cmd, Plus(target, g), n);
        var x := M.G01(cmd, dir, G.Line(n, headroom, backStep), G.Init(now, jump));
        AlongZero(cmd, dir);
        assert BuiltFor(l, g, x, target);
        UnitVectorIsUnit(cmd, Plus(target, g), n);
        p := Sends(x, ready);
    }
  }

  // ----- runs

  ghost predicate Lawful(l: Limits, g: Axis, s: Sys, e: Event) {
    ValidEvent(s, e) && (e.Polled? && e.env.prepared.Sends? ==> Built(l, g, e.env.prepared.task))
  }

  ghost predicate LawfulRun(sqrt: real -> real, l: Limits, g: Axis, s: Sys, es: seq<Event>)
    decreases |es|
  {
    es == [] || (Lawful(l, g, s, es[0]) && LawfulRun(sqrt, l, g, Step(sqrt, s, es[0]), es[1..]))
  }

  ghost predicate OnBuiltLine(l: Limits, g: Axis, m: M.Motion) { m.mode == M.Auto ==> Built(l, g, m.task) }

  /** The line of a G01 task, which nothing but a new task changes. */
  predicate SameLine(x: M.Task, y: M.Task) {
    y.G01? ==> x.G01? && x.start == y.start && x.dir == y.dir && x.line == y.line
  }

  lemma SameLineBuilt(l: Limits, g: Axis, x: M.Task, y: M.Task)
    requires Built(l, g, x) && SameLine(x, y)
    ensures Built(l, g, y)
  {
    if y.G01? {
      var target: Axis :| BuiltFor(l, g, x, target);
      assert BuiltFor(l, g, y, target);
    }
  }

  lemma TaskKeepsLine(x: M.Task, touched: bool, inp: M.Input, plan: PM.Plan)
    ensures SameLine(x, M.RunTask(x, touched, inp)) && SameLine(x, M.PauseTask(x, plan).0)
    ensures SameLine(x, M.ResumeTask(x, plan).0) && SameLine(x, M.StopTask(x, plan).0)
  { }

  lemma AutoKeepsLine(sqrt: real -> real, m: M.Motion, inp: M.Input)
    ensures SameLine(m.task, M.AutoOnce(sqrt, m, inp).task)
  {
    TaskKeepsLine(m.task, m.task.G00? && M.Touched(m.task.detect, m.warning, inp.contact), inp, inp.plan);
    assert M.DrivePauseMove(sqrt, m, inp).task == m.task;
  }

  lemma TickKeepsLine(sqrt: real -> real, m: M.Motion, inp: M.Input)
    ensures SameLine(m.task, M.Tick(sqrt, m, inp).task)
    ensures M.Tick(sqrt, m, inp).mode == M.Auto ==> m.mode == M.Auto
  {
    if m.mode == M.Auto { AutoKeepsLine(sqrt, m, inp); }
  }

  lemma PauseKeepsLine(m: M.Motion, plan: PM.Plan)
    ensures SameLine(m.task, M.Pause(m, plan).0.task) && M.Pause(m, plan).0.mode == m.mode
  { }

  lemma ResumeKeepsLine(sqrt: real -> real, m: M.Motion, plan: PM.Plan)
    ensures M.Resume(sqrt, m, plan).0.task == m.task && M.Resume(sqrt, m, plan).0.mode == m.mode
  { }

  lemma StopKeepsLine(m: M.Motion, plan: PM.Plan)
    ensures SameLine(m.task, M.Stop(m, plan).0.task) && M.Stop(m, plan).0.mode == m.mode
  { }

  /** A change of the motion side that starts no task. */
  lemma StaysOnLine(l: Limits, g: Axis, m: M.Motion, n: M.Motion)
    requires OnBuiltLine(l, g, m) && SameLine(m.task, n.task) && (n.mode == M.Auto ==> m.mode == M.Auto)
    ensures OnBuiltLine(l, g, n)
  {
    if n.mode == M.Auto { SameLineBuilt(l, g, m.task, n.task); }
  }

  lemma PollOnLine(l: Limits, g: Axis, s: Sys, env: Env)
    requires OnBuiltLine(l, g, s.m) && Lawful(l, g, s, Polled(env))
    ensures OnBuiltLine(l, g, Poll(s, env).m)
  {
    var t := Dispatch(s, env);
    DispatchMotion(s, env);
    assert OnBuiltLine(l, g, t.m);
    PauseKeepsLine(t.m, env.plan);
    PR.CallsTouchMotion(t, M.Pause(t.m, env.plan).0, M.Pause(t.m, env.plan).1);
    StaysOnLine(l, g, t.m, M.Pause(t.m, env.plan).0);
  }

  lemma StepOnLine(sqrt: real -> real, l: Limits, g: Axis, s: Sys, e: Event)
    requires OnBuiltLine(l, g, s.m) && Lawful(l, g, s, e)
    ensures OnBuiltLine(l, g, Step(sqrt, s, e).m)
  {
    match e
    case Polled(env) => PollOnLine(l, g, s, env);
    case Cycle(inp) =>
      TickKeepsLine(sqrt, s.m, inp);
      StaysOnLine(l, g, s.m, M.Tick(sqrt, s.m, inp));
    case UserPause(plan) =>
      PauseKeepsLine(s.m, plan);
      PR.CallsTouchMotion(s, M.Pause(s.m, plan).0, M.Pause(s.m, plan).1);
      StaysOnLine(l, g, s.m, M.Pause(s.m, plan).0);
    case UserStop(plan) =>
      StopKeepsLine(s.m, plan);
      PR.CallsTouchMotion(s, M.Stop(s.m, plan).0, M.Stop(s.m, plan).1);
      StaysOnLine(l, g, s.m, M.Stop(s.m, plan).0);
    case UserResume(plan) =>
      ResumeKeepsLine(sqrt, s.m, plan);
      StaysOnLine(l, g, s.m, M.Resume(sqrt, s.m, plan).0);
    case _ =>
  }

  lemma {:induction false} RunOnLine(sqrt: real -> real, l: Limits, g: Axis, s: Sys, es: seq<Event>)
    requires IsSqrt(sqrt) && Inv(s) && OnBuiltLine(l, g, s.m) && LawfulRun(sqrt, l, g, s, es)
    ensures Inv(Exec(sqrt, s, es)) && OnBuiltLine(l, g, Exec(sqrt, s, es).m)
    decreases |es|
  {
    if es != [] {
      StepInv(sqrt, s, es[0]);
      StepOnLine(sqrt, l, g, s, es[0]);
      RunOnLine(sqrt, l, g, Step(sqrt, s, es[0]), es[1..]);
    }
  }

  /** A G01 task moves the axes: it is neither paused nor stopped, and no jog is being retraced. */
  predicate Drives(m: M.Motion) {
    m.mode == M.Auto && m.task.G01? && !m.recovering && m.auto !in {M.Paused, M.Stopped}
  }

  /** Over every program and every interleaving: a driving G01 task whose line began inside the limits
      commands only positions inside them, and its jumps turn 100 um short of the first limit. */
  lemma DrivingStaysInside(sqrt: real -> real, l: Limits, g: Axis, s0: Sys, es: seq<Event>)
    requires IsSqrt(sqrt) && PR.Initial(s0) && LawfulRun(sqrt, l, g, s0, es)
    ensures var m := Exec(sqrt, s0, es).m;
      Drives(m) && Inside(l, Sub(m.task.start, g)) ==>
        && Inside(l, Sub(m.cmd, g))
        && GS.WithinLimits(l, m.task.start, g, m.task.dir, m.task.t)
  {
    RunOnLine(sqrt, l, g, s0, es);
    var m := Exec(sqrt, s0, es).m;
    if Drives(m) && Inside(l, Sub(m.task.start, g)) { BuiltStaysInside(l, g, m.task); }
  }

  lemma BuiltStaysInside(l: Limits, g: Axis, x: M.Task)
    requires x.G01? && Built(l, g, x) && M.SoundTask(x) && Inside(l, Sub(x.start, g))
    ensures GS.WithinLimits(l, x.start, g, x.dir, x.t)
  {
    var target: Axis :| BuiltFor(l, g, x, target);
    var start := Sub(x.start, g);
    assert Plus(start, g) == x.start;
    GS.InvWithinLimits(l, start, target, g, x.line.total, x.line, x.t);
  }
}
