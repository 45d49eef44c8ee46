/** Soft-limit safety of a G01 node from its acceptance by the interpreter to its last cycle. */
module G01Safety {
  import opened Common
  import opened Axes
  import opened SoftLimit
  import opened MoveTargets
  import opened Trajectory
  import opened G01Machine
  import opened G01Properties
  import TaskClass = G01AutoTask

  /** What acceptance establishes: both ends of a line of length `n` are inside the limits, and
      exactly `headroom` units of its backward extension are. */
  ghost predicate Accepted(l: Limits, start: Axis, target: Axis, n: real, headroom: real) {
    && IsLength(Sub(target, start), n) && n > 0.0
    && Inside(l, start) && Inside(l, target)
    && ReachIs(l, start, Scale(UnitVector(start, target, n), -1.0), headroom)
  }

  /** Every point of an accepted line is inside the limits, and so is its backward extension up to
      the headroom and not beyond it. */
  lemma LineInside(l: Limits, start: Axis, target: Axis, n: real, headroom: real, x: real)
    requires Accepted(l, start, target, n, headroom) && x <= n
    ensures Inside(l, Along(start, UnitVector(start, target, n), x)) <==> -headroom <= x
  {
    var dir := UnitVector(start, target, n);
    UnitVectorIsUnit(start, target, n);
    AlongZero(start, dir);
    if x >= 0.0 {
      InsideBetween(l, start, dir, 0.0, n, x);
    } else {
      var back := -x;
      AlongReversed(start, dir, 0.0, back);
      assert Along(start, Scale(dir, -1.0), back) == Along(start, dir, x);
    }
  }

  /** The motor line is the machine line shifted by the global offset. */
  lemma ShiftedLine(start: Axis, target: Axis, g: Axis, n: real, x: real)
    requires n > 0.0
    ensures Sub(Plus(target, g), Plus(start, g)) == Sub(target, start)
    ensures UnitVector(Plus(start, g), Plus(target, g), n) == UnitVector(start, target, n)
    ensures Sub(Along(Plus(start, g), UnitVector(start, target, n), x), g)
      == Along(start, UnitVector(start, target, n), x)
  {
    assert Sub(Plus(target, g), Plus(start, g)) == Sub(target, start);
  }

  /** The machine position a task commands and the limits it keeps: the position is inside, and
      while a jump is going up or down even the point 100 um behind its turning point is. */
  ghost predicate WithinLimits(l: Limits, motorStart: Axis, g: Axis, dir: Axis, t: Task) {
    && Inside(l, Sub(Along(motorStart, dir, t.cmd), g))
    && (t.servo in {JumpUping, JumpDowning} ==> Inside(l, Sub(Along(motorStart, dir, t.upTarget - LIMIT_GAP), g)))
  }

  lemma InvWithinLimits(l: Limits, start: Axis, target: Axis, g: Axis, n: real, c: Line, t: Task)
    requires Accepted(l, start, target, n, c.headroom) && c.total == n && ValidLine(c) && Inv(c, t)
    ensures WithinLimits(l, Plus(start, g), g, UnitVector(start, target, n), t)
  {
    InvSafe(c, t);
    LineInside(l, start, target, n, c.headroom, t.cmd);
    ShiftedLine(start, target, g, n, t.cmd);
    if t.servo in {JumpUping, JumpDowning} {
      LineInside(l, start, target, n, c.headroom, t.upTarget - LIMIT_GAP);
      ShiftedLine(start, target, g, n, t.upTarget - LIMIT_GAP);
    }
  }

  /** For every accepted node and every sequence of cycles, pauses, resumes and stops, everything
      commanded is inside the soft limits, and every jump, also one past the start point, turns at
      least 100 um short of the first limit. */
  lemma EveryRunWithinLimits(
    l: Limits, start: Axis, target: Axis, g: Axis, n: real, c: Line, now: int, jump: JumpParam, es: seq<Event>)
    requires Accepted(l, start, target, n, c.headroom) && c.total == n && c.backStep > 0.0
    requires ValidEvents(es)
    ensures WithinLimits(l, Plus(start, g), g, UnitVector(start, target, n), Exec(c, Init(now, jump), es))
  {
    InitInv(c, now, jump);
    ExecInv(c, Init(now, jump), es);
    InvWithinLimits(l, start, target, g, n, c, Exec(c, Init(now, jump), es));
  }

  /** One event on the task object. */
  method Handle(task: TaskClass.G01AutoTask, e: Event)
    requires task.Valid() && ValidEvent(e)
    modifies task, task.lineTraj, task.shared
    ensures task.Valid() && task.Abs() == Step(task.LineOf(), old(task.Abs()), e)
  {
    var ok;
    match e {
      case Cycle(inp) => task.RunOnce(inp);
      case PauseCmd => ok := task.PauseTask();
      case ResumeCmd => ok := task.ResumeTask();
      case StopCmd => ok := task.StopTask();
    }
  }

  /** What an observer notes: the machine position a task commands, and while a jump goes up or down the
      point 100 um behind its turning point. */
  datatype Placement = Placement(position: Axis, reserve: Option<Axis>)

  function PlacementOf(motorStart: Axis, dir: Axis, g: Axis, t: Task): Placement {
    Placement(Sub(Along(motorStart, dir, t.cmd), g),
              if t.servo in {JumpUping, JumpDowning} then Some(Sub(Along(motorStart, dir, t.upTarget - LIMIT_GAP), g))
              else None)
  }

  ghost predicate InsidePlacement(l: Limits, x: Placement) {
    Inside(l, x.position) && (x.reserve.Some? ==> Inside(l, x.reserve.value))
  }

  /** Both points of a task object on an accepted line are inside the limits. */
  method Place(task: TaskClass.G01AutoTask, g: Axis, ghost l: Limits, ghost start: Axis, ghost target: Axis)
    returns (x: Placement)
    requires task.Valid() && task.lineTraj.startPos == Plus(start, g)
    requires var c := task.LineOf();
      Accepted(l, start, target, c.total, c.headroom) && task.lineTraj.unitVector == UnitVector(start, target, c.total)
    ensures x == PlacementOf(Plus(start, g), task.lineTraj.unitVector, g, task.Abs()) && InsidePlacement(l, x)
  {
    InvWithinLimits(l, start, target, g, task.lineTraj.totalLength, task.LineOf(), task.Abs());
    x := Placement(Sub(task.shared.cmdAxis, g), None);
    if task.servoSubState in {JumpUping, JumpDowning} {
      AlongBack(task.lineTraj.startPos, task.lineTraj.unitVector, task.upLen, LIMIT_GAP);
      x := x.(reserve := Some(Sub(Along(task.jumpUpTargetPos, task.lineTraj.unitVector, -LIMIT_GAP), g)));
    }
  }

  /** The whole way of a node: the interpreter prepares it from the machine position, the motion
      thread builds line and task from the motor positions, and `es` happens.  What is observed after
      each event is where the machine puts the task on the accepted line, and is inside the limits. */
  method RunNode(
    sqrt: real -> real, l: Limits, start: Axis, g: Axis, offset: Axis, mode: CoordMode, cmd: CmdValues,
    backStep: real, now: int, jump: JumpParam, es: seq<Event>)
    returns (sent: bool, line: Line, dir: Axis, seen: seq<Placement>)
    requires IsSqrt(sqrt) && Inside(l, start) && ValidEvents(es)
    ensures sent <==> var q := Requested(mode, cmd, start, offset); q != start && Inside(l, q)
    ensures sent ==>
      var q := Requested(mode, cmd, start, offset);
      && Accepted(l, start, q, line.total, line.headroom) && dir == UnitVector(start, q, line.total)
      && line.backStep == if backStep < 0.01 then 0.01 else backStep
    ensures sent ==> |seen| == |es| && forall k | 0 <= k < |es| ::
      && seen[k] == PlacementOf(Plus(start, g), dir, g, Exec(line, Init(now, jump), es[..k + 1]))
      && InsidePlacement(l, seen[k])
  {
    line, dir, seen := Line(0.0, 0.0, 0.0), start, [];
    var prepared := PrepareG01(sqrt, l, start, offset, mode, cmd);
    CheckOnEndPoints(l, start, Requested(mode, cmd, start, offset), 1.0);
    sent := prepared.Send?;
    if !sent { return; }
    var task := BuildTask(sqrt, l, start, prepared.target, g, prepared.headroom, backStep, now, jump);
    line := Line(task.lineTraj.totalLength, task.maxJumpHeightFromBegin, task.pauseReturnBackStep);
    dir := task.lineTraj.unitVector;
    for k := 0 to |es|
      invariant task.Valid() && fresh(task) && fresh(task.lineTraj) && fresh(task.shared)
      invariant task.lineTraj.startPos == Plus(start, g) && task.LineOf() == line && task.lineTraj.unitVector == dir
      invariant task.Abs() == Exec(line, Init(now, jump), es[..k])
      invariant |seen| == k && forall i | 0 <= i < k ::
        && seen[i] == PlacementOf(Plus(start, g), dir, g, Exec(line, Init(now, jump), es[..i + 1]))
        && InsidePlacement(l, seen[i])
    {
      assert ValidEvent(es[k]);
      ExecSnoc(line, Init(now, jump), es[..k], es[k]);
      assert es[..k + 1] == es[..k] + [es[k]];
      Handle(task, es[k]);
      var x := Place(task, g, l, start, prepared.target);
      seen := seen + [x];
    }
  }

  /** `start_auto_g01`: line and task from the motor positions. */
  method BuildTask(
    sqrt: real -> real, ghost l: Limits, start: Axis, target: Axis, g: Axis, headroom: real,
    backStep: real, now: int, jump: JumpParam) returns (task: TaskClass.G01AutoTask)
    requires IsSqrt(sqrt) && start != target && headroom >= 0.0 && Inside(l, start) && Inside(l, target)
    requires forall n | IsLength(Sub(target, start), n) ::
      n > 0.0 && ReachIs(l, start, Scale(UnitVector(start, target, n), -1.0), headroom)
    ensures task.Valid() && fresh(task) && fresh(task.lineTraj) && fresh(task.shared)
    ensures task.lineTraj.startPos == Plus(start, g) && task.Abs() == Init(now, jump)
    ensures var c := task.LineOf();
      && c.backStep == (if backStep < 0.01 then 0.01 else backStep)
      && Accepted(l, start, target, c.total, c.headroom)
      && task.lineTraj.unitVector == UnitVector(start, target, c.total)
  {
    var motorStart, motorTarget := Plus(start, g), Plus(target, g);
    ShiftedEndsDiffer(start, target, g);
    var traj := new LinearSegment(sqrt, motorStart, motorTarget);
    var shared := new MotionShared(motorStart);
    task := new TaskClass.G01AutoTask(sqrt, traj, shared, headroom, backStep, now, jump);
    ShiftedLine(start, target, g, 1.0, 0.0);
    ShiftedLine(start, target, g, traj.totalLength, 0.0);
  }

  lemma ShiftedEndsDiffer(a: Axis, b: Axis, g: Axis)
    requires a != b
    ensures Plus(a, g) != Plus(b, g)
  {
    var i :| 0 <= i < AXIS_NUM && a[i] != b[i];
    assert Plus(a, g)[i] != Plus(b, g)[i];
  }
}
