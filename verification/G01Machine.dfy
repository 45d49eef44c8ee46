/** The G01 servo/jump task, described along its line.

    Everything the task commands lies on one straight line, so a position is a single number: the
    signed length from the start point in machining direction (negative is behind the start).
    `G01AutoTask` is the class over six axes; it is proved to follow this machine. */
module G01Machine {
  import PM = PointMove
  import opened Trajectory

  datatype State = NormalRunning | Pausing | Paused | Resuming | Stopping | Stopped
  datatype ServoState = Servoing | JumpUping | JumpDowning | JumpDowningBuffer
  datatype PauseOrStopState = WaitingForJumpEnd | BackingToBegin

  /** `up` and `buffer` in blu, `dn` in ms. */
  datatype JumpParam = JumpParam(up: real, dn: nat, buffer: real)

  /** Fixed for one task: length of the line, the free length behind its start handed over by the
      interpreter, and the retreat per tick while pausing. */
  datatype Line = Line(total: real, headroom: real, backStep: real)

  datatype Task = Task(
    state: State,
    servo: ServoState,
    sub: PauseOrStopState,
    jump: JumpParam,
    lastJumpEnd: int,
    lenBefore: real,     // servoing_length_before_jump_
    upTarget: real,      // jump_up_target_pos_
    len: real,           // length of the trajectory object
    from: real,          // start of the point move of the jump
    mover: PM.Mover,        // the point move of the jump
    gone: real,          // pause_return_back_current_gone_blu_
    cmd: real,           // the shared command position
    gate: bool,          // last voltage-gate command
    power: bool)         // last discharge-power command

  /** What one cycle reads from outside. */
  datatype Input = Input(
    now: int, jump: JumpParam, skipJump: bool, servoCmd: real, plan: PM.Plan, reach: real)

  // um2blu at one blu per um
  const MIN_JUMP := 10.0
  const LIMIT_GAP := 100.0
  const RETREAT := 100.0

  ghost predicate ValidLine(c: Line) {
    c.total > 0.0 && c.headroom >= 0.0 && c.backStep > 0.0
  }

  function Init(now: int, jump: JumpParam): Task {
    Task(NormalRunning, Servoing, WaitingForJumpEnd, jump, now, 0.0, 0.0, 0.0,
         0.0, PM.Mover(PM.NotStarted, 0.0, 0.0, 0.0, 0), 0.0, 0.0, true, true)
  }

  // ----- commands

  function Pause(t: Task): (Task, bool) {
    match t.state
    case NormalRunning => (t.(state := Pausing, sub := WaitingForJumpEnd), true)
    case Pausing => (t, true)
    case Paused => (t, true)
    case _ => (t, false)
  }

  function Resume(t: Task): (Task, bool) {
    match t.state
    case Paused => (t.(state := Resuming), true)
    case Resuming => (t, true)
    case _ => (t, false)
  }

  function Stop(t: Task): (Task, bool) {
    match t.state
    case NormalRunning => (t.(state := Stopping, sub := WaitingForJumpEnd), true)
    case Pausing => (t.(state := Stopping), true)
    case Paused => (t.(state := Stopped), true)
    case Resuming => (t.(state := Stopped), true)
    case _ => (t, true)
  }

  // ----- one cycle

  function ClampLen(c: Line, x: real): real { ClampLength(c.total, x) }

  /** The jump parameters after `_check_and_validate_jump_height`, and whether a jump is allowed. */
  function Validated(c: Line, len: real, j: JumpParam): (JumpParam, bool) {
    var ceiling := len + c.headroom - LIMIT_GAP;
    var up := if j.up > ceiling then ceiling else j.up;
    if up < MIN_JUMP then (j.(up := up), false)
    else
      var buffer := if j.buffer > len then len else j.buffer;
      (j.(up := up, buffer := buffer), buffer <= up - MIN_JUMP)
  }

  /** `_servoing_check_and_plan_jump`: the task afterwards, and whether a jump has begun. */
  function TryJump(c: Line, t: Task, inp: Input): (Task, bool) {
    var t1 := t.(jump := inp.jump);
    if inp.now - t1.lastJumpEnd <= inp.jump.dn then (t1, false)
    else
      var t2 := t1.(lastJumpEnd := inp.now);
      if inp.jump.up < MIN_JUMP || inp.skipJump then (t2, false)
      else
        var (j, ok) := Validated(c, t.len, inp.jump);
        var t3 := t2.(lenBefore := t.len, jump := j);
        if !ok then (t3, false)
        else (t3.(upTarget := t.len - j.up, from := t.len, mover := PM.Start(j.up, inp.plan),
                  servo := JumpUping, gate := false), true)
  }

  function ServoOnce(c: Line, t: Task, inp: Input): Task {
    var len := if inp.servoCmd == 0.0 then t.len else ClampLen(c, t.len + inp.servoCmd);
    var t1 := t.(len := len, cmd := len);
    if inp.servoCmd > 0.0 && len >= c.total then t1.(state := Stopping) else t1
  }

  function UpOnce(c: Line, t: Task, inp: Input): Task {
    var m := PM.Run(t.mover, inp.reach);
    var t1 := t.(mover := m, cmd := t.from - m.gone);
    if !PM.Over(m) || t.jump.up - t.jump.buffer <= 0.0 then t1
    else t1.(from := t.upTarget, mover := PM.Start(t.jump.up - t.jump.buffer, inp.plan),
             servo := JumpDowning, gate := true)
  }

  function DownOnce(c: Line, t: Task, inp: Input): Task {
    var m := PM.Run(t.mover, inp.reach);
    var t1 := t.(mover := m, cmd := t.from + m.gone);
    if !PM.Over(m) then t1
    else t1.(len := ClampLen(c, t.lenBefore - t.jump.buffer), servo := JumpDowningBuffer)
  }

  function BufferOnce(c: Line, t: Task, inp: Input): Task {
    var rest := t.lenBefore - t.len;
    if inp.servoCmd <= 0.0 then t.(lastJumpEnd := inp.now, servo := Servoing)
    else
      var last := inp.servoCmd >= rest || rest <= 0.0;
      var len := ClampLen(c, t.len + (if last then rest else inp.servoCmd));
      var t1 := t.(len := len, cmd := len);
      if last then t1.(lastJumpEnd := inp.now, servo := Servoing) else t1
  }

  function JumpOnce(c: Line, t: Task, inp: Input): Task {
    match t.servo
    case JumpUping => UpOnce(c, t, inp)
    case JumpDowning => DownOnce(c, t, inp)
    case _ => BufferOnce(c, t, inp)
  }

  function NormalOnce(c: Line, t: Task, inp: Input): Task {
    if t.servo != Servoing then JumpOnce(c, t, inp)
    else
      var (t1, jumped) := TryJump(c, t, inp);
      if jumped then t1 else ServoOnce(c, t1, inp)
  }

  function RetreatOnce(c: Line, t: Task): Task {
    var last := t.gone + c.backStep > RETREAT;
    var dec := if last then RETREAT - t.gone else c.backStep;
    var len := ClampLen(c, t.len - dec);
    var t1 := t.(gone := t.gone + dec, len := len, cmd := len);
    if last || len <= 0.0 then t1.(state := Paused) else t1
  }

  /** `_state_pausing_or_stopping`. */
  function HaltOnce(c: Line, t: Task, inp: Input): Task {
    match t.sub
    case WaitingForJumpEnd =>
      if t.servo != Servoing then JumpOnce(c, t, inp)
      else t.(sub := BackingToBegin, power := false, gone := if t.state == Pausing then 0.0 else t.gone)
    case BackingToBegin =>
      if t.state == Stopping then t.(state := Stopped) else RetreatOnce(c, t)
  }

  function Tick(c: Line, t: Task, inp: Input): Task {
    match t.state
    case NormalRunning => NormalOnce(c, t, inp)
    case Pausing => HaltOnce(c, t, inp)
    case Stopping => HaltOnce(c, t, inp)
    case Resuming => t.(state := NormalRunning, lastJumpEnd := inp.now, gate := true, power := true)
    case Paused => t
    case Stopped => t
  }

  // ----- events and runs

  datatype Event = Cycle(inp: Input) | PauseCmd | ResumeCmd | StopCmd

  function Step(c: Line, t: Task, e: Event): Task {
    match e
    case Cycle(inp) => Tick(c, t, inp)
    case PauseCmd => Pause(t).0
    case ResumeCmd => Resume(t).0
    case StopCmd => Stop(t).0
  }

  function Exec(c: Line, t: Task, es: seq<Event>): Task
    decreases |es|
  {
    if es == [] then t else Exec(c, Step(c, t, es[0]), es[1..])
  }

  lemma {:induction false} ExecSnoc(c: Line, t: Task, es: seq<Event>, e: Event)
    ensures Exec(c, t, es + [e]) == Step(c, Exec(c, t, es), e)
    decreases |es|
  {
    if es == [] {
      assert [] + [e] == [e];
    } else {
      ExecSnoc(c, Step(c, t, es[0]), es[1..], e);
      assert (es + [e])[1..] == es[1..] + [e];
    }
  }

  /** The jump settings that reach the motion thread never have a negative buffer. */
  ghost predicate ValidEvent(e: Event) { e.Cycle? ==> e.inp.jump.buffer >= 0.0 }

  ghost predicate ValidEvents(es: seq<Event>) { forall e | e in es :: ValidEvent(e) }

  // ----- what holds in every reachable state

  /** A jump in progress: its height and buffer are what the validation promises. */
  ghost predicate JumpBounds(c: Line, t: Task) {
    && 0.0 <= t.jump.buffer <= t.lenBefore <= c.total
    && MIN_JUMP <= t.jump.up <= t.lenBefore + c.headroom - LIMIT_GAP
    && t.jump.buffer <= t.jump.up - MIN_JUMP
    && t.upTarget == t.lenBefore - t.jump.up
  }

  ghost predicate MoverRuns(m: PM.Mover, whole: real) {
    PM.Sound(m) && m.whole == whole && m.phase == PM.Running
  }

  /** Where the commanded position is, by servo substate. */
  ghost predicate Placed(c: Line, t: Task) {
    match t.servo
    case Servoing => t.cmd == t.len
    case JumpUping =>
      && JumpBounds(c, t) && t.len == t.lenBefore && t.from == t.lenBefore
      && MoverRuns(t.mover, t.jump.up) && t.cmd == t.from - t.mover.gone
    case JumpDowning =>
      && JumpBounds(c, t) && t.len == t.lenBefore && t.from == t.upTarget
      && MoverRuns(t.mover, t.jump.up - t.jump.buffer) && t.cmd == t.from + t.mover.gone
    case JumpDowningBuffer =>
      && JumpBounds(c, t) && t.cmd == t.len && t.lenBefore - t.jump.buffer <= t.len <= t.lenBefore
  }

  ghost predicate Inv(c: Line, t: Task) {
    && 0.0 <= t.len <= c.total
    && Placed(c, t)
    && t.gate == (t.servo != JumpUping)
    && (t.state in {Paused, Resuming, Stopped} ==> t.servo == Servoing)
    && (t.state in {Pausing, Stopping} && t.sub == BackingToBegin ==> t.servo == Servoing)
    && (t.state == Pausing && t.sub == BackingToBegin ==> 0.0 <= t.gone <= RETREAT)
    && (t.state == NormalRunning ==> t.power)
    && (t.state in {Paused, Resuming} ==> !t.power)
    && (t.state in {Pausing, Stopping} && t.sub == WaitingForJumpEnd ==> t.power)
    && (t.state == Pausing && t.sub == BackingToBegin ==> !t.power)
  }

  lemma InitInv(c: Line, now: int, jump: JumpParam)
    requires ValidLine(c)
    ensures Inv(c, Init(now, jump))
  { }

  lemma ValidatedBounds(c: Line, len: real, j: JumpParam)
    requires ValidLine(c) && 0.0 <= len <= c.total && j.buffer >= 0.0
    ensures var (r, ok) := Validated(c, len, j);
      ok ==>
        && 0.0 <= r.buffer <= len
        && r.buffer <= j.buffer && r.up <= j.up
        && MIN_JUMP <= r.up <= len + c.headroom - LIMIT_GAP
        && r.buffer <= r.up - MIN_JUMP
  { }

  lemma JumpOnceInv(c: Line, t: Task, inp: Input)
    requires ValidLine(c) && Inv(c, t) && t.servo != Servoing
    ensures var r := JumpOnce(c, t, inp);
      && 0.0 <= r.len <= c.total && Placed(c, r) && r.gate == (r.servo != JumpUping)
      && r.state == t.state && r.sub == t.sub && r.power == t.power && r.gone == t.gone
  { }

  lemma TryJumpInv(c: Line, t: Task, inp: Input)
    requires ValidLine(c) && Inv(c, t) && inp.jump.buffer >= 0.0
    requires t.state == NormalRunning && t.servo == Servoing
    ensures var (r, jumped) := TryJump(c, t, inp);
      Inv(c, r) && r.state == NormalRunning && (!jumped ==> r.servo == Servoing && r.len == t.len)
  {
    ValidatedBounds(c, t.len, inp.jump);
  }

  lemma ServoOnceInv(c: Line, t: Task, inp: Input)
    requires ValidLine(c) && Inv(c, t) && t.state == NormalRunning && t.servo == Servoing
    ensures Inv(c, ServoOnce(c, t, inp))
  { }

  lemma HaltInv(c: Line, t: Task, inp: Input)
    requires ValidLine(c) && Inv(c, t) && t.state in {Pausing, Stopping} && t.servo == Servoing
    ensures Inv(c, HaltOnce(c, t, inp))
  { }

  lemma TickInv(c: Line, t: Task, inp: Input)
    requires ValidLine(c) && Inv(c, t) && inp.jump.buffer >= 0.0
    ensures Inv(c, Tick(c, t, inp))
  {
    if t.servo != Servoing {
      JumpOnceInv(c, t, inp);
    } else if t.state == NormalRunning {
      TryJumpInv(c, t, inp);
      var (t1, jumped) := TryJump(c, t, inp);
      if !jumped { ServoOnceInv(c, t1, inp); }
    } else if t.state in {Pausing, Stopping} {
      HaltInv(c, t, inp);
    }
  }

  lemma StepInv(c: Line, t: Task, e: Event)
    requires ValidLine(c) && Inv(c, t) && ValidEvent(e)
    ensures Inv(c, Step(c, t, e))
  {
    if e.Cycle? { TickInv(c, t, e.inp); }
  }

  lemma {:induction false} ExecInv(c: Line, t: Task, es: seq<Event>)
    requires ValidLine(c) && Inv(c, t) && ValidEvents(es)
    ensures Inv(c, Exec(c, t, es))
    decreases |es|
  {
    if es != [] {
      StepInv(c, t, es[0]);
      ExecInv(c, Step(c, t, es[0]), es[1..]);
    }
  }
}
