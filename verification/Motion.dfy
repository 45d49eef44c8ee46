/** The motion thread's side of automatic operation: the automatic tasks, `AutoTaskRunner` above
    them, and the main mode of `MotionStateMachine`. */
module Motion {
  import opened Axes
  import G = G01Machine
  import PM = PointMove
  import PC = PauseMove

  // ----- tasks

  datatype GroupState = GNormal | GPausing | GPaused | GResuming | GStopping | GStopped

  /** The automatic tasks.  `pos` is the position a task without a line or move of its own holds;
      a G01 task carries its line, a G00 task its point move. */
  datatype Task =
    | G01(start: Axis, dir: Axis, line: G.Line, t: G.Task)
    | G00(h: PM.Handler, detect: bool)
    | G04(pos: Axis, paused: bool, left: nat)
    | M00(pos: Axis, over: bool)
    | Group(pos: Axis, state: GroupState)

  /** What a cycle reads from outside; `groupTo` and `groupEnds` are what the polyline of a G01
      group answers. */
  datatype Input = Input(
    g01: G.Input, contact: bool, plan: PM.Plan, reach: real, groupTo: Axis, groupEnds: bool)

  datatype Kind = KG00 | KG01 | KG04 | KM00 | KGroup

  function KindOf(x: Task): Kind {
    match x
    case G01(_, _, _, _) => KG01
    case G00(_, _) => KG00
    case G04(_, _, _) => KG04
    case M00(_, _) => KM00
    case Group(_, _) => KGroup
  }

  datatype Mode = Normal | Pausing | Paused | Resuming | Stopping | Stopped

  /** What the `is_...` queries of a task answer, of which at most one holds. */
  function ModeOf(x: Task): Mode {
    match x
    case G01(_, _, _, t) =>
      (match t.state
       case NormalRunning => Normal
       case Pausing => Pausing
       case Paused => Paused
       case Resuming => Resuming
       case Stopping => Stopping
       case Stopped => Stopped)
    case G00(h, _) =>
      (match h.mv.phase
       case Running => Normal
       case Pausing => Pausing
       case Paused => Paused
       case Stopping => Stopping
       case _ => Stopped)
    case G04(_, paused, left) => if left == 0 then Stopped else if paused then Paused else Normal
    case M00(_, over) => if over then Stopped else Paused
    case Group(_, state) =>
      (match state
       case GNormal => Normal
       case GPausing => Pausing
       case GPaused => Paused
       case GResuming => Resuming
       case GStopping => Stopping
       case GStopped => Stopped)
  }

  function PauseTask(x: Task, plan: PM.Plan): (Task, bool) {
    match x
    case G01(_, _, _, t) => (x.(t := G.Pause(t).0), G.Pause(t).1)
    case G00(h, _) => (x.(h := h.(mv := PM.Pause(h.mv, plan).0)), PM.Pause(h.mv, plan).1)
    case G04(_, _, left) => if left == 0 then (x, false) else (x.(paused := true), true)
    case M00(_, over) => (x, !over)
    case Group(_, state) =>
      if state in {GResuming, GNormal} then (x.(state := GPausing), true) else (x, state == GPausing)
  }

  function ResumeTask(x: Task, plan: PM.Plan): (Task, bool) {
    match x
    case G01(_, _, _, t) => (x.(t := G.Resume(t).0), G.Resume(t).1)
    case G00(h, _) => (x.(h := h.(mv := PM.Resume(h.mv, plan).0)), PM.Resume(h.mv, plan).1)
    case G04(_, paused, left) => if left > 0 && paused then (x.(paused := false), true) else (x, false)
    case M00(_, over) => (x.(over := true), !over)
    case Group(_, state) =>
      if state == GPaused then (x.(state := GResuming), true) else (x, state == GResuming)
  }

  function StopTask(x: Task, plan: PM.Plan): (Task, bool) {
    match x
    case G01(_, _, _, t) => (x.(t := G.Stop(t).0), G.Stop(t).1)
    case G00(h, _) => (x.(h := h.(mv := PM.Stop(h.mv, plan, false).0)), PM.Stop(h.mv, plan, false).1)
    case G04(_, _, _) => (x.(left := 0), true)
    case M00(_, _) => (x.(over := true), true)
    case Group(_, state) => if state == GStopped then (x, false) else (x.(state := GStopping), true)
  }

  /** The position a task stands for. */
  function Pos(x: Task): Axis {
    match x
    case G01(start, dir, _, t) => Along(start, dir, t.cmd)
    case G00(h, _) => if h.dist != 0.0 then PM.Position(h) else h.from
    case G04(pos, _, _) => pos
    case M00(pos, _) => pos
    case Group(pos, _) => pos
  }

  function RunTask(x: Task, touched: bool, inp: Input): Task {
    match x
    case G01(_, _, line, t) => x.(t := G.Tick(line, t, inp.g01))
    case G00(h, _) =>
      var m := if touched then PM.Stop(h.mv, inp.plan, true).0 else h.mv;
      x.(h := h.(mv := PM.Run(m, inp.reach)))
    case G04(_, paused, left) => if left == 0 || paused then x else x.(left := left - 1)
    case M00(_, _) => x
    case Group(_, state) =>
      match state
      case GNormal => x.(pos := inp.groupTo, state := if inp.groupEnds then GStopped else GNormal)
      case GPausing => x.(state := GPaused)
      case GResuming => x.(state := GNormal)
      case GStopping => x.(state := GStopped)
      case _ => x
  }

  /** A task that can be given to the runner: G01 on a sound line with its invariant, G00 on a
      sound move. */
  ghost predicate SoundTask(x: Task) {
    match x
    case G01(_, _, line, t) => G.ValidLine(line) && G.Inv(line, t)
    case G00(h, _) => PM.SoundHandler(h) && h.mv.phase != PM.NotStarted
    case _ => true
  }

  /** How a cycle may change the mode of a task; only contact during a G00 leaves the expected path. */
  ghost predicate Successor(x: Task, before: Mode, touched: bool, after: Mode) {
    || (x.G00? && touched && after == Stopped)
    || (match before
        case Normal => after in {Normal, Stopping, Stopped}
        case Pausing => after in {Pausing, Paused}
        case Paused => after == Paused
        case Resuming => after == Normal
        case Stopping => after in {Stopping, Stopped}
        case Stopped => after == Stopped)
  }

  lemma RunTaskKeeps(x: Task, touched: bool, inp: Input)
    requires SoundTask(x) && inp.g01.jump.buffer >= 0.0
    ensures var r := RunTask(x, touched, inp);
      SoundTask(r) && Successor(x, ModeOf(x), touched, ModeOf(r)) && KindOf(r) == KindOf(x)
    ensures ModeOf(x) == Paused && !(x.G00? && touched) ==> RunTask(x, touched, inp) == x
  {
    if x.G01? {
      G.TickInv(x.line, x.t, inp.g01);
      if x.t.servo != G.Servoing { G.JumpOnceInv(x.line, x.t, inp.g01); }
    }
  }

  // Commands change the mode and move nothing.

  lemma PauseTaskKeeps(x: Task, plan: PM.Plan)
    requires SoundTask(x)
    ensures var (r, ok) := PauseTask(x, plan);
      && SoundTask(r) && Pos(r) == Pos(x) && KindOf(r) == KindOf(x)
      && (ok ==> ModeOf(r) in {Pausing, Paused}) && (!ok ==> r == x)
      && (ModeOf(x) == Normal ==> ok)
  { }

  lemma ResumeTaskKeeps(x: Task, plan: PM.Plan)
    requires SoundTask(x)
    ensures var (r, ok) := ResumeTask(x, plan);
      && SoundTask(r) && Pos(r) == Pos(x) && KindOf(r) == KindOf(x)
      && (ModeOf(x) == Paused ==> ok && (ModeOf(r) in {Normal, Resuming} || (ModeOf(r) == Stopped && !r.Group?)))
  { }

  lemma StopTaskKeeps(x: Task, plan: PM.Plan)
    requires SoundTask(x)
    ensures var (r, ok) := StopTask(x, plan);
      && SoundTask(r) && Pos(r) == Pos(x) && KindOf(r) == KindOf(x)
      && (ok ==> ModeOf(r) in {Stopping, Stopped})
      && (ModeOf(x) != Stopped || !x.Group? ==> ok) && (!ok ==> r == x)
  { }

  // ----- the runner and the main mode

  datatype MainMode = Idle | Manual | Auto

  /** `auto` and `recovering` are the runner's state and whether its recovery dominates; `pm` is
      the jog of manual mode; `detect` and `warning` are the touch detector. */
  datatype Motion = Motion(
    mode: MainMode, task: Task, auto: Mode, recovering: bool, pmc: PC.Controller,
    pm: PM.Handler, cmd: Axis, detect: bool, warning: bool)

  /** `run_detect_once`: the latched warning, or contact while detection is on. */
  function Touched(detect: bool, warning: bool, contact: bool): bool { warning || (detect && contact) }

  function Pause(m: Motion, plan: PM.Plan): (Motion, bool) {
    if m.mode != Auto then (m, false)
    else if m.recovering then
      match m.auto
      case Paused => (m, true)
      case Pausing => (m, true)
      case Normal =>
        var (k, ok) := PC.PauseRecover(m.pmc, plan);
        if ok then (m.(pmc := k, auto := Pausing), true) else (m, false)
      case _ => (m, false)
    else
      match m.auto
      case Pausing => (m, true)
      case Paused => (m, true)
      case Stopping => (m, false)
      case Stopped => (m, false)
      case _ =>
        var (x, ok) := PauseTask(m.task, plan);
        if ok then (m.(task := x, auto := Pausing), true) else (m.(task := x), false)
  }

  function Resume(sqrt: real -> real, m: Motion, plan: PM.Plan): (Motion, bool) {
    if m.mode != Auto then (m, false)
    else if m.recovering then
      match m.auto
      case Normal => (m, true)
      case Paused =>
        var (k, ok) := PC.ResumeRecover(m.pmc, plan);
        if ok then (m.(pmc := k, auto := Normal), true) else (m, false)
      case _ => (m, false)
    else
      match m.auto
      case Paused =>
        var (k, ok) := PC.ActivateRecover(sqrt, m.pmc, plan);
        if ok then (m.(pmc := k, recovering := true, auto := Normal), true) else (m.(pmc := k), false)
      case Resuming => (m, true)
      case _ => (m, false)
  }

  function Stop(m: Motion, plan: PM.Plan): (Motion, bool) {
    if m.mode != Auto then (m, false)
    else if m.recovering then
      match m.auto
      case Stopping => (m, true)
      case Stopped => (m, false)
      case Resuming => (m, false)
      case _ =>
        var (k, ok) := PC.StopAll(m.pmc, false, plan);
        if ok then (m.(pmc := k, auto := Stopping), true) else (m, false)
    else
      match m.auto
      case Paused => (m.(auto := Stopped), true)
      case Stopping => (m, true)
      case Stopped => (m, true)
      case _ =>
        var (x, ok) := StopTask(m.task, plan);
        if ok then (m.(task := x, auto := Stopping), true) else (m.(task := x), false)
  }

  /** Emergency stop: everything is dropped at once, always accepted. */
  function Reset(m: Motion): Motion {
    m.(mode := Idle, auto := Stopped, pmc := PC.Init(m.pmc),
       pm := m.pm.(mv := PM.Mover(PM.NotStarted, 0.0, 0.0, 0.0, 0)))
  }

  /** Starting a task is refused outside Idle and when the drives are not ready. */
  function Launch(m: Motion, x: Task, ready: bool): (Motion, bool) {
    if !ready || m.mode != Idle || ModeOf(x) == Stopped then (m, false)
    else (m.(mode := Auto, task := x, auto := Normal, recovering := false), true)
  }

  /** A jog: in manual mode, or away from the paused program. */
  function StartJog(sqrt: real -> real, m: Motion, target: Axis, detect: bool, plan: PM.Plan): (Motion, bool) {
    match m.mode
    case Manual => (m, false)
    case Idle =>
      if PC.Dist(sqrt, m.cmd, target) <= 0.0 then (m, false)
      else (m.(mode := Manual, detect := detect,
               pm := PM.StartHandler(m.cmd, target, PC.Dist(sqrt, m.cmd, target), plan)), true)
    case Auto =>
      if m.auto != Paused || m.recovering then (m, false)
      else
        var (k, ok) := PC.StartManual(sqrt, m.pmc, m.cmd, target, plan);
        if ok then (m.(pmc := k, detect := detect), true) else (m, false)
  }

  function StopJog(m: Motion, immediate: bool, plan: PM.Plan): (Motion, bool) {
    match m.mode
    case Idle => (m, false)
    case Manual => (m.(pm := m.pm.(mv := PM.Stop(m.pm.mv, plan, immediate).0)), PM.Stop(m.pm.mv, plan, immediate).1)
    case Auto =>
      if m.auto != Paused || m.recovering then (m, false)
      else (m.(pmc := PC.StopManual(m.pmc, immediate, plan).0), PC.StopManual(m.pmc, immediate, plan).1)
  }

  // ----- one cycle

  /** A cycle of the task itself: the detector is asked by G00 only, and the command position
      follows the task. */
  function Drive(m: Motion, inp: Input): Motion {
    var detect := if m.task.G00? then m.task.detect else m.detect;
    var touched := m.task.G00? && Touched(detect, m.warning, inp.contact);
    var x := RunTask(m.task, touched, inp);
    m.(task := x, detect := detect && !(x.G00? && ModeOf(x) in {Paused, Stopped}),
       warning := m.warning || touched, cmd := Pos(x))
  }

  /** What the runner makes of the mode its task has after the cycle. */
  function Follow(auto: Mode, task: Mode): Mode {
    match auto
    case Normal =>
      if task in {Pausing, Paused} then Pausing else if task in {Stopping, Stopped} then Stopping else Normal
    case Pausing =>
      if task == Paused then Paused else if task in {Stopping, Stopped} then Stopping
      else if task == Normal then Resuming else Pausing
    case Resuming =>
      if task == Normal then Normal else if task in {Stopping, Stopped} then Stopping
      else if task in {Pausing, Paused} then Pausing else Resuming
    case Stopping => if task == Stopped then Stopped else Stopping
    case Paused => Paused
    case Stopped => Stopped
  }

  /** A cycle of the recorded way back or of a jog during a pause. */
  function DrivePauseMove(sqrt: real -> real, m: Motion, inp: Input): Motion {
    var jogs := m.pmc.state == PC.ManualMoving && !PM.Over(m.pmc.pm.mv);
    var touched := jogs && Touched(m.detect, m.warning, inp.contact);
    var (k, cmd) := PC.RunOnce(sqrt, m.pmc, m.cmd, touched, inp.plan, inp.reach);
    m.(pmc := k, cmd := cmd, warning := m.warning || touched,
       detect := m.detect && !(m.pmc.state == PC.ManualMoving && PM.Over(m.pmc.pm.mv)))
  }

  function AutoOnce(sqrt: real -> real, m: Motion, inp: Input): Motion {
    if m.recovering then
      match m.auto
      case Normal =>
        var m1 := DrivePauseMove(sqrt, m, inp);
        if m1.pmc.state == PC.OutsideStopped then m1.(auto := Stopped)
        else if m1.pmc.state != PC.RecoverOver then m1
        else
          var (x, ok) := ResumeTask(m1.task, inp.plan);
          if ok then m1.(task := x, recovering := false, auto := Resuming) else m1.(task := x)
      case Pausing =>
        var m1 := DrivePauseMove(sqrt, m, inp);
        if m1.pmc.state == PC.RecoverPaused then m1.(auto := Paused) else m1
      case Stopping =>
        var m1 := DrivePauseMove(sqrt, m, inp);
        if m1.pmc.state == PC.OutsideStopped then m1.(auto := Stopped, recovering := false) else m1
      case _ => m
    else if m.auto == Paused then DrivePauseMove(sqrt, m, inp)
    else if m.auto == Stopped then m
    else
      var m1 := Drive(m, inp);
      var auto := Follow(m.auto, ModeOf(m1.task));
      m1.(auto := auto, pmc := if auto == Paused then PC.Init(m1.pmc) else m1.pmc)
  }

  function ManualOnce(m: Motion, inp: Input): Motion {
    if PM.Over(m.pm.mv) then m.(mode := Idle)
    else if Touched(m.detect, m.warning, inp.contact) then
      m.(mode := Idle, warning := true, pm := m.pm.(mv := PM.Stop(m.pm.mv, inp.plan, true).0))
    else
      var h := PC.Advance(m.pm, inp.reach);
      m.(pm := h, cmd := PC.Commanded(h, m.cmd))
  }

  function Tick(sqrt: real -> real, m: Motion, inp: Input): Motion {
    match m.mode
    case Idle => m.(detect := false)
    case Manual => ManualOnce(m, inp)
    case Auto =>
      var m1 := AutoOnce(sqrt, m, inp);
      if m1.auto == Stopped then m1.(mode := Idle) else m1
  }

  // ----- what holds in every reachable state

  /** The runner's state against the mode of its task, outside recovery.  M00 alone starts out
      paused. */
  ghost predicate Agrees(x: Task, auto: Mode) {
    match auto
    case Normal => ModeOf(x) == Normal || (x.M00? && ModeOf(x) == Paused)
    case Pausing => ModeOf(x) in {Pausing, Paused}
    case Paused => ModeOf(x) == Paused
    case Resuming => ModeOf(x) in {Normal, Resuming} || (ModeOf(x) == Stopped && !x.Group?)
    case Stopping => ModeOf(x) in {Stopping, Stopped}
    case Stopped => true
  }

  /** The runner's state against the pause-move controller while recovery dominates. */
  ghost predicate RecoveryAgrees(k: PC.Controller, auto: Mode) {
    match auto
    case Normal => k.state in {PC.Recovering, PC.RecoverOver}
    case Pausing => k.state == PC.RecoverPausing
    case Paused => k.state == PC.RecoverPaused
    case Stopping => k.state in {PC.OutsideStopping, PC.OutsideStopped}
    case _ => false
  }

  /** Everything about a running automatic task.  The last conjuncts place the command position:
      it is the task's own, or the recorded legs lead back to the task's own. */
  ghost predicate AutoInv(m: Motion) {
    && SoundTask(m.task)
    && (!m.recovering ==> Agrees(m.task, m.auto))
    && (m.recovering ==> ModeOf(m.task) == Paused && RecoveryAgrees(m.pmc, m.auto))
    && (m.recovering ==> PC.Inv(m.pmc, Pos(m.task), m.cmd))
    && (!m.recovering && m.auto == Paused ==>
          PC.Inv(m.pmc, Pos(m.task), m.cmd) && m.pmc.state in {PC.AllowManual, PC.ManualMoving})
    && (!m.recovering && m.auto !in {Paused, Stopped} ==> m.cmd == Pos(m.task))
  }

  ghost predicate Inv(m: Motion) { m.mode == Auto ==> AutoInv(m) }

  // The motion side as the interpreter's waiting states expect it.

  ghost predicate Halting(m: Motion) { m.mode == Auto && m.auto in {Pausing, Paused} }

  ghost predicate Going(m: Motion) {
    m.mode == Idle || (m.mode == Auto && m.auto !in {Pausing, Paused}
      && (m.auto == Normal ==> m.recovering || ModeOf(m.task) == Normal))
  }

  ghost predicate Ending(m: Motion) { m.mode == Idle || (m.mode == Auto && m.auto in {Stopping, Stopped}) }

  /** Contact stops a rapid move that is braking for a pause. */
  predicate ContactWhilePausing(m: Motion, inp: Input) {
    && m.mode == Auto && m.auto == Pausing && !m.recovering
    && m.task.G00? && Touched(m.task.detect, m.warning, inp.contact)
  }

  /** An accepted pause is under way or complete; it moves nothing. */
  lemma PauseKeeps(m: Motion, plan: PM.Plan)
    requires Inv(m)
    ensures var (r, ok) := Pause(m, plan);
      && Inv(r) && r.mode == m.mode && r.cmd == m.cmd && KindOf(r.task) == KindOf(m.task)
      && (!ok ==> r == m) && (ok ==> Halting(r))
  {
    if m.mode == Auto {
      PauseTaskKeeps(m.task, plan);
      if m.recovering { PC.CommandsInv(m.pmc, Pos(m.task), m.cmd, false, plan); }
    }
  }

  /** Resuming is accepted, and moves nothing; first the way back is retraced. */
  lemma ResumeKeeps(sqrt: real -> real, m: Motion, plan: PM.Plan)
    requires IsSqrt(sqrt) && Inv(m)
    ensures var (r, ok) := Resume(sqrt, m, plan);
      && Inv(r) && r.mode == m.mode && r.cmd == m.cmd && KindOf(r.task) == KindOf(m.task)
      && (!ok ==> r == m) && (ok && m.auto == Paused ==> Going(r))
      && (m.mode == Auto && m.auto == Paused ==> (ok <==> m.recovering || m.pmc.state != PC.ManualMoving))
  {
    if m.mode == Auto && m.auto == Paused {
      if m.recovering { PC.CommandsInv(m.pmc, Pos(m.task), m.cmd, false, plan); }
      else { PC.ActivateInv(sqrt, m.pmc, Pos(m.task), m.cmd, plan); }
    }
  }

  /** Stopping an automatic task is always accepted. */
  lemma StopKeeps(m: Motion, plan: PM.Plan)
    requires Inv(m)
    ensures var (r, ok) := Stop(m, plan);
      && Inv(r) && r.mode == m.mode && r.cmd == m.cmd && KindOf(r.task) == KindOf(m.task)
      && (ok <==> m.mode == Auto) && (!ok ==> r == m) && (ok ==> Ending(r))
  {
    if m.mode == Auto {
      StopTaskKeeps(m.task, plan);
      if m.recovering { PC.CommandsInv(m.pmc, Pos(m.task), m.cmd, false, plan); }
    }
  }

  /** A task as its constructor leaves it. */
  ghost predicate Fresh(x: Task, cmd: Axis) {
    SoundTask(x) && Pos(x) == cmd && (ModeOf(x) in {Normal, Stopped} || x.M00?)
  }

  lemma LaunchKeeps(m: Motion, x: Task, ready: bool)
    requires Inv(m) && Fresh(x, m.cmd)
    ensures Inv(Launch(m, x, ready).0)
  { }

  lemma JogKeeps(sqrt: real -> real, m: Motion, target: Axis, detect: bool, immediate: bool, plan: PM.Plan)
    requires IsSqrt(sqrt) && Inv(m)
    ensures Inv(StartJog(sqrt, m, target, detect, plan).0) && Inv(StopJog(m, immediate, plan).0)
    ensures m.mode == Auto ==>
      var (started, _) := StartJog(sqrt, m, target, detect, plan);
      var (stopped, _) := StopJog(m, immediate, plan);
      started.mode == Auto && started.auto == m.auto && stopped.mode == Auto && stopped.auto == m.auto
  {
    if m.mode == Auto && m.auto == Paused && !m.recovering {
      PC.JogInv(sqrt, m.pmc, Pos(m.task), m.cmd, target, plan);
      PC.CommandsInv(m.pmc, Pos(m.task), m.cmd, immediate, plan);
    }
  }

  // ----- cycles

  lemma DriveKeeps(m: Motion, inp: Input)
    requires m.mode == Auto && AutoInv(m) && !m.recovering && m.auto !in {Paused, Stopped}
    requires inp.g01.jump.buffer >= 0.0
    ensures var r := Drive(m, inp);
      && SoundTask(r.task) && r.cmd == Pos(r.task) && KindOf(r.task) == KindOf(m.task)
      && var touched := Touched(m.task.G00? && m.task.detect, m.warning, inp.contact);
         Successor(m.task, ModeOf(m.task), touched, ModeOf(r.task))
  {
    RunTaskKeeps(m.task, m.task.G00? && Touched(m.task.detect, m.warning, inp.contact), inp);
  }

  lemma DrivePauseMoveKeeps(sqrt: real -> real, m: Motion, inp: Input)
    requires IsSqrt(sqrt) && PC.Inv(m.pmc, Pos(m.task), m.cmd)
    ensures var r := DrivePauseMove(sqrt, m, inp);
      && PC.Inv(r.pmc, Pos(r.task), r.cmd) && r.task == m.task
      && r.auto == m.auto && r.recovering == m.recovering && r.mode == m.mode
  {
    var jogs := m.pmc.state == PC.ManualMoving && !PM.Over(m.pmc.pm.mv);
    var touched := jogs && Touched(m.detect, m.warning, inp.contact);
    PC.RunOnceInv(sqrt, m.pmc, Pos(m.task), m.cmd, touched, inp.plan, inp.reach);
  }

  /** What one cycle of an automatic task does to the expectations above. */
  ghost predicate CycleKeeps(m: Motion, r: Motion, inp: Input) {
    && r.mode == Auto && AutoInv(r) && KindOf(r.task) == KindOf(m.task)
    && (Going(m) ==> Going(r)) && (Ending(m) ==> Ending(r))
    && (Halting(m) ==> (Halting(r) <==> !ContactWhilePausing(m, inp)))
    && (m.auto == Paused ==> r.auto == Paused)
  }

  lemma RetracingKeeps(sqrt: real -> real, m: Motion, inp: Input)
    requires IsSqrt(sqrt) && m.mode == Auto && AutoInv(m) && m.recovering && m.auto == Normal
    ensures CycleKeeps(m, AutoOnce(sqrt, m, inp), inp)
    ensures var r := AutoOnce(sqrt, m, inp);
      if r.recovering then r.auto == Normal else r.auto == Resuming && r.cmd == Pos(r.task) == Pos(m.task)
  {
    DrivePauseMoveKeeps(sqrt, m, inp);
    ResumeTaskKeeps(m.task, inp.plan);
  }

  lemma RecoveringKeeps(sqrt: real -> real, m: Motion, inp: Input)
    requires IsSqrt(sqrt) && m.mode == Auto && AutoInv(m) && m.recovering && m.auto != Normal
    ensures CycleKeeps(m, AutoOnce(sqrt, m, inp), inp)
  {
    DrivePauseMoveKeeps(sqrt, m, inp);
  }

  lemma PausedKeeps(sqrt: real -> real, m: Motion, inp: Input)
    requires IsSqrt(sqrt) && m.mode == Auto && AutoInv(m) && !m.recovering && m.auto == Paused
    ensures CycleKeeps(m, AutoOnce(sqrt, m, inp), inp)
  {
    DrivePauseMoveKeeps(sqrt, m, inp);
  }

  lemma RunningKeeps(sqrt: real -> real, m: Motion, inp: Input)
    requires IsSqrt(sqrt) && m.mode == Auto && AutoInv(m) && !m.recovering && m.auto !in {Paused, Stopped}
    requires inp.g01.jump.buffer >= 0.0
    ensures CycleKeeps(m, AutoOnce(sqrt, m, inp), inp)
  {
    DriveKeeps(m, inp);
  }

  lemma TickKeeps(sqrt: real -> real, m: Motion, inp: Input)
    requires IsSqrt(sqrt) && Inv(m) && inp.g01.jump.buffer >= 0.0
    ensures var r := Tick(sqrt, m, inp);
      && Inv(r) && KindOf(r.task) == KindOf(m.task)
      && (m.mode != Manual ==> r.mode != Manual) && (m.mode == Idle ==> r.mode == Idle)
      && (Going(m) ==> Going(r)) && (Ending(m) ==> Ending(r))
      && (Halting(m) ==> (Halting(r) <==> !ContactWhilePausing(m, inp)))
      && (m.auto == Paused && m.mode == Auto ==> r.auto == Paused)
  {
    if m.mode == Auto {
      if m.recovering && m.auto == Normal {
        RetracingKeeps(sqrt, m, inp);
      } else if m.recovering {
        RecoveringKeeps(sqrt, m, inp);
      } else if m.auto == Paused {
        PausedKeeps(sqrt, m, inp);
      } else if m.auto != Stopped {
        RunningKeeps(sqrt, m, inp);
      }
    }
  }
}
