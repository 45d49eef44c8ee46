/** `PauseMoveController`: jogging away from the point where a program was paused, and the way
    back.  Every jog is recorded on a stack; recovery retraces the stack from the top. */
module PauseMove {
  import opened Axes
  import PM = PointMove

  datatype State =
    | NotInited | AllowManual | ManualMoving
    | Recovering | RecoverPausing | RecoverPaused | RecoverOver
    | OutsideStopping | OutsideStopped

  /** One recorded jog. */
  datatype Leg = Leg(start: Axis, stop: Axis)

  /** The top of the stack is the last element. */
  datatype Controller = Controller(state: State, pm: PM.Handler, stack: seq<Leg>)

  function Dist(sqrt: real -> real, a: Axis, b: Axis): real { sqrt(SumSq(Sub(b, a))) }

  lemma DistPositive(sqrt: real -> real, a: Axis, b: Axis)
    requires IsSqrt(sqrt)
    ensures Dist(sqrt, a, b) > 0.0 <==> a != b
  {
    SumSqNonNegative(Sub(b, a), |Sub(b, a)|);
    DifferentHavePositiveLength(a, b, Dist(sqrt, a, b));
  }

  function Top(s: seq<Leg>): Leg
    requires s != []
  {
    s[|s| - 1]
  }

  function Pop(s: seq<Leg>): seq<Leg>
    requires s != []
  {
    s[..|s| - 1]
  }

  // ----- commands

  function Init(k: Controller): Controller {
    Controller(AllowManual, k.pm.(mv := PM.Mover(PM.NotStarted, 0.0, 0.0, 0.0, 0)), [])
  }

  /** A jog to the point where the axes already are has nothing to plan and is refused. */
  function StartManual(sqrt: real -> real, k: Controller, cmd: Axis, target: Axis, plan: PM.Plan): (Controller, bool) {
    if k.state != AllowManual || Dist(sqrt, cmd, target) <= 0.0 then (k, false)
    else (k.(state := ManualMoving, pm := PM.StartHandler(cmd, target, Dist(sqrt, cmd, target), plan)), true)
  }

  function StopManual(k: Controller, immediate: bool, plan: PM.Plan): (Controller, bool) {
    if k.state != ManualMoving then (k, false)
    else
      var (m, ok) := PM.Stop(k.pm.mv, plan, immediate);
      (k.(pm := k.pm.(mv := m)), ok)
  }

  /** Start back along the topmost recorded leg. */
  function NextLeg(sqrt: real -> real, k: Controller, plan: PM.Plan): Controller
    requires k.stack != []
  {
    var leg := Top(k.stack);
    var dist := Dist(sqrt, leg.stop, leg.start);
    if dist <= 0.0 then k.(stack := Pop(k.stack))
    else k.(pm := PM.StartHandler(leg.stop, leg.start, dist, plan), stack := Pop(k.stack))
  }

  function ActivateRecover(sqrt: real -> real, k: Controller, plan: PM.Plan): (Controller, bool) {
    match k.state
    case ManualMoving => (k, false)
    case Recovering => (k, true)
    case RecoverOver => (k, true)
    case RecoverPaused => ResumeRecover(k, plan)
    case _ =>
      if k.stack == [] then (k.(state := RecoverOver), true)
      else if Dist(sqrt, Top(k.stack).stop, Top(k.stack).start) <= 0.0 then
        (NextLeg(sqrt, k, plan).(state := OutsideStopped), false)
      else (NextLeg(sqrt, k, plan).(state := Recovering), true)
  }

  function PauseRecover(k: Controller, plan: PM.Plan): (Controller, bool) {
    match k.state
    case RecoverPausing => (k, true)
    case RecoverPaused => (k, true)
    case Recovering =>
      var (m, ok) := PM.Pause(k.pm.mv, plan);
      if ok then (k.(state := RecoverPausing, pm := k.pm.(mv := m)), true) else (k, false)
    case _ => (k, false)
  }

  function ResumeRecover(k: Controller, plan: PM.Plan): (Controller, bool) {
    match k.state
    case Recovering => (k, true)
    case RecoverOver => (k, true)
    case RecoverPaused =>
      var (m, ok) := PM.Resume(k.pm.mv, plan);
      if ok then (k.(state := Recovering, pm := k.pm.(mv := m)), true) else (k, false)
    case _ => (k, false)
  }

  function StopAll(k: Controller, immediate: bool, plan: PM.Plan): (Controller, bool) {
    match k.state
    case NotInited => (k, false)
    case OutsideStopping => (k, true)
    case ManualMoving => Halt(k, immediate, plan)
    case Recovering => Halt(k, immediate, plan)
    case RecoverPausing => Halt(k, immediate, plan)
    case _ => (k.(state := OutsideStopped), true)
  }

  function Halt(k: Controller, immediate: bool, plan: PM.Plan): (Controller, bool) {
    (k.(state := OutsideStopping, pm := k.pm.(mv := PM.Stop(k.pm.mv, plan, immediate).0)), true)
  }

  // ----- one cycle

  function Advance(h: PM.Handler, reach: real): PM.Handler { h.(mv := PM.Run(h.mv, reach)) }

  function Commanded(h: PM.Handler, cmd: Axis): Axis {
    if h.dist != 0.0 then PM.Position(h) else cmd
  }

  function RunOnce(
    sqrt: real -> real, k: Controller, cmd: Axis, touched: bool, plan: PM.Plan, reach: real): (Controller, Axis)
  {
    match k.state
    case ManualMoving =>
      if PM.Over(k.pm.mv) then
        var at := Commanded(k.pm, cmd);
        (k.(state := AllowManual, stack := if k.pm.from == at then k.stack else k.stack + [Leg(k.pm.from, at)]), cmd)
      else
        var h := if touched then k.pm.(mv := PM.Stop(k.pm.mv, plan, true).0) else k.pm;
        (k.(pm := Advance(h, reach)), Commanded(Advance(h, reach), cmd))
    case Recovering =>
      if PM.Over(k.pm.mv) then
        if k.stack == [] then (k.(state := RecoverOver), cmd) else (NextLeg(sqrt, k, plan), cmd)
      else (k.(pm := Advance(k.pm, reach)), Commanded(Advance(k.pm, reach), cmd))
    case RecoverPausing =>
      if k.pm.mv.phase == PM.Paused then (k.(state := RecoverPaused), cmd)
      else (k.(pm := Advance(k.pm, reach)), Commanded(Advance(k.pm, reach), cmd))
    case OutsideStopping =>
      if PM.Over(k.pm.mv) then (k.(state := OutsideStopped), cmd)
      else (k.(pm := Advance(k.pm, reach)), Commanded(Advance(k.pm, reach), cmd))
    case _ => (k, cmd)
  }

  // ----- the recorded legs form a chain

  /** The legs lead, one after the other, from `base` to `end`. */
  ghost predicate Chain(base: Axis, s: seq<Leg>, end: Axis)
    decreases |s|
  {
    if s == [] then base == end
    else Top(s).stop == end && Top(s).start != end && Chain(base, Pop(s), Top(s).start)
  }

  ghost predicate Moving(k: Controller, cmd: Axis) {
    PM.SoundHandler(k.pm) && cmd == PM.Position(k.pm) && k.pm.mv.phase != PM.NotStarted
  }

  /** Retracing: the present leg leads to where the rest of the stack leads, and a move that is
      over has reached the end of its leg. */
  ghost predicate Retracing(k: Controller, base: Axis, cmd: Axis) {
    && Moving(k, cmd) && Chain(base, k.stack, k.pm.to)
    && (k.state == Recovering ==> k.pm.mv.phase in {PM.Running, PM.Stopped})
    && (k.state == RecoverPausing ==> k.pm.mv.phase in {PM.Pausing, PM.Paused})
    && (k.state == RecoverPaused ==> k.pm.mv.phase == PM.Paused)
    && (k.pm.mv.phase == PM.Stopped ==> k.pm.mv.gone == k.pm.dist)
  }

  ghost predicate Inv(k: Controller, base: Axis, cmd: Axis) {
    match k.state
    case NotInited => true
    case AllowManual => Chain(base, k.stack, cmd)
    case ManualMoving => Moving(k, cmd) && Chain(base, k.stack, k.pm.from)
    case Recovering => Retracing(k, base, cmd)
    case RecoverPausing => Retracing(k, base, cmd)
    case RecoverPaused => Retracing(k, base, cmd)
    case RecoverOver => cmd == base
    case OutsideStopping => k.pm.mv.phase in {PM.Stopping, PM.Stopped}
    case OutsideStopped => true
  }

  lemma ChainPush(base: Axis, s: seq<Leg>, from: Axis, to: Axis)
    requires Chain(base, s, from) && from != to
    ensures Chain(base, s + [Leg(from, to)], to)
  {
    assert Pop(s + [Leg(from, to)]) == s;
  }

  lemma NextLegInv(sqrt: real -> real, k: Controller, base: Axis, cmd: Axis, plan: PM.Plan)
    requires IsSqrt(sqrt) && k.stack != [] && Chain(base, k.stack, cmd)
    ensures Dist(sqrt, Top(k.stack).stop, Top(k.stack).start) > 0.0
    ensures Retracing(NextLeg(sqrt, k, plan).(state := Recovering), base, cmd)
  {
    DistPositive(sqrt, Top(k.stack).stop, Top(k.stack).start);
  }

  lemma JogInv(sqrt: real -> real, k: Controller, base: Axis, cmd: Axis, target: Axis, plan: PM.Plan)
    requires IsSqrt(sqrt) && Inv(k, base, cmd)
    ensures Inv(StartManual(sqrt, k, cmd, target, plan).0, base, cmd)
  { }

  lemma CommandsInv(k: Controller, base: Axis, cmd: Axis, immediate: bool, plan: PM.Plan)
    requires Inv(k, base, cmd)
    ensures Inv(StopManual(k, immediate, plan).0, base, cmd)
    ensures Inv(PauseRecover(k, plan).0, base, cmd)
    ensures Inv(ResumeRecover(k, plan).0, base, cmd)
    ensures Inv(StopAll(k, immediate, plan).0, base, cmd)
  { }

  /** Recovery may be activated where jogging is allowed or recovery is under way. */
  lemma ActivateInv(sqrt: real -> real, k: Controller, base: Axis, cmd: Axis, plan: PM.Plan)
    requires IsSqrt(sqrt) && Inv(k, base, cmd)
    requires k.state in {AllowManual, ManualMoving, Recovering, RecoverPaused, RecoverOver}
    ensures var (r, ok) := ActivateRecover(sqrt, k, plan);
      && Inv(r, base, cmd) && (ok <==> k.state != ManualMoving)
      && (ok ==> r.state in {Recovering, RecoverOver})
      && (!ok ==> r == k)
  {
    if k.state == AllowManual && k.stack != [] { NextLegInv(sqrt, k, base, cmd, plan); }
  }

  lemma RunOnceInv(sqrt: real -> real, k: Controller, base: Axis, cmd: Axis, touched: bool, plan: PM.Plan, reach: real)
    requires IsSqrt(sqrt) && Inv(k, base, cmd)
    ensures var (r, cmd') := RunOnce(sqrt, k, cmd, touched, plan, reach); Inv(r, base, cmd')
  {
    if k.state == ManualMoving && PM.Over(k.pm.mv) {
      if k.pm.from != cmd { ChainPush(base, k.stack, k.pm.from, cmd); }
    } else if k.state == Recovering && PM.Over(k.pm.mv) {
      PM.PositionAtEnds(k.pm);
      if k.stack != [] { NextLegInv(sqrt, k, base, cmd, plan); }
    }
  }

  /** One undisturbed cycle of recovery brings its end nearer: it ends, or starts the next leg, or
      goes on along the present one. */
  lemma RecoveryProceeds(sqrt: real -> real, k: Controller, base: Axis, cmd: Axis, plan: PM.Plan, reach: real)
    requires IsSqrt(sqrt) && Retracing(k, base, cmd) && k.state == Recovering
    ensures var (r, at) := RunOnce(sqrt, k, cmd, false, plan, reach);
      && Inv(r, base, at)
      && (|| r.state == RecoverOver
          || (r.state == Recovering && |r.stack| < |k.stack|)
          || (r.state == Recovering && r.stack == k.stack && k.pm.mv.phase == PM.Running
              && (r.pm.mv.phase == PM.Stopped || (r.pm.mv.phase == PM.Running && r.pm.mv.ticks < k.pm.mv.ticks))))
  {
    RunOnceInv(sqrt, k, base, cmd, false, plan, reach);
    if PM.Over(k.pm.mv) && k.stack != [] {
      PM.PositionAtEnds(k.pm);
      NextLegInv(sqrt, k, base, cmd, plan);
    }
  }

  function Cycles(
    sqrt: real -> real, k: Controller, cmd: Axis, plan: nat -> PM.Plan, reach: nat -> real, i: nat, n: nat)
    : (Controller, Axis)
    decreases n
  {
    if n == 0 then (k, cmd)
    else
      var (r, at) := RunOnce(sqrt, k, cmd, false, plan(i), reach(i));
      Cycles(sqrt, r, at, plan, reach, i + 1, n - 1)
  }

  /** An undisturbed recovery ends, whatever was jogged: after finitely many cycles the axes stand
      exactly where the program was paused. */
  lemma {:induction false} RecoveryReturns(
    sqrt: real -> real, k: Controller, base: Axis, cmd: Axis, plan: nat -> PM.Plan, reach: nat -> real, i: nat)
    returns (n: nat)
    requires IsSqrt(sqrt) && Inv(k, base, cmd) && k.state in {Recovering, RecoverOver}
    ensures var (r, at) := Cycles(sqrt, k, cmd, plan, reach, i, n); r.state == RecoverOver && at == base
    decreases k.state != RecoverOver, |k.stack|, k.pm.mv.phase == PM.Running, k.pm.mv.ticks
  {
    n := 0;
    if k.state != RecoverOver {
      RecoveryProceeds(sqrt, k, base, cmd, plan(i), reach(i));
      var (r, at) := RunOnce(sqrt, k, cmd, false, plan(i), reach(i));
      n := RecoveryReturns(sqrt, r, base, at, plan, reach, i + 1);
      n := n + 1;
    }
  }
}
