/** A straight point-to-point move: `MoveruntimeWrapper` over the S-curve planner, and
    `PointMoveHandler`, which turns the length gone into a position.

    The planner decides how many ticks a plan takes and how far each tick gets.  Both are inputs
    here (`ticks`, `reach`), with what the planner guarantees built in: a plan has at least one
    tick, a tick never moves back or past the end of the plan, and the last tick is corrected so
    that the plan ends exactly on its length. */
module PointMove {
  import opened Axes

  datatype Phase = NotStarted | Running | Pausing | Paused | Stopping | Stopped

  /** `gone` of `whole` units are behind us; the plan being executed ends at `goal`, `ticks`
      cycles from now. */
  datatype Mover = Mover(phase: Phase, gone: real, whole: real, goal: real, ticks: nat)

  /** What the planner answers when asked to plan or to brake: the ticks of the new plan beyond
      the first, the braking distance at the present speed, and whether the axis stands still. */
  datatype Plan = Plan(extraTicks: nat, brake: real, still: bool)

  predicate Over(m: Mover) { m.phase == Stopped || m.phase == NotStarted }

  ghost predicate Sound(m: Mover) {
    && 0.0 <= m.gone <= m.goal <= m.whole
    && (m.phase == Running ==> m.goal == m.whole)
    && (m.phase in {Running, Pausing, Stopping} && m.ticks == 0 ==> m.gone == m.goal)
  }

  function Clamp(x: real, lo: real, hi: real): real {
    if x < lo then lo else if x > hi then hi else x
  }

  function Start(whole: real, plan: Plan): (m: Mover)
    requires whole > 0.0
    ensures Sound(m)
  {
    Mover(Running, 0.0, whole, whole, plan.extraTicks + 1)
  }

  /** One cycle of the running plan; when the plan has no cycle left the phase ends instead. */
  function Cycle(m: Mover, reach: real, after: Phase): Mover {
    if m.ticks == 0 then m.(phase := after)
    else m.(gone := if m.ticks == 1 then m.goal else Clamp(reach, m.gone, m.goal), ticks := m.ticks - 1)
  }

  function Run(m: Mover, reach: real): (r: Mover)
    ensures Sound(m) ==> Sound(r) && r.gone >= m.gone
  {
    match m.phase
    case Running => Cycle(m, reach, Stopped)
    case Pausing => Cycle(m, reach, Paused)
    case Stopping => Cycle(m, reach, Stopped)
    case _ => m
  }

  /** Replan to a halt: at once when there is no speed or nothing left, otherwise over the braking
      distance, cut at the end of the move. */
  function Brake(m: Mover, plan: Plan, braking: Phase, halted: Phase): Mover {
    if plan.still || plan.brake <= 0.0 || m.whole - m.gone <= 0.0 then m.(phase := halted)
    else
      var rest := m.whole - m.gone;
      m.(phase := braking, ticks := plan.extraTicks + 1,
         goal := m.gone + (if plan.brake > rest then rest else plan.brake))
  }

  function Pause(m: Mover, plan: Plan): (r: (Mover, bool))
    ensures Sound(m) ==> Sound(r.0)
    ensures r.0.gone == m.gone && r.0.whole == m.whole
  {
    match m.phase
    case Pausing => (m, true)
    case Paused => (m, true)
    case Running => (Brake(m, plan, Pausing, Paused), true)
    case _ => (m, false)
  }

  function Resume(m: Mover, plan: Plan): (r: (Mover, bool))
    ensures Sound(m) ==> Sound(r.0)
    ensures r.0.gone == m.gone && r.0.whole == m.whole
  {
    if m.phase != Paused then (m, false)
    else if m.whole - m.gone <= 0.0 then (m.(phase := Stopped), true)
    else (m.(phase := Running, goal := m.whole, ticks := plan.extraTicks + 1), true)
  }

  function Stop(m: Mover, plan: Plan, immediate: bool): (r: (Mover, bool))
    ensures Sound(m) ==> Sound(r.0)
    ensures r.0.gone == m.gone && r.0.whole == m.whole
  {
    if immediate then (m.(phase := Stopped), true) else
    match m.phase
    case NotStarted => (m, false)
    case Paused => (m.(phase := Stopped), true)
    case Pausing => (m.(phase := Stopping), true)
    case Running => (Brake(m, plan, Stopping, Stopped), true)
    case _ => (m, true)
  }

  function RunAll(m: Mover, reaches: seq<real>): Mover
    decreases |reaches|
  {
    if reaches == [] then m else RunAll(Run(m, reaches[0]), reaches[1..])
  }

  /** Whatever the speed profile, an undisturbed move of `k + 1` planned cycles is over after
      `k + 2` calls and not earlier, and it ends on exactly the commanded length. */
  lemma {:induction false} ReachesTargetExactly(m: Mover, reaches: seq<real>)
    requires Sound(m) && m.phase == Running
    ensures |reaches| <= m.ticks ==> RunAll(m, reaches).phase == Running
    ensures |reaches| > m.ticks ==> var r := RunAll(m, reaches); Over(r) && r.gone == m.whole && r.whole == m.whole
    decreases |reaches|
  {
    if reaches != [] {
      var next := Run(m, reaches[0]);
      if m.ticks > 0 {
        ReachesTargetExactly(next, reaches[1..]);
      } else {
        StaysOver(next, reaches[1..]);
      }
    }
  }

  lemma {:induction false} StaysOver(m: Mover, reaches: seq<real>)
    requires Over(m)
    ensures RunAll(m, reaches) == m
  {
    if reaches != [] { StaysOver(m, reaches[1..]); }
  }

  /** A pause or a stop of a running move brakes over the braking distance, cut at the end of the move, or
      halts at once where there is no speed or nothing left; a resume drives on to the end, or ends a
      move that has nothing left. */
  lemma BrakesAndResumes(m: Mover, plan: Plan)
    requires m.phase == Running
    ensures var atOnce := plan.still || plan.brake <= 0.0 || m.gone >= m.whole;
      var rest := m.whole - m.gone;
      && (forall r | r in {Pause(m, plan).0, Stop(m, plan, false).0} ::
            && r.phase in (if atOnce then {Paused, Stopped} else {Pausing, Stopping})
            && (!atOnce ==> r.goal == m.gone + (if plan.brake < rest then plan.brake else rest)))
      && Pause(m, plan).0.phase in {Pausing, Paused} && Stop(m, plan, false).0.phase in {Stopping, Stopped}
      && Stop(m, plan, true).0.phase == Stopped
    ensures var r := Resume(m.(phase := Paused), plan).0;
      if m.gone < m.whole then r.phase == Running && r.goal == m.whole else r.phase == Stopped
  { }

  /** Braking takes exactly its planned cycles, and ends on exactly its goal. */
  lemma {:induction false} HaltsAtGoal(m: Mover, reaches: seq<real>)
    requires Sound(m) && m.phase in {Pausing, Stopping}
    ensures |reaches| <= m.ticks ==> RunAll(m, reaches).phase == m.phase
    ensures |reaches| > m.ticks ==>
      RunAll(m, reaches).phase == (if m.phase == Pausing then Paused else Stopped) && RunAll(m, reaches).gone == m.goal
    decreases |reaches|
  {
    if reaches != [] {
      var next := Run(m, reaches[0]);
      if m.ticks > 0 { HaltsAtGoal(next, reaches[1..]); } else { StaysHalted(next, reaches[1..]); }
    }
  }

  lemma {:induction false} StaysHalted(m: Mover, reaches: seq<real>)
    requires m.phase in {Paused, Stopped}
    ensures RunAll(m, reaches) == m
    decreases |reaches|
  {
    if reaches != [] { StaysHalted(m, reaches[1..]); }
  }

  // ----- PointMoveHandler

  /** A move between two different points; `dist` is their distance. */
  datatype Handler = Handler(from: Axis, to: Axis, dist: real, mv: Mover)

  ghost predicate SoundHandler(h: Handler) {
    h.dist > 0.0 && h.mv.whole == h.dist && Sound(h.mv)
  }

  function Position(h: Handler): Axis
    requires h.dist != 0.0
  {
    Along(h.from, UnitVector(h.from, h.to, h.dist), h.mv.gone)
  }

  function StartHandler(from: Axis, to: Axis, dist: real, plan: Plan): (h: Handler)
    requires dist > 0.0
    ensures SoundHandler(h) && Position(h) == from
  {
    AlongZero(from, UnitVector(from, to, dist));
    Handler(from, to, dist, Start(dist, plan))
  }

  /** Where a move stands: on its start before the first cycle, on its target once all is gone. */
  lemma PositionAtEnds(h: Handler)
    requires h.dist > 0.0
    ensures h.mv.gone == 0.0 ==> Position(h) == h.from
    ensures h.mv.gone == h.dist ==> Position(h) == h.to
  {
    var u := UnitVector(h.from, h.to, h.dist);
    AlongZero(h.from, u);
    if h.mv.gone == h.dist {
      forall i | 0 <= i < AXIS_NUM ensures Position(h)[i] == h.to[i] {
        var delta, k := h.to[i] - h.from[i], 1.0 / h.dist;
        assert k * h.dist == 1.0;
        assert (delta * k) * h.dist == delta * (k * h.dist);
      }
    }
  }
}
