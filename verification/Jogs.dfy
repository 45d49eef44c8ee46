/** Jogs: when they are accepted, where they arrive, and what contact does to them, in manual mode and
    away from a paused program. */
module Jogs {
  import opened Axes
  import opened Liveness
  import M = Motion
  import PC = PauseMove
  import PM = PointMove

  /** A jog is accepted iff it goes somewhere and the axes are free for it: in idle mode, or with the
      program paused, nothing being jogged or retraced. */
  lemma JogAcceptedIff(sqrt: real -> real, m: M.Motion, target: Axis, detect: bool, plan: PM.Plan)
    requires IsSqrt(sqrt)
    ensures M.StartJog(sqrt, m, target, detect, plan).1 <==>
      && target != m.cmd
      && (m.mode == M.Idle
          || (m.mode == M.Auto && m.auto == M.Paused && !m.recovering && m.pmc.state == PC.AllowManual))
  {
    PC.DistPositive(sqrt, m.cmd, target);
  }

  // ----- manual mode

  /** A jog of manual mode on its way. */
  ghost predicate Jogging(m: M.Motion) {
    && m.mode == M.Manual && PM.SoundHandler(m.pm) && m.pm.mv.phase == PM.Running
    && m.cmd == PM.Position(m.pm) && !m.warning
  }

  lemma JogBegins(sqrt: real -> real, m: M.Motion, target: Axis, detect: bool, plan: PM.Plan)
    requires IsSqrt(sqrt) && m.mode == M.Idle && target != m.cmd && !m.warning
    ensures var r := M.StartJog(sqrt, m, target, detect, plan).0; Jogging(r) && r.pm.to == target && r.detect == detect
  {
    PC.DistPositive(sqrt, m.cmd, target);
  }

  ghost predicate NoContactEver(f: nat -> M.Input) { forall i: nat :: !f(i).contact }

  /** Without contact it arrives: idle after the planned cycles and two more, exactly on its target. */
  lemma {:induction false} JogArrives(sqrt: real -> real, m: M.Motion, f: nat -> M.Input, k: nat)
    requires Jogging(m) && NoContactEver(f)
    ensures var r := Cycles(sqrt, m, f, k, m.pm.mv.ticks + 2); r.mode == M.Idle && r.cmd == m.pm.to && !r.warning
    decreases m.pm.mv.ticks
  {
    assert !f(k).contact && !f(k + 1).contact;
    var r := M.Tick(sqrt, m, f(k));
    if m.pm.mv.ticks > 0 {
      JogArrives(sqrt, r, f, k + 1);
    } else {
      PM.PositionAtEnds(m.pm);
      assert r.mode == M.Manual && PM.Over(r.pm.mv) && r.cmd == m.pm.to;
      var r2 := M.Tick(sqrt, r, f(k + 1));
      assert Cycles(sqrt, r, f, k + 1, 1) == Cycles(sqrt, r2, f, k + 2, 0) == r2;
    }
  }

  /** Contact ends it at once, where it is, and the warning stays; without detection it does not. */
  lemma JogContact(sqrt: real -> real, m: M.Motion, inp: M.Input)
    requires Jogging(m) && inp.contact
    ensures var r := M.Tick(sqrt, m, inp);
      if m.detect then r.mode == M.Idle && r.cmd == m.cmd && r.warning else r.mode == M.Manual && !r.warning
  { }

  /** A jog is stopped on request: at once, or by braking over the braking distance. */
  lemma JogStops(m: M.Motion, immediate: bool, plan: PM.Plan)
    requires Jogging(m)
    ensures var (r, ok) := M.StopJog(m, immediate, plan);
      && ok && r.cmd == m.cmd && r.mode == M.Manual && PM.SoundHandler(r.pm)
      && r.pm.mv.phase in (if immediate then {PM.Stopped} else {PM.Stopping, PM.Stopped})
      && (r.pm.mv.phase == PM.Stopping ==> r.pm.mv.goal <= m.pm.mv.gone + plan.brake)
  { }

  // ----- away from a paused program

  ghost predicate JoggingAway(m: M.Motion) {
    && m.mode == M.Auto && m.auto == M.Paused && !m.recovering && m.pmc.state == PC.ManualMoving && !m.warning
    && PC.Moving(m.pmc, m.cmd) && m.pmc.pm.mv.phase == PM.Running && m.pmc.pm.from != m.pmc.pm.to
  }

  lemma JogAwayBegins(sqrt: real -> real, m: M.Motion, target: Axis, detect: bool, plan: PM.Plan)
    requires IsSqrt(sqrt) && M.Inv(m) && m.mode == M.Auto && m.auto == M.Paused && !m.recovering && !m.warning
    requires m.pmc.state == PC.AllowManual && target != m.cmd
    ensures var r := M.StartJog(sqrt, m, target, detect, plan).0;
      JoggingAway(r) && r.pmc.pm.from == m.cmd && r.pmc.pm.to == target && r.detect == detect && r.cmd == m.cmd
  {
    PC.DistPositive(sqrt, m.cmd, target);
  }

  /** It arrives too, and is recorded for the way back. */
  lemma {:induction false} JogAwayArrives(sqrt: real -> real, m: M.Motion, f: nat -> M.Input, k: nat)
    requires JoggingAway(m) && NoContactEver(f)
    ensures var r := Cycles(sqrt, m, f, k, m.pmc.pm.mv.ticks + 2); var h := m.pmc.pm;
      && r.mode == M.Auto && r.auto == M.Paused && r.task == m.task && r.cmd == h.to
      && r.pmc.state == PC.AllowManual && r.pmc.stack == m.pmc.stack + [PC.Leg(h.from, h.to)]
    decreases m.pmc.pm.mv.ticks
  {
    assert !f(k).contact && !f(k + 1).contact;
    var r := M.Tick(sqrt, m, f(k));
    if m.pmc.pm.mv.ticks > 0 {
      JogAwayArrives(sqrt, r, f, k + 1);
    } else {
      PM.PositionAtEnds(m.pmc.pm);
      assert PM.Over(r.pmc.pm.mv) && r.cmd == m.pmc.pm.to && r.pmc.state == PC.ManualMoving;
      var r2 := M.Tick(sqrt, r, f(k + 1));
      assert Cycles(sqrt, r, f, k + 1, 1) == Cycles(sqrt, r2, f, k + 2, 0) == r2;
    }
  }

  /** It is stopped on request as well. */
  lemma JogAwayStops(m: M.Motion, immediate: bool, plan: PM.Plan)
    requires JoggingAway(m)
    ensures var (r, ok) := M.StopJog(m, immediate, plan);
      && ok && r.cmd == m.cmd && r.pmc.state == PC.ManualMoving
      && r.pmc.pm.mv.phase in (if immediate then {PM.Stopped} else {PM.Stopping, PM.Stopped})
  { }

  /** Contact stops it where it is. */
  lemma JogAwayContact(sqrt: real -> real, m: M.Motion, inp: M.Input)
    requires JoggingAway(m) && inp.contact && m.detect
    ensures var r := M.Tick(sqrt, m, inp); r.cmd == m.cmd && r.warning && PM.Over(r.pmc.pm.mv)
  { }
}
