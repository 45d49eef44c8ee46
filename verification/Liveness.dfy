/** Accepted pauses, stops and resumes arrive: through task, runner and interpreter, on every kind of
    motion node, and also while the axes retrace their jogs. */
module Liveness {
  import opened GCodeProgram
  import opened RunnerMachine
  import opened RunnerProperties
  import opened Axes
  import M = Motion
  import G = G01Machine
  import GP = G01Properties
  import PM = PointMove
  import PC = PauseMove

  /** The motion side after `n` cycles of the input stream `f`, starting with cycle `k`. */
  function Cycles(sqrt: real -> real, m: M.Motion, f: nat -> M.Input, k: nat, n: nat): M.Motion
    decreases n
  {
    if n == 0 then m else Cycles(sqrt, M.Tick(sqrt, m, f(k)), f, k + 1, n - 1)
  }

  /** Jump buffers are not negative, and the servo's forward commands are bounded below. */
  ghost predicate Feeding(f: nat -> M.Input, delta: real) {
    delta > 0.0 && forall i: nat :: Fed(f(i).g01, delta)
  }

  predicate Fed(inp: G.Input, delta: real) {
    inp.jump.buffer >= 0.0 && (inp.servoCmd > 0.0 ==> inp.servoCmd >= delta)
  }

  function Servo(f: nat -> M.Input): nat -> G.Input { (i: nat) => f(i).g01 }

  lemma ServoFeeds(f: nat -> M.Input, delta: real)
    requires Feeding(f, delta)
    ensures GP.Feeds(Servo(f), delta)
  {
    forall i: nat ensures Fed(Servo(f)(i), delta) { assert Fed(f(i).g01, delta); }
  }

  lemma TickInv(sqrt: real -> real, m: M.Motion, f: nat -> M.Input, k: nat, delta: real)
    requires IsSqrt(sqrt) && M.Inv(m) && Feeding(f, delta)
    ensures M.Inv(M.Tick(sqrt, m, f(k))) && Fed(f(k).g01, delta)
  {
    assert Fed(f(k).g01, delta);
    M.TickKeeps(sqrt, m, f(k));
  }

  // ----- one cycle, seen from the runner

  /** A cycle of a task outside recovery. */
  lemma TaskTick(sqrt: real -> real, m: M.Motion, inp: M.Input)
    requires m.mode == M.Auto && !m.recovering && m.auto !in {M.Paused, M.Stopped}
    ensures var r := M.Tick(sqrt, m, inp);
      var touched := m.task.G00? && M.Touched(m.task.detect, m.warning, inp.contact);
      && r.task == M.RunTask(m.task, touched, inp) && !r.recovering
      && r.auto == M.Follow(m.auto, M.ModeOf(r.task))
      && r.mode == if r.auto == M.Stopped then M.Idle else M.Auto
  { }

  // ----- pauses

  ghost predicate Pausing(m: M.Motion) { M.Inv(m) && m.mode == M.Auto && m.auto == M.Pausing }

  predicate IsPaused(m: M.Motion) { m.mode == M.Auto && m.auto == M.Paused }

  predicate ContactAfter(sqrt: real -> real, m: M.Motion, f: nat -> M.Input, k: nat, n: nat) {
    M.ContactWhilePausing(Cycles(sqrt, m, f, k, n), f(k + n))
  }

  /** No contact stops a rapid move while it brakes. */
  ghost predicate NoContact(sqrt: real -> real, m: M.Motion, f: nat -> M.Input, k: nat) {
    forall n: nat :: !ContactAfter(sqrt, m, f, k, n)
  }

  lemma NoContactNext(sqrt: real -> real, m: M.Motion, f: nat -> M.Input, k: nat)
    requires NoContact(sqrt, m, f, k)
    ensures !M.ContactWhilePausing(m, f(k)) && NoContact(sqrt, M.Tick(sqrt, m, f(k)), f, k + 1)
  {
    assert !ContactAfter(sqrt, m, f, k, 0);
    var m1, k1 := M.Tick(sqrt, m, f(k)), k + 1;
    forall n: nat ensures !ContactAfter(sqrt, m1, f, k1, n) {
      assert !ContactAfter(sqrt, m, f, k, n + 1);
      assert k + (n + 1) == k1 + n;
    }
  }

  /** The way back brakes to a halt. */
  lemma {:induction false} RetracePauses(sqrt: real -> real, m: M.Motion, f: nat -> M.Input, k: nat, delta: real)
    returns (n: nat)
    requires IsSqrt(sqrt) && Feeding(f, delta) && Pausing(m) && m.recovering
    ensures IsPaused(Cycles(sqrt, m, f, k, n))
    decreases m.pmc.pm.mv.phase != PM.Paused, m.pmc.pm.mv.ticks
  {
    var m1 := M.Tick(sqrt, m, f(k));
    TickInv(sqrt, m, f, k, delta);
    n := 0;
    if m1.auto != M.Paused { n := RetracePauses(sqrt, m1, f, k + 1, delta); }
    n := n + 1;
  }

  /** So does a rapid move. */
  lemma {:induction false} RapidPauses(sqrt: real -> real, m: M.Motion, f: nat -> M.Input, k: nat, delta: real)
    returns (n: nat)
    requires IsSqrt(sqrt) && Feeding(f, delta) && Pausing(m) && !m.recovering && m.task.G00?
    requires NoContact(sqrt, m, f, k)
    ensures IsPaused(Cycles(sqrt, m, f, k, n))
    decreases m.task.h.mv.phase != PM.Paused, m.task.h.mv.ticks
  {
    var m1 := M.Tick(sqrt, m, f(k));
    TickInv(sqrt, m, f, k, delta);
    NoContactNext(sqrt, m, f, k);
    TaskTick(sqrt, m, f(k));
    n := 0;
    if m1.auto != M.Paused { n := RapidPauses(sqrt, m1, f, k + 1, delta); }
    n := n + 1;
  }

  /** A G01 task finishes its jump and retreats; the runner notices in the cycle in which it is done. */
  lemma {:induction false} ServoPauses(
    sqrt: real -> real, m: M.Motion, f: nat -> M.Input, k: nat, delta: real, j: nat) returns (n: nat)
    requires IsSqrt(sqrt) && Feeding(f, delta) && Pausing(m) && !m.recovering && m.task.G01?
    requires GP.After(m.task.line, m.task.t, Servo(f), k, j).state == G.Paused
    ensures IsPaused(Cycles(sqrt, m, f, k, n))
    decreases j
  {
    var m1 := M.Tick(sqrt, m, f(k));
    TickInv(sqrt, m, f, k, delta);
    TaskTick(sqrt, m, f(k));
    M.RunTaskKeeps(m.task, false, f(k));
    n := 0;
    if m1.auto != M.Paused { n := ServoPauses(sqrt, m1, f, k + 1, delta, j - 1); }
    n := n + 1;
  }

  /** The other tasks pause within a cycle. */
  lemma OthersPause(sqrt: real -> real, m: M.Motion, inp: M.Input)
    requires Pausing(m) && !m.recovering && !m.task.G00? && !m.task.G01?
    ensures IsPaused(M.Tick(sqrt, m, inp))
  {
    TaskTick(sqrt, m, inp);
  }

  lemma PauseArrives(sqrt: real -> real, m: M.Motion, f: nat -> M.Input, k: nat, delta: real) returns (n: nat)
    requires IsSqrt(sqrt) && Feeding(f, delta) && M.Inv(m) && M.Halting(m) && NoContact(sqrt, m, f, k)
    ensures IsPaused(Cycles(sqrt, m, f, k, n))
  {
    if m.auto == M.Paused {
      n := 0;
    } else if m.recovering {
      n := RetracePauses(sqrt, m, f, k, delta);
    } else if m.task.G00? {
      n := RapidPauses(sqrt, m, f, k, delta);
    } else if m.task.G01? {
      ServoFeeds(f, delta);
      var j := 0;
      if m.task.t.state != G.Paused { j := GP.PauseCompletes(m.task.line, m.task.t, Servo(f), k, delta); }
      n := ServoPauses(sqrt, m, f, k, delta, j);
    } else {
      OthersPause(sqrt, m, f(k));
      n := 1;
      assert Cycles(sqrt, M.Tick(sqrt, m, f(k)), f, k + 1, 0) == M.Tick(sqrt, m, f(k));
    }
  }

  /** A pause that the interpreter has got accepted reaches the interpreter, on every kind of motion
      node, wherever in a jump or on the way back the axes are: after finitely many cycles the next
      poll finds the program paused.  Only contact while a rapid move brakes prevents it. */
  lemma AcceptedPauseArrives(sqrt: real -> real, s: Sys, f: nat -> M.Input, delta: real, env: Env) returns (n: nat)
    requires IsSqrt(sqrt) && Feeding(f, delta) && Inv(s) && s.r.state == WaitingForPaused
    requires M.Halting(s.m) && NoContact(sqrt, s.m, f, 0)
    ensures Poll(s.(m := Cycles(sqrt, s.m, f, 0, n)), env).r.state == Paused
  {
    n := PauseArrives(sqrt, s.m, f, 0, delta);
  }

  // ----- stops

  ghost predicate Stopping(m: M.Motion) { M.Inv(m) && m.mode == M.Auto && m.auto == M.Stopping }

  lemma {:induction false} RetraceStops(sqrt: real -> real, m: M.Motion, f: nat -> M.Input, k: nat, delta: real)
    returns (n: nat)
    requires IsSqrt(sqrt) && Feeding(f, delta) && Stopping(m) && m.recovering
    ensures Cycles(sqrt, m, f, k, n).mode == M.Idle
    decreases m.pmc.state != PC.OutsideStopped, m.pmc.pm.mv.phase != PM.Stopped, m.pmc.pm.mv.ticks
  {
    var m1 := M.Tick(sqrt, m, f(k));
    TickInv(sqrt, m, f, k, delta);
    n := 0;
    if m1.mode != M.Idle { n := RetraceStops(sqrt, m1, f, k + 1, delta); }
    n := n + 1;
  }

  lemma {:induction false} RapidStops(sqrt: real -> real, m: M.Motion, f: nat -> M.Input, k: nat, delta: real)
    returns (n: nat)
    requires IsSqrt(sqrt) && Feeding(f, delta) && Stopping(m) && !m.recovering && m.task.G00?
    ensures Cycles(sqrt, m, f, k, n).mode == M.Idle
    decreases m.task.h.mv.phase != PM.Stopped, m.task.h.mv.ticks
  {
    var m1 := M.Tick(sqrt, m, f(k));
    TickInv(sqrt, m, f, k, delta);
    TaskTick(sqrt, m, f(k));
    n := 0;
    if m1.mode != M.Idle { n := RapidStops(sqrt, m1, f, k + 1, delta); }
    n := n + 1;
  }

  lemma {:induction false} ServoStops(
    sqrt: real -> real, m: M.Motion, f: nat -> M.Input, k: nat, delta: real, j: nat) returns (n: nat)
    requires IsSqrt(sqrt) && Feeding(f, delta) && Stopping(m) && !m.recovering && m.task.G01?
    requires GP.After(m.task.line, m.task.t, Servo(f), k, j).state == G.Stopped
    ensures Cycles(sqrt, m, f, k, n).mode == M.Idle
    decreases j
  {
    var m1 := M.Tick(sqrt, m, f(k));
    TickInv(sqrt, m, f, k, delta);
    TaskTick(sqrt, m, f(k));
    M.RunTaskKeeps(m.task, false, f(k));
    n := 0;
    if m1.mode != M.Idle { n := ServoStops(sqrt, m1, f, k + 1, delta, j - 1); }
    n := n + 1;
  }

  lemma OthersStop(sqrt: real -> real, m: M.Motion, inp: M.Input)
    requires Stopping(m) && !m.recovering && !m.task.G00? && !m.task.G01?
    ensures M.Tick(sqrt, m, inp).mode == M.Idle
  {
    TaskTick(sqrt, m, inp);
  }

  lemma StopArrives(sqrt: real -> real, m: M.Motion, f: nat -> M.Input, k: nat, delta: real) returns (n: nat)
    requires IsSqrt(sqrt) && Feeding(f, delta) && M.Inv(m) && M.Ending(m)
    ensures Cycles(sqrt, m, f, k, n).mode == M.Idle
  {
    n := 0;
    if m.mode == M.Auto && m.auto == M.Stopping && m.recovering {
      n := RetraceStops(sqrt, m, f, k, delta);
    } else if m.mode == M.Auto && m.auto == M.Stopping && m.task.G00? {
      n := RapidStops(sqrt, m, f, k, delta);
    } else if m.mode == M.Auto && m.auto == M.Stopping && m.task.G01? {
      ServoFeeds(f, delta);
      var j := GP.StopCompletes(m.task.line, m.task.t, Servo(f), k, delta);
      n := ServoStops(sqrt, m, f, k, delta, j);
    } else if m.mode == M.Auto {
      if m.auto == M.Stopping { OthersStop(sqrt, m, f(k)); }
      n := 1;
      assert Cycles(sqrt, M.Tick(sqrt, m, f(k)), f, k + 1, 0) == M.Tick(sqrt, m, f(k));
    }
  }

  /** A stop that the interpreter has got accepted ends the run without an error: after finitely many
      cycles the motion side is idle, and the next poll finds it. */
  lemma AcceptedStopArrives(sqrt: real -> real, s: Sys, f: nat -> M.Input, delta: real, env: Env) returns (n: nat)
    requires IsSqrt(sqrt) && Feeding(f, delta) && Inv(s) && s.r.state == WaitingForStopped
    ensures var t := s.(m := Cycles(sqrt, s.m, f, 0, n));
      t.m.mode == M.Idle && Poll(t, env).r.state == RunnerMachine.Stopped && Poll(t, env).r.error == NoAbort
  {
    n := StopArrives(sqrt, s.m, f, 0, delta);
  }

  // ----- resumes

  /** The task drives again, or has already ended. */
  predicate Resumed(m: M.Motion) { m.mode == M.Idle || (!m.recovering && m.auto in {M.Normal, M.Stopping, M.Stopped}) }

  lemma ResumingTick(sqrt: real -> real, m: M.Motion, inp: M.Input)
    requires M.Inv(m) && m.mode == M.Auto && !m.recovering && m.auto == M.Resuming && inp.g01.jump.buffer >= 0.0
    ensures Resumed(M.Tick(sqrt, m, inp))
  {
    TaskTick(sqrt, m, inp);
    M.RunTaskKeeps(m.task, m.task.G00? && M.Touched(m.task.detect, m.warning, inp.contact), inp);
  }

  /** One undisturbed cycle of the way back resumes the task or brings that nearer. */
  lemma RetraceTick(sqrt: real -> real, m: M.Motion, inp: M.Input)
    requires IsSqrt(sqrt) && M.Inv(m) && m.mode == M.Auto && m.recovering && m.auto == M.Normal
    ensures var r := M.Tick(sqrt, m, inp);
      && r.mode == M.Auto
      && (r.recovering ==>
            && r.auto == M.Normal && m.pmc.state == PC.Recovering && r.pmc.state == PC.Recovering
            && (|| |r.pmc.stack| < |m.pmc.stack|
                || (r.pmc.stack == m.pmc.stack && m.pmc.pm.mv.phase == PM.Running
                    && (r.pmc.pm.mv.phase == PM.Stopped
                        || (r.pmc.pm.mv.phase == PM.Running && r.pmc.pm.mv.ticks < m.pmc.pm.mv.ticks)))))
      && (!r.recovering ==> r.auto == M.Resuming)
  {
    M.RetracingKeeps(sqrt, m, inp);
    if m.pmc.state == PC.Recovering {
      PC.RecoveryProceeds(sqrt, m.pmc, M.Pos(m.task), m.cmd, inp.plan, inp.reach);
    }
  }

  lemma {:induction false} ResumeArrives(sqrt: real -> real, m: M.Motion, f: nat -> M.Input, k: nat, delta: real)
    returns (n: nat)
    requires IsSqrt(sqrt) && Feeding(f, delta) && M.Inv(m) && M.Going(m)
    ensures Resumed(Cycles(sqrt, m, f, k, n))
    decreases if m.recovering then 2 else if m.auto == M.Resuming then 1 else 0, |m.pmc.stack|,
              m.pmc.pm.mv.phase == PM.Running, m.pmc.pm.mv.ticks
  {
    n := 0;
    if !Resumed(m) {
      var m1 := M.Tick(sqrt, m, f(k));
      TickInv(sqrt, m, f, k, delta);
      M.TickKeeps(sqrt, m, f(k));
      if m.recovering && m.auto == M.Stopping {
        n := StopsWhileResuming(sqrt, m, f, k, delta);
      } else {
        if m.recovering { RetraceTick(sqrt, m, f(k)); } else { ResumingTick(sqrt, m, f(k)); }
        n := ResumeArrives(sqrt, m1, f, k + 1, delta);
        n := n + 1;
      }
    }
  }

  lemma StopsWhileResuming(sqrt: real -> real, m: M.Motion, f: nat -> M.Input, k: nat, delta: real) returns (n: nat)
    requires IsSqrt(sqrt) && Feeding(f, delta) && Stopping(m) && m.recovering
    ensures Resumed(Cycles(sqrt, m, f, k, n))
  {
    n := RetraceStops(sqrt, m, f, k, delta);
  }

  /** A resume that the interpreter has got accepted arrives: after finitely many undisturbed cycles
      the recorded jogs are retraced and the task drives again (or has ended), and the next poll
      finds the program running. */
  lemma AcceptedResumeArrives(sqrt: real -> real, s: Sys, f: nat -> M.Input, delta: real, env: Env) returns (n: nat)
    requires IsSqrt(sqrt) && Feeding(f, delta) && Inv(s) && s.r.state == WaitingForResumed && !s.r.delay
    ensures var t := s.(m := Cycles(sqrt, s.m, f, 0, n));
      Resumed(t.m) && Poll(t, env).r.state == RunnerMachine.Running
  {
    n := ResumeArrives(sqrt, s.m, f, 0, delta);
    CyclesGo(sqrt, s.m, f, 0, n, delta);
  }

  lemma {:induction false} CyclesGo(sqrt: real -> real, m: M.Motion, f: nat -> M.Input, k: nat, n: nat, delta: real)
    requires IsSqrt(sqrt) && Feeding(f, delta) && M.Inv(m) && M.Going(m)
    ensures M.Going(Cycles(sqrt, m, f, k, n))
    decreases n
  {
    if n > 0 {
      TickInv(sqrt, m, f, k, delta);
      M.TickKeeps(sqrt, m, f(k));
      CyclesGo(sqrt, M.Tick(sqrt, m, f(k)), f, k + 1, n - 1, delta);
    }
  }
}
