/** Programs get on: every motion node comes to its end, where it should, and a program that nobody
    disturbs is worked off to its M02. */
module Completion {
  import opened GCodeProgram
  import opened RunnerMachine
  import opened RunnerProperties
  import opened Liveness
  import opened RememberedPause
  import opened Axes
  import M = Motion
  import G = G01Machine
  import GP = G01Properties
  import GC = G01Completion
  import PM = PointMove

  // ----- nodes come to their end

  /** A task that was just launched and has not been disturbed. */
  ghost predicate Driving(m: M.Motion) {
    M.Inv(m) && m.mode == M.Auto && m.auto == M.Normal && !m.recovering && M.ModeOf(m.task) == M.Normal && !m.warning
  }

  /** Cycles without contact that feed, leave room between jumps, and let a group end. */
  ghost predicate Undisturbed(f: nat -> M.Input, delta: real) {
    && GC.AlwaysPaced(Servo(f), delta)
    && (forall i: nat :: !f(i).contact)
    && (forall k: nat :: EndsEventually(f, k))
  }

  predicate EndsAfter(f: nat -> M.Input, k: nat, j: nat) { f(k + j).groupEnds }

  ghost predicate EndsEventually(f: nat -> M.Input, k: nat) { exists j: nat :: EndsAfter(f, k, j) }

  lemma UndisturbedFeeds(f: nat -> M.Input, delta: real)
    requires Undisturbed(f, delta)
    ensures Feeding(f, delta)
  {
    forall i: nat ensures Fed(f(i).g01, delta) { assert GC.Paced(Servo(f), delta, i); }
  }

  /** Where a task ends when nobody disturbs it: a rapid move on its target, a line at its end. */
  ghost predicate AtGoal(x: M.Task, cmd: Axis) {
    && (x.G00? ==> cmd == x.h.to)
    && (x.G01? ==> cmd == Along(x.start, x.dir, x.line.total))
    && (x.G04? ==> cmd == x.pos)
  }

  ghost predicate Arrived(x: M.Task, m: M.Motion) { m.mode == M.Idle && !m.warning && AtGoal(x, m.cmd) }

  /** One cycle of an undisturbed rapid move: it goes on, or has arrived and is stopping. */
  lemma RapidTick(sqrt: real -> real, m: M.Motion, inp: M.Input)
    requires Driving(m) && m.task.G00? && !inp.contact && inp.g01.jump.buffer >= 0.0 && IsSqrt(sqrt)
    ensures var r := M.Tick(sqrt, m, inp); var mv := m.task.h.mv;
      && r.mode == M.Auto && !r.recovering && !r.warning && M.Inv(r) && r.task.G00? && r.task.h.to == m.task.h.to
      && (if mv.ticks > 0 then Driving(r) && r.task.h.mv.ticks == mv.ticks - 1
          else r.auto == M.Stopping && r.task.h.mv.phase == PM.Stopped && r.cmd == m.task.h.to)
  {
    M.TickKeeps(sqrt, m, inp);
    TaskTick(sqrt, m, inp);
    if m.task.h.mv.ticks == 0 { PM.PositionAtEnds(m.task.h); }
  }

  /** A rapid move arrives: as many cycles as planned and two more, and the motion side is idle with the
      axes on exactly the target. */
  lemma {:induction false} RapidArrives(sqrt: real -> real, m: M.Motion, f: nat -> M.Input, k: nat, delta: real)
    requires IsSqrt(sqrt) && Undisturbed(f, delta) && Driving(m) && m.task.G00?
    ensures Arrived(m.task, Cycles(sqrt, m, f, k, m.task.h.mv.ticks + 2))
    ensures forall j | 0 <= j <= m.task.h.mv.ticks :: Driving(Cycles(sqrt, m, f, k, j))
    decreases m.task.h.mv.ticks
  {
    UndisturbedFeeds(f, delta);
    assert Fed(f(k).g01, delta) && !f(k).contact;
    RapidTick(sqrt, m, f(k));
    var r := M.Tick(sqrt, m, f(k));
    var n := m.task.h.mv.ticks;
    if n > 0 {
      RapidArrives(sqrt, r, f, k + 1, delta);
      forall j | 0 <= j <= n ensures Driving(Cycles(sqrt, m, f, k, j)) {
        if j > 0 { assert Cycles(sqrt, m, f, k, j) == Cycles(sqrt, r, f, k + 1, j - 1); }
      }
    } else {
      assert !f(k + 1).contact;
      TaskTick(sqrt, r, f(k + 1));
      assert Cycles(sqrt, r, f, k + 1, 1) == Cycles(sqrt, M.Tick(sqrt, r, f(k + 1)), f, k + 2, 0);
    }
  }

  /** A rapid move reports that it is stopped only on its target, after contact, or after a stop. */
  lemma RapidStopsOnlyAtTarget(x: M.Task, touched: bool, inp: M.Input, plan: PM.Plan)
    requires x.G00? && M.SoundTask(x) && M.ModeOf(x) != M.Stopped
    ensures M.ModeOf(M.RunTask(x, touched, inp)) == M.Stopped ==>
      touched || M.ModeOf(x) == M.Stopping || M.Pos(M.RunTask(x, touched, inp)) == x.h.to
    ensures M.ModeOf(M.PauseTask(x, plan).0) != M.Stopped
    ensures M.ModeOf(M.ResumeTask(x, plan).0) == M.Stopped ==> M.Pos(M.ResumeTask(x, plan).0) == x.h.to
  {
    PM.PositionAtEnds(x.h);
  }

  /** A delay takes exactly its cycles, and the motion side is idle one cycle later. */
  lemma {:induction false} DelayEnds(sqrt: real -> real, m: M.Motion, f: nat -> M.Input, k: nat, delta: real)
    requires IsSqrt(sqrt) && Undisturbed(f, delta) && Driving(m) && m.task.G04?
    ensures Arrived(m.task, Cycles(sqrt, m, f, k, m.task.left + 1))
    ensures forall j | 0 <= j < m.task.left :: Driving(Cycles(sqrt, m, f, k, j))
    decreases m.task.left
  {
    UndisturbedFeeds(f, delta);
    assert Fed(f(k).g01, delta) && !f(k).contact;
    var r := M.Tick(sqrt, m, f(k));
    TaskTick(sqrt, m, f(k));
    M.TickKeeps(sqrt, m, f(k));
    var n := m.task.left;
    if n > 1 {
      DelayEnds(sqrt, r, f, k + 1, delta);
      forall j | 0 <= j < n ensures Driving(Cycles(sqrt, m, f, k, j)) {
        if j > 0 { assert Cycles(sqrt, m, f, k, j) == Cycles(sqrt, r, f, k + 1, j - 1); }
      }
    } else {
      TaskTick(sqrt, r, f(k + 1));
      assert Cycles(sqrt, r, f, k + 1, 1) == Cycles(sqrt, M.Tick(sqrt, r, f(k + 1)), f, k + 2, 0);
    }
  }

  /** A group ends when its polyline does. */
  lemma {:induction false} GroupEnds(sqrt: real -> real, m: M.Motion, f: nat -> M.Input, k: nat, delta: real, j: nat)
    returns (n: nat)
    requires IsSqrt(sqrt) && Undisturbed(f, delta) && Driving(m) && m.task.Group? && EndsAfter(f, k, j)
    ensures Arrived(m.task, Cycles(sqrt, m, f, k, n))
    decreases j
  {
    UndisturbedFeeds(f, delta);
    assert Fed(f(k).g01, delta) && !f(k).contact;
    var r := M.Tick(sqrt, m, f(k));
    TaskTick(sqrt, m, f(k));
    M.TickKeeps(sqrt, m, f(k));
    if f(k).groupEnds {
      TaskTick(sqrt, r, f(k + 1));
      assert Cycles(sqrt, r, f, k + 1, 1) == Cycles(sqrt, M.Tick(sqrt, r, f(k + 1)), f, k + 2, 0);
      n := 2;
    } else {
      assert j > 0 && k + j == k + 1 + (j - 1);
      n := GroupEnds(sqrt, r, f, k + 1, delta, j - 1);
      n := n + 1;
    }
  }

  /** The runner above a line that ends by itself: driving while the line is fed, stopping after. */
  ghost predicate OnLine(m: M.Motion) {
    && M.Inv(m) && m.mode == M.Auto && !m.recovering && !m.warning && m.task.G01?
    && (|| (m.auto == M.Normal && m.task.t.state == G.NormalRunning)
        || (m.auto == M.Stopping && m.task.t.state == G.Stopping))
  }

  lemma LineTick(sqrt: real -> real, m: M.Motion, inp: M.Input)
    requires IsSqrt(sqrt) && OnLine(m) && inp.g01.jump.buffer >= 0.0
    ensures var r := M.Tick(sqrt, m, inp);
      && r.task == m.task.(t := G.Tick(m.task.line, m.task.t, inp.g01)) && !r.warning
      && (if r.task.t.state == G.Stopped then r.mode == M.Idle && r.cmd == M.Pos(r.task) else OnLine(r))
  {
    TaskTick(sqrt, m, inp);
    M.TickKeeps(sqrt, m, inp);
    M.RunTaskKeeps(m.task, false, inp);
  }

  lemma {:induction false} LineToIdle(sqrt: real -> real, m: M.Motion, f: nat -> M.Input, k: nat, delta: real, j: nat)
    returns (n: nat)
    requires IsSqrt(sqrt) && Undisturbed(f, delta) && OnLine(m)
    requires GP.After(m.task.line, m.task.t, Servo(f), k, j).state == G.Stopped
    ensures var r := Cycles(sqrt, m, f, k, n); var t := GP.After(m.task.line, m.task.t, Servo(f), k, j);
      r.mode == M.Idle && !r.warning && r.cmd == Along(m.task.start, m.task.dir, t.cmd)
    decreases j
  {
    UndisturbedFeeds(f, delta);
    assert Fed(f(k).g01, delta);
    var r := M.Tick(sqrt, m, f(k));
    LineTick(sqrt, m, f(k));
    if r.task.t.state == G.Stopped {
      StoppedStays(m.task.line, r.task.t, Servo(f), k + 1, j - 1);
      assert Cycles(sqrt, r, f, k + 1, 0) == r;
      n := 1;
    } else {
      n := LineToIdle(sqrt, r, f, k + 1, delta, j - 1);
      n := n + 1;
    }
  }

  lemma {:induction false} StoppedStays(c: G.Line, t: G.Task, f: nat -> G.Input, k: nat, n: nat)
    requires t.state == G.Stopped
    ensures GP.After(c, t, f, k, n) == t
    decreases n
  {
    if n > 0 { StoppedStays(c, t, f, k + 1, n - 1); }
  }

  /** Every undisturbed node comes to its end, where it should. */
  lemma NodeArrives(sqrt: real -> real, m: M.Motion, f: nat -> M.Input, k: nat, delta: real) returns (n: nat)
    requires IsSqrt(sqrt) && Undisturbed(f, delta) && Driving(m)
    ensures Arrived(m.task, Cycles(sqrt, m, f, k, n))
  {
    if m.task.G00? {
      RapidArrives(sqrt, m, f, k, delta);
      n := m.task.h.mv.ticks + 2;
    } else if m.task.G01? {
      var j := GC.LineCompletes(m.task.line, m.task.t, Servo(f), k, delta);
      n := LineToIdle(sqrt, m, f, k, delta, j);
    } else if m.task.G04? {
      DelayEnds(sqrt, m, f, k, delta);
      n := m.task.left + 1;
    } else {
      assert EndsEventually(f, k);
      var j: nat :| EndsAfter(f, k, j);
      n := GroupEnds(sqrt, m, f, k, delta, j);
    }
  }

  // ----- programs

  /** Local nodes and acknowledgements succeed, and motion nodes are prepared, skipped or launched. */
  predicate Succeeds(env: Env) {
    && env.localOk && env.ackOk && !env.prepared.Fails?
    && (env.prepared.Sends? ==> env.prepared.ready && M.ModeOf(env.prepared.task) != M.Stopped)
  }

  ghost predicate Successful(answer: Sys -> Env) { Serves(answer) && forall s :: Succeeds(answer(s)) }

  /** The end of a program as it should be: M02 was executed, and the history is exactly the nodes up to
      it, which is the first. */
  ghost predicate Completed(r: Runner) {
    && r.state == Stopped && r.error == NoAbort && InOrder(r)
    && Current(r).ProgramEnd? && |r.trail| == r.idx + 1 && r.trail[r.idx].done
  }

  /** M00 holds a program until somebody resumes it. */
  predicate AtPauseNode(r: Runner) { r.state == Paused && Current(r).PauseNode? }

  /** A program that nobody disturbs, between two rounds. */
  ghost predicate OnItsWay(s: Sys) {
    && Inv(s) && !s.r.delay && !s.m.warning
    && s.r.state in {ReadyToStart, NodeIniting, Running}
    && (!Owns(s.r) ==> s.m.mode == M.Idle)
    && (Owns(s.r) ==> s.m.mode == M.Auto && s.m.auto == M.Normal && !s.m.recovering)
  }

  function StepsLeft(state: State): nat {
    match state
    case ReadyToStart => 3
    case NodeIniting => 2
    case Running => 1
    case _ => 0
  }

  ghost predicate Closer(s: Sys, u: Sys) {
    && u.r.list == s.r.list
    && (u.r.idx > s.r.idx || (u.r.idx == s.r.idx && StepsLeft(u.r.state) < StepsLeft(s.r.state)))
  }

  ghost predicate GoesOn(s: Sys, u: Sys) { (Completed(u.r) || AtPauseNode(u.r)) || (OnItsWay(u) && Closer(s, u)) }

  lemma InitGoesOn(s: Sys, env: Env)
    requires OnItsWay(s) && s.r.state == NodeIniting && ValidEvent(s, Polled(env)) && Succeeds(env)
    ensures GoesOn(s, Poll(s, env))
  {
    PollInv(s, env);
    CurrentNode(s.r);
  }

  lemma LocalGoesOn(s: Sys, env: Env)
    requires OnItsWay(s) && s.r.state == Running && !OnMotion(s.r) && ValidEvent(s, Polled(env)) && Succeeds(env)
    ensures GoesOn(s, Poll(s, env))
  {
    PollInv(s, env);
    CurrentNode(s.r);
  }

  /** A motion node that has ended: the program goes on with the next one. */
  lemma MotionGoesOn(s: Sys, env: Env)
    requires Inv(s) && !s.r.delay && !s.m.warning && s.r.state == Running && OnMotion(s.r)
    requires s.m.mode == M.Idle && ValidEvent(s, Polled(env))
    ensures var u := Poll(s, env);
      OnItsWay(u) && u.r == s.r.(idx := s.r.idx + 1, state := NodeIniting) && u.m == s.m
  {
    PollInv(s, env);
    CurrentNode(s.r);
  }

  /** M00 pauses by itself, within two cycles. */
  lemma PauseNodePauses(sqrt: real -> real, s: Sys, f: nat -> M.Input, answer: Sys -> Env, k: nat)
    requires OnItsWay(s) && s.r.state == Running && Current(s.r).PauseNode?
    ensures AtPauseNode(Round(sqrt, s, f, answer, k, 2).r)
  {
    var m1 := M.Tick(sqrt, s.m, f(k));
    TaskTick(sqrt, s.m, f(k));
    TaskTick(sqrt, m1, f(k + 1));
    var m2 := M.Tick(sqrt, m1, f(k + 1));
    assert Cycles(sqrt, m1, f, k + 1, 1) == Cycles(sqrt, m2, f, k + 2, 0) == m2;
    assert m2.mode == M.Auto && m2.auto == M.Paused;
  }

  lemma DrivesNow(s: Sys)
    requires OnItsWay(s) && s.r.state == Running && OnMotion(s.r) && !Current(s.r).PauseNode?
    ensures Driving(s.m)
  {
    CurrentNode(s.r);
  }

  /** One round: some cycles and a poll take the program a step further. */
  lemma NextStep(sqrt: real -> real, s: Sys, f: nat -> M.Input, answer: Sys -> Env, k: nat, delta: real)
    returns (n: nat)
    requires IsSqrt(sqrt) && Undisturbed(f, delta) && Successful(answer) && OnItsWay(s)
    ensures GoesOn(s, Round(sqrt, s, f, answer, k, n))
  {
    n := 0;
    if s.r.state == Running && Current(s.r).PauseNode? {
      PauseNodePauses(sqrt, s, f, answer, k);
      n := 2;
    } else if s.r.state == Running && OnMotion(s.r) {
      DrivesNow(s);
      n := NodeArrives(sqrt, s.m, f, k, delta);
      var t := s.(m := Cycles(sqrt, s.m, f, k, n));
      UndisturbedFeeds(f, delta);
      CyclesKeepInv(sqrt, s, f, k, n, delta);
      assert ValidEvent(t, Polled(answer(t)));
      MotionGoesOn(t, answer(t));
    } else {
      assert Cycles(sqrt, s.m, f, k, 0) == s.m && s.(m := s.m) == s;
      assert ValidEvent(s, Polled(answer(s))) && Succeeds(answer(s));
      PollInv(s, answer(s));
      if s.r.state == NodeIniting { InitGoesOn(s, answer(s)); }
      if s.r.state == Running { LocalGoesOn(s, answer(s)); }
    }
  }

  ghost predicate CanGoOn(round: (Sys, nat, nat) -> Sys, s: Sys, k: nat) { exists n: nat :: GoesOn(s, round(s, k, n)) }

  /** If every situation on the way can go on, the way comes to its end. */
  lemma {:induction false} WayEnds(round: (Sys, nat, nat) -> Sys, s: Sys, k: nat) returns (ns: seq<nat>)
    requires OnItsWay(s) && forall t, i | OnItsWay(t) :: CanGoOn(round, t, i)
    ensures var r := Repeat(round, s, k, ns).r; Completed(r) || AtPauseNode(r)
    decreases |s.r.list| - s.r.idx, StepsLeft(s.r.state)
  {
    assert CanGoOn(round, s, k);
    var n: nat :| GoesOn(s, round(s, k, n));
    var u := round(s, k, n);
    if Completed(u.r) || AtPauseNode(u.r) {
      ns := [];
    } else {
      IndexInList(s, u);
      ns := WayEnds(round, u, k + n);
    }
    RepeatFrom(round, s, k, n, ns);
    ns := [n] + ns;
  }

  /** A program that nobody disturbs is worked off: after finitely many rounds of cycles and polls M02 has
      been executed without an error and the history is exactly the nodes up to the first M02; or the
      program stands paused on an M00. */
  lemma ProgramGoesOn(sqrt: real -> real, s: Sys, f: nat -> M.Input, answer: Sys -> Env, k: nat, delta: real)
    returns (ns: seq<nat>)
    requires IsSqrt(sqrt) && Undisturbed(f, delta) && Successful(answer) && OnItsWay(s)
    ensures var r := Rounds(sqrt, s, f, answer, k, ns).r; Completed(r) || AtPauseNode(r)
  {
    var round := (t: Sys, i: nat, n: nat) => Round(sqrt, t, f, answer, i, n);
    forall t, i | OnItsWay(t) ensures CanGoOn(round, t, i) {
      var n := NextStep(sqrt, t, f, answer, i, delta);
      assert GoesOn(t, round(t, i, n));
    }
    ns := WayEnds(round, s, k);
  }

  /** From the start: every startable program of known kinds. */
  lemma ProgramCompletes(
    sqrt: real -> real, s: Sys, list: seq<Node>, eleparams: set<int>, coords: set<int>,
    f: nat -> M.Input, answer: Sys -> Env, delta: real) returns (ns: seq<nat>)
    requires IsSqrt(sqrt) && Undisturbed(f, delta) && Successful(answer)
    requires Inv(s) && s.r.state == Stopped && s.m.mode == M.Idle && !s.m.warning
    requires list != [] && Startable(list, eleparams, coords) && forall n | n in list :: Executable(n)
    ensures var (t, ok) := Start(s, list, eleparams, coords);
      ok && var r := Rounds(sqrt, t, f, answer, 0, ns).r; Completed(r) || AtPauseNode(r)
  {
    var (t, ok) := Start(s, list, eleparams, coords);
    StartInv(s, list, eleparams, coords);
    ns := ProgramGoesOn(sqrt, t, f, answer, 0, delta);
  }
}
