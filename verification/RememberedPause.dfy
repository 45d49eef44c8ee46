/** A pause that was refused and remembered takes effect. */
module RememberedPause {
  import opened GCodeProgram
  import opened RunnerMachine
  import opened RunnerProperties
  import opened Liveness
  import opened Axes
  import M = Motion
  import PM = PointMove

  /** Whatever the situation, the environment of a poll is one that can occur there. */
  ghost predicate Serves(answer: Sys -> Env) { forall s :: ValidEvent(s, Polled(answer(s))) }

  /** A round: `n` motion cycles, then a poll. */
  function Round(sqrt: real -> real, s: Sys, f: nat -> M.Input, answer: Sys -> Env, k: nat, n: nat): Sys {
    var t := s.(m := Cycles(sqrt, s.m, f, k, n));
    Poll(t, answer(t))
  }

  /** Rounds of `ns[0]`, `ns[1]`, ... cycles; `round(s, k, n)` is one of `n` cycles from cycle `k` on. */
  function Repeat(round: (Sys, nat, nat) -> Sys, s: Sys, k: nat, ns: seq<nat>): Sys
    decreases |ns|
  {
    if ns == [] then s else Repeat(round, round(s, k, ns[0]), k + ns[0], ns[1..])
  }

  function Rounds(sqrt: real -> real, s: Sys, f: nat -> M.Input, answer: Sys -> Env, k: nat, ns: seq<nat>): Sys {
    Repeat((t: Sys, i: nat, n: nat) => Round(sqrt, t, f, answer, i, n), s, k, ns)
  }

  predicate Settled(s: Sys) { s.r.state in {Paused, Stopped} }

  lemma RepeatFrom(round: (Sys, nat, nat) -> Sys, s: Sys, k: nat, n: nat, ns: seq<nat>)
    ensures Repeat(round, s, k, [n] + ns) == Repeat(round, round(s, k, n), k + n, ns)
  {
    assert ([n] + ns)[1..] == ns;
  }

  // ----- cycles

  lemma {:induction false} CyclesKeepInv(sqrt: real -> real, s: Sys, f: nat -> M.Input, k: nat, n: nat, delta: real)
    requires IsSqrt(sqrt) && Feeding(f, delta) && Inv(s)
    ensures Inv(s.(m := Cycles(sqrt, s.m, f, k, n)))
    decreases n
  {
    if n > 0 {
      assert Fed(f(k).g01, delta);
      CycleInv(sqrt, s, f(k));
      CyclesKeepInv(sqrt, s.(m := M.Tick(sqrt, s.m, f(k))), f, k + 1, n - 1, delta);
    }
  }

  lemma {:induction false} CyclesCompose(sqrt: real -> real, m: M.Motion, f: nat -> M.Input, k: nat, n: nat, j: nat)
    ensures Cycles(sqrt, m, f, k, n + j) == Cycles(sqrt, Cycles(sqrt, m, f, k, n), f, k + n, j)
    decreases n
  {
    if n > 0 { CyclesCompose(sqrt, M.Tick(sqrt, m, f(k)), f, k + 1, n - 1, j); }
  }

  // ----- waiting for the pause

  /** If contact ever stops the braking move, it is no longer halting some cycles later. */
  lemma {:induction false} ContactEndsHalt(
    sqrt: real -> real, m: M.Motion, f: nat -> M.Input, k: nat, n: nat, delta: real) returns (j: nat)
    requires IsSqrt(sqrt) && Feeding(f, delta) && M.Inv(m) && M.Halting(m) && ContactAfter(sqrt, m, f, k, n)
    ensures !M.Halting(Cycles(sqrt, m, f, k, j))
    decreases n
  {
    var m1 := M.Tick(sqrt, m, f(k));
    TickInv(sqrt, m, f, k, delta);
    M.TickKeeps(sqrt, m, f(k));
    j := 0;
    if M.ContactWhilePausing(m, f(k)) {
      assert Cycles(sqrt, m1, f, k + 1, 0) == m1;
    } else {
      assert n > 0 && k + n == k + 1 + (n - 1);
      j := ContactEndsHalt(sqrt, m1, f, k + 1, n - 1, delta);
    }
    j := j + 1;
  }

  /** The wait for a pause ends: with the pause, or after contact with the end of the run. */
  lemma WaitEnds(sqrt: real -> real, s: Sys, f: nat -> M.Input, answer: Sys -> Env, k: nat, delta: real)
    returns (n: nat)
    requires IsSqrt(sqrt) && Feeding(f, delta) && Inv(s) && s.r.state == WaitingForPaused
    ensures Settled(Round(sqrt, s, f, answer, k, n))
  {
    n := 0;
    if M.Halting(s.m) {
      if NoContact(sqrt, s.m, f, k) {
        n := PauseArrives(sqrt, s.m, f, k, delta);
      } else {
        var j: nat :| ContactAfter(sqrt, s.m, f, k, j);
        n := ContactEndsHalt(sqrt, s.m, f, k, j, delta);
      }
    }
  }

  lemma StopEnds(sqrt: real -> real, s: Sys, f: nat -> M.Input, answer: Sys -> Env, k: nat, delta: real)
    returns (n: nat)
    requires IsSqrt(sqrt) && Feeding(f, delta) && Inv(s) && s.r.state == WaitingForStopped
    ensures Settled(Round(sqrt, s, f, answer, k, n))
  {
    n := StopArrives(sqrt, s.m, f, k, delta);
  }

  // ----- one poll with a pause pending

  /** After the poll the pause is under way or settled, or the next node is to be initialised with the
      pause still pending. */
  ghost predicate Advanced(s: Sys, t: Sys) {
    || t.r.state in {Paused, Stopped}
    || (t.r.state == WaitingForPaused && t.r.idx == s.r.idx && t.r.list == s.r.list)
    || (t.r.state == NodeIniting && t.r.delay && t.r.idx == s.r.idx + 1 && t.r.list == s.r.list)
  }

  lemma LaunchedPauses(m: M.Motion, x: M.Task, ready: bool, plan: PM.Plan)
    requires M.Fresh(x, m.cmd) && M.Launch(m, x, ready).1
    ensures M.Pause(M.Launch(m, x, ready).0, plan).1
  {
    M.PauseTaskKeeps(x, plan);
  }

  lemma InitPolled(s: Sys, env: Env)
    requires Outside(s) && s.r.state == NodeIniting && s.r.delay && ValidEvent(s, Polled(env))
    ensures Advanced(s, Poll(s, env))
  {
    CurrentNode(s.r);
    if OnMotion(s.r) && env.prepared.Sends? && M.Launch(s.m, env.prepared.task, env.prepared.ready).1 {
      LaunchedPauses(s.m, env.prepared.task, env.prepared.ready, env.plan);
    }
  }

  /** The motion side would accept a pause, or has nothing left to pause. */
  ghost predicate Yields(m: M.Motion) { m.mode == M.Idle || forall plan :: M.Pause(m, plan).1 }

  lemma RunningPolled(s: Sys, env: Env)
    requires Outside(s) && s.r.state == Running && OnMotion(s.r) && s.r.delay && Yields(s.m)
    ensures Advanced(s, Poll(s, env))
  {
    CurrentNode(s.r);
    if s.m.mode != M.Idle { assert M.Pause(s.m, env.plan).1; }
  }

  lemma NormalYields(m: M.Motion)
    requires M.Inv(m) && m.mode == M.Auto
    requires m.auto in {M.Pausing, M.Paused} || (m.auto == M.Normal && !m.recovering)
    ensures Yields(m)
  {
    forall plan ensures M.Pause(m, plan).1 { M.PauseTaskKeeps(m.task, plan); }
  }

  /** Some cycles later the motion side yields. */
  lemma MotionYields(sqrt: real -> real, m: M.Motion, f: nat -> M.Input, k: nat, delta: real) returns (n: nat)
    requires IsSqrt(sqrt) && Feeding(f, delta) && M.Inv(m) && m.mode != M.Manual
    ensures Yields(Cycles(sqrt, m, f, k, n))
  {
    n := 0;
    if m.mode == M.Auto {
      if m.auto in {M.Pausing, M.Paused} || (m.auto == M.Normal && !m.recovering) {
        NormalYields(m);
      } else {
        n := ResumeArrives(sqrt, m, f, k, delta);
        CyclesGo(sqrt, m, f, k, n, delta);
        var m1 := Cycles(sqrt, m, f, k, n);
        CyclesInv(sqrt, m, f, k, n, delta);
        if m1.mode == M.Auto && m1.auto == M.Normal {
          NormalYields(m1);
        } else if m1.mode == M.Auto {
          var j := StopArrives(sqrt, m1, f, k + n, delta);
          CyclesCompose(sqrt, m, f, k, n, j);
          n := n + j;
        }
      }
    }
  }

  lemma {:induction false} CyclesInv(sqrt: real -> real, m: M.Motion, f: nat -> M.Input, k: nat, n: nat, delta: real)
    requires IsSqrt(sqrt) && Feeding(f, delta) && M.Inv(m)
    ensures M.Inv(Cycles(sqrt, m, f, k, n))
    decreases n
  {
    if n > 0 {
      TickInv(sqrt, m, f, k, delta);
      CyclesInv(sqrt, M.Tick(sqrt, m, f(k)), f, k + 1, n - 1, delta);
    }
  }

  lemma ResumedPolled(s: Sys, env: Env)
    requires Outside(s) && s.r.state == WaitingForResumed && s.r.delay && Resumed(s.m)
    ensures var t := Poll(s, env);
      && t.r.idx == s.r.idx && t.r.list == s.r.list
      && (t.r.state == WaitingForPaused || (t.r.state == Running && t.r.delay))
  { }

  // ----- the result

  function Stage(state: State): nat {
    match state
    case WaitingForResumed => 2
    case Running => 1
    case NodeIniting => 1
    case _ => 0
  }

  /** A pause is pending, under way or settled. */
  predicate Owed(s: Sys) { s.r.delay || s.r.state in {WaitingForPaused, Paused, Stopped} }

  /** The round comes nearer: it settles the pause, has it accepted, or goes on with the next node or
      from the way back to driving. */
  ghost predicate Nearer(s: Sys, u: Sys) {
    || u.r.state in {Paused, Stopped}
    || (u.r.list == s.r.list && u.r.idx > s.r.idx)
    || (u.r.list == s.r.list && u.r.idx == s.r.idx && Stage(u.r.state) < Stage(s.r.state))
  }

  lemma PollNearer(s: Sys, env: Env)
    requires Inv(s) && s.r.delay && ValidEvent(s, Polled(env))
    requires s.r.state in {NodeIniting, Running, WaitingForResumed}
    requires s.r.state == Running ==> Yields(s.m)
    requires s.r.state == WaitingForResumed ==> Resumed(s.m)
    ensures var u := Poll(s, env); Inv(u) && Owed(u) && Nearer(s, u)
  {
    PollInv(s, env);
    PollAdvances(s, env);
  }

  lemma NextRound(sqrt: real -> real, s: Sys, f: nat -> M.Input, answer: Sys -> Env, k: nat, delta: real)
    returns (n: nat)
    requires IsSqrt(sqrt) && Feeding(f, delta) && Serves(answer) && Inv(s) && Owed(s) && !Settled(s)
    ensures var u := Round(sqrt, s, f, answer, k, n); Inv(u) && Owed(u) && Nearer(s, u)
  {
    n := 0;
    match s.r.state {
      case WaitingForPaused => n := WaitEnds(sqrt, s, f, answer, k, delta);
      case WaitingForStopped => n := StopEnds(sqrt, s, f, answer, k, delta);
      case Running => n := MotionYields(sqrt, s.m, f, k, delta);
      case WaitingForResumed => n := ResumeArrives(sqrt, s.m, f, k, delta);
      case _ =>
    }
    var t := s.(m := Cycles(sqrt, s.m, f, k, n));
    CyclesKeepInv(sqrt, s, f, k, n, delta);
    assert ValidEvent(t, Polled(answer(t)));
    if s.r.state in {NodeIniting, Running, WaitingForResumed} {
      PollNearer(t, answer(t));
    } else {
      PollInv(t, answer(t));
    }
  }

  ghost predicate CanComeNearer(round: (Sys, nat, nat) -> Sys, s: Sys, k: nat) {
    exists n: nat :: Progress(s, round(s, k, n))
  }

  ghost predicate Progress(s: Sys, u: Sys) { Inv(u) && Owed(u) && Nearer(s, u) }

  /** If every situation with a pause owed can come nearer, the pause is settled in the end. */
  lemma {:induction false} OwedIsSettled(round: (Sys, nat, nat) -> Sys, s: Sys, k: nat) returns (ns: seq<nat>)
    requires Inv(s) && Owed(s)
    requires forall t, i | Inv(t) && Owed(t) && !Settled(t) :: CanComeNearer(round, t, i)
    ensures Settled(Repeat(round, s, k, ns))
    decreases !Settled(s), |s.r.list| - s.r.idx, Stage(s.r.state)
  {
    ns := [];
    if !Settled(s) {
      assert CanComeNearer(round, s, k);
      var n: nat :| Progress(s, round(s, k, n));
      var u := round(s, k, n);
      IndexInList(s, u);
      ns := OwedIsSettled(round, u, k + n);
      RepeatFrom(round, s, k, n, ns);
      ns := [n] + ns;
    }
  }

  /** A refused pause that is remembered takes effect: from every reachable state in which one is
      pending, whatever the motion side and the environment do, there are finitely many cycles and
      polls after which the program is paused or the run has ended. */
  lemma RememberedPauseTakesEffect(
    sqrt: real -> real, s: Sys, f: nat -> M.Input, answer: Sys -> Env, k: nat, delta: real) returns (ns: seq<nat>)
    requires IsSqrt(sqrt) && Feeding(f, delta) && Serves(answer) && Inv(s) && Owed(s)
    ensures Settled(Rounds(sqrt, s, f, answer, k, ns))
  {
    var round := (t: Sys, i: nat, n: nat) => Round(sqrt, t, f, answer, i, n);
    forall t, i | Inv(t) && Owed(t) && !Settled(t) ensures CanComeNearer(round, t, i) {
      var n := NextRound(sqrt, t, f, answer, i, delta);
      assert Progress(t, round(t, i, n));
    }
    ns := OwedIsSettled(round, s, k);
  }

  lemma IndexInList(s: Sys, u: Sys)
    requires Inv(s) && Inv(u) && !Settled(s)
    ensures s.r.idx < |s.r.list| && (!Settled(u) ==> u.r.idx < |u.r.list|)
  { }

  lemma PollAdvances(s: Sys, env: Env)
    requires Inv(s) && s.r.delay && ValidEvent(s, Polled(env))
    requires s.r.state in {NodeIniting, Running, WaitingForResumed}
    requires s.r.state == Running ==> Yields(s.m)
    requires s.r.state == WaitingForResumed ==> Resumed(s.m)
    ensures var t := Poll(s, env);
      || Advanced(s, t)
      || (s.r.state == WaitingForResumed && t.r.state == Running && t.r.delay
          && t.r.idx == s.r.idx && t.r.list == s.r.list)
  {
    match s.r.state
    case NodeIniting => InitPolled(s, env);
    case Running => RunningPolled(s, env);
    case WaitingForResumed => ResumedPolled(s, env);
  }
}
