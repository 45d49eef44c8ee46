/** The main results about interpreter and motion side together, for every program and every
    interleaving of user commands, polls, motion cycles and jogs. */
module Protocol {
  import opened GCodeProgram
  import opened RunnerMachine
  import opened RunnerProperties
  import opened Axes
  import M = Motion
  import G = G01Machine
  import PM = PointMove
  import PC = PauseMove

  ghost predicate Initial(s: Sys) {
    s.r == Runner([], 0, Stopped, false, NoAbort, []) && s.m.mode == M.Idle
  }

  lemma Reachable(sqrt: real -> real, s: Sys, es: seq<Event>)
    requires IsSqrt(sqrt) && Initial(s) && ValidRun(sqrt, s, es)
    ensures Inv(Exec(sqrt, s, es))
  {
    ExecInv(sqrt, s, es);
  }

  /** A step that gives a run up. */
  predicate GivesUp(s: Sys, t: Sys) { s.r.state != Stopped && t.r.state == Stopped && t.r.error != NoAbort }

  // ----- the two parties agree

  lemma WaitingHolds(s: Sys, env: Env)
    requires Inv(s) && s.r.state in {WaitingForPaused, WaitingForResumed, WaitingForStopped}
    ensures GivesUp(s, Poll(s, env)) <==> s.r.state == WaitingForPaused && !M.Halting(s.m)
  { }

  /** No poll in a waiting state ever gives the run up, on any kind of node but a rapid move; there
      only the wait for a pause can, and only after the move has ended. */
  lemma WaitingNeverGivesUp(sqrt: real -> real, s0: Sys, es: seq<Event>, env: Env)
    requires IsSqrt(sqrt) && Initial(s0) && ValidRun(sqrt, s0, es)
    ensures var s := Exec(sqrt, s0, es);
      s.r.state in {WaitingForPaused, WaitingForResumed, WaitingForStopped} && GivesUp(s, Poll(s, env)) ==>
        s.r.state == WaitingForPaused && Current(s.r).G00? && M.Ending(s.m)
  {
    Reachable(sqrt, s0, es);
    var s := Exec(sqrt, s0, es);
    if s.r.state in {WaitingForPaused, WaitingForResumed, WaitingForStopped} { WaitingHolds(s, env); }
  }

  /** Why a poll may give a run up, by state of the interpreter: a motion node that fails to be prepared
      or is refused, a local node that fails, a touch warning that is not meant or not acknowledged,
      and a pause that ended in a stop. */
  ghost predicate Cause(s: Sys, env: Env) {
    match s.r.state
    case NodeIniting =>
      OnMotion(s.r) && (env.prepared.Fails? || (env.prepared.Sends? && !Launches(s.m, env.prepared)))
    case Running =>
      if OnMotion(s.r) then
        s.m.mode == M.Idle && s.m.warning && Current(s.r).G00? && (!Current(s.r).touch || !env.ackOk)
      else (Current(s.r).CoordIndex? || Current(s.r).EleparamSet? || Current(s.r).CoordSetZero?) && !env.localOk
    case WaitingForPaused => !M.Halting(s.m)
    case _ => false
  }

  /** The motion side takes a task iff everything is ready, it is idle, and the task is not over. */
  predicate Launches(m: M.Motion, p: Preparation)
    requires p.Sends?
  {
    p.ready && m.mode == M.Idle && M.ModeOf(p.task) != M.Stopped
  }

  lemma InitGivesUpIff(s: Sys, env: Env)
    requires Outside(s) && s.r.state == NodeIniting
    ensures GivesUp(s, InitNode(s, env)) <==> Cause(s, env)
    ensures InitNode(s, env).r.state == Stopped ==> GivesUp(s, InitNode(s, env))
  {
    CurrentNode(s.r);
  }

  lemma RunningGivesUpIff(s: Sys, env: Env)
    requires Outside(s) && s.r.state == Running
    ensures var t := Dispatch(s, env);
      && (GivesUp(s, t) <==> Cause(s, env))
      && (t.r.state == Stopped && t.r.error == NoAbort <==> Current(s.r).ProgramEnd?)
  {
    CurrentNode(s.r);
  }

  lemma SettleGivesUpNot(s: Sys, plan: PM.Plan)
    requires s.r.state == Stopped ==> !s.r.delay
    ensures Settle(s, plan).r.state == Stopped <==> s.r.state == Stopped
    ensures Settle(s, plan).r.error == s.r.error
  { }

  /** A poll gives a run up if and only if there is one of these causes. */
  lemma PollGivesUpIff(s: Sys, env: Env)
    requires Inv(s) && ValidEvent(s, Polled(env)) && s.r.state != Stopped
    ensures GivesUp(s, Poll(s, env)) <==> Cause(s, env)
  {
    DispatchOutside(s, env);
    SettleGivesUpNot(Dispatch(s, env), env.plan);
    if s.r.state == NodeIniting {
      InitGivesUpIff(s, env);
    } else if s.r.state == Running {
      RunningGivesUpIff(s, env);
    } else if s.r.state in {WaitingForPaused, WaitingForResumed, WaitingForStopped} {
      WaitingHolds(s, env);
    }
  }

  /** When a wait is over: a pause when the motion side is paused, a resume when it drives or has ended,
      a stop when it has ended; until then the interpreter waits on. */
  lemma WaitEndsIff(s: Sys, env: Env)
    requires Inv(s) && !s.r.delay
    ensures var t := Poll(s, env); var ended := s.m.mode == M.Idle || s.m.auto == M.Stopped;
      && (s.r.state == WaitingForPaused && M.Halting(s.m) ==>
            t.r.state == if s.m.auto == M.Paused then Paused else WaitingForPaused)
      && (s.r.state == WaitingForResumed ==>
            t.r.state == if ended || s.m.auto in {M.Normal, M.Stopping} then Running else WaitingForResumed)
      && (s.r.state == WaitingForStopped ==> t.r.state == if ended then Stopped else WaitingForStopped)
      && (s.r.state in {WaitingForPaused, WaitingForResumed, WaitingForStopped} && t.r.state != Stopped ==>
            t.m == s.m && t.r == s.r.(state := t.r.state))
  { }

  // ----- how the interpreter answers its user

  /** A resume is accepted iff the program is paused and no jog runs, or one is under way; a local node
      runs on at once, a motion node when the motion side has resumed it. */
  lemma ResumeAnswers(sqrt: real -> real, s: Sys, plan: PM.Plan)
    requires IsSqrt(sqrt) && Inv(s)
    ensures var (t, ok) := Resume(sqrt, s, plan);
      && (ok <==>
            || s.r.state == WaitingForResumed
            || (s.r.state == Paused
                && (OnMotion(s.r) ==> s.m.recovering || s.m.pmc.state != PC.ManualMoving)))
      && (ok && s.r.state == Paused ==> t.r.state == if OnMotion(s.r) then WaitingForResumed else Running)
      && (!ok ==> t == s)
  {
    M.ResumeKeeps(sqrt, s.m, plan);
  }

  /** A stop is accepted iff a program runs that has been polled, unless its rapid move ended on contact
      while it was to be paused.  A node that the motion side still executes is stopped there first;
      otherwise the run ends at once, without an error. */
  lemma StopAnswers(s: Sys, plan: PM.Plan)
    requires Inv(s)
    ensures var (t, ok) := StopRun(s, plan);
      && (ok <==> s.r.state !in {ReadyToStart, Stopped} && !(s.r.state == WaitingForPaused && s.m.mode == M.Idle))
      && (ok && s.r.state != WaitingForStopped ==>
            if Owns(s.r) && s.m.mode == M.Auto then t.r.state == WaitingForStopped && M.Ending(t.m)
            else t.r.state == Stopped && t.r.error == NoAbort)
      && (!ok ==> t == s)
  {
    M.StopKeeps(s.m, plan);
  }

  /** An emergency stop leaves nothing running. */
  lemma EmergencyStopsAll(s: Sys)
    ensures var t := EmergencyStop(s);
      && t.r.state == Stopped && !t.r.delay && t.m.mode == M.Idle && t.m.cmd == s.m.cmd
      && (s.r.state != Stopped ==> t.r.error == Estop)
  { }

  /** Exactly when that happens: while the interpreter waits for the pause of a rapid move, contact
      in the next cycle, and nothing else in it, makes the next poll give up. */
  lemma ContactWhilePausingGivesUp(sqrt: real -> real, s: Sys, inp: M.Input, env: Env)
    requires IsSqrt(sqrt) && Inv(s) && s.r.state == WaitingForPaused && M.Halting(s.m)
    requires inp.g01.jump.buffer >= 0.0
    ensures var t := s.(m := M.Tick(sqrt, s.m, inp));
      GivesUp(t, Poll(t, env)) <==> M.ContactWhilePausing(s.m, inp)
  {
    M.TickKeeps(sqrt, s.m, inp);
    CycleInv(sqrt, s, inp);
    WaitingHolds(s.(m := M.Tick(sqrt, s.m, inp)), env);
  }

  /** A running rapid move that is paused and touches something while it brakes. */
  lemma ContactAfterPause(sqrt: real -> real, s: Sys) returns (es: seq<Event>, env: Env)
    requires s.r.state == Running && !s.r.delay && Current(s.r).G00?
    requires s.m.mode == M.Auto && s.m.auto == M.Normal && !s.m.recovering && s.m.task.G00? && s.m.task.detect
    requires var mv := s.m.task.h.mv; mv.phase == PM.Running && mv.gone < mv.whole
    ensures ValidRun(sqrt, s, es)
    ensures var t := Exec(sqrt, s, es); t.r.state == WaitingForPaused && GivesUp(t, Poll(t, env))
  {
    var plan := PM.Plan(1, 1.0, false);
    env := Env(Skips, true, true, plan);
    var jump := G.JumpParam(0.0, 0, 0.0);
    var contact := Cycle(M.Input(G.Input(0, jump, true, 0.0, plan, 0.0), true, plan, 0.0, s.m.cmd, false));
    var s1 := Step(sqrt, s, UserPause(plan));
    var s2 := Step(sqrt, s1, contact);
    assert s1.r.state == WaitingForPaused && s1.m.auto == M.Pausing;
    assert s2.m.auto == M.Stopping;
    Prepend(sqrt, s1, contact, []);
    Prepend(sqrt, s, UserPause(plan), [contact] + []);
    es := [UserPause(plan)] + ([contact] + []);
  }

  /** A program that begins with a rapid move gets it running. */
  lemma RapidMoveRuns(sqrt: real -> real, s0: Sys) returns (start: Event, idle: Event, launch: Event)
    requires IsSqrt(sqrt) && Initial(s0)
    ensures var s1 := Step(sqrt, s0, start); var s2 := Step(sqrt, s1, idle); var s := Step(sqrt, s2, launch);
      && ValidEvent(s0, start) && ValidEvent(s1, idle) && ValidEvent(s2, launch)
      && s.r.state == Running && !s.r.delay && Current(s.r).G00?
      && s.m.mode == M.Auto && s.m.auto == M.Normal && !s.m.recovering && s.m.task.G00? && s.m.task.detect
      && s.m.task.h.mv.phase == PM.Running && s.m.task.h.mv.gone < s.m.task.h.mv.whole
  {
    var cmd := s0.m.cmd;
    var plan := PM.Plan(1, 1.0, false);
    var h := PM.StartHandler(cmd, cmd[0 := cmd[0] + 10.0], 10.0, plan);
    var list := [GCodeProgram.G00(false), ProgramEnd];
    start := UserStart(list, {}, {});
    idle := Polled(Env(Skips, true, true, plan));
    launch := Polled(Env(Sends(M.G00(h, true), true), true, true, plan));
    var r := Runner(list, 0, ReadyToStart, false, NoAbort, []);
    assert Step(sqrt, s0, start) == Sys(r, s0.m);
    assert Step(sqrt, Sys(r, s0.m), idle) == Sys(r.(state := NodeIniting), s0.m);
  }

  /** And it does happen, from the very start of the system. */
  lemma ContactWhilePausingHappens(sqrt: real -> real, s0: Sys) returns (es: seq<Event>, env: Env)
    requires IsSqrt(sqrt) && Initial(s0)
    ensures ValidRun(sqrt, s0, es)
    ensures var s := Exec(sqrt, s0, es); s.r.state == WaitingForPaused && GivesUp(s, Poll(s, env))
  {
    var start, idle, launch := RapidMoveRuns(sqrt, s0);
    var s1 := Step(sqrt, s0, start);
    var s2 := Step(sqrt, s1, idle);
    var tail;
    tail, env := ContactAfterPause(sqrt, Step(sqrt, s2, launch));
    Prepend(sqrt, s2, launch, tail);
    Prepend(sqrt, s1, idle, [launch] + tail);
    Prepend(sqrt, s0, start, [idle] + ([launch] + tail));
    es := [start] + ([idle] + ([launch] + tail));
  }

  lemma Prepend(sqrt: real -> real, s: Sys, e: Event, es: seq<Event>)
    requires ValidEvent(s, e) && ValidRun(sqrt, Step(sqrt, s, e), es)
    ensures ValidRun(sqrt, s, [e] + es) && Exec(sqrt, s, [e] + es) == Exec(sqrt, Step(sqrt, s, e), es)
  {
    assert ([e] + es)[1..] == es;
  }

  /** A paused interpreter has a paused task below it; a G01 task then has left its jump, is on its
      line and has the discharge power off. */
  lemma PausedTogether(sqrt: real -> real, s0: Sys, es: seq<Event>)
    requires IsSqrt(sqrt) && Initial(s0) && ValidRun(sqrt, s0, es)
    ensures var s := Exec(sqrt, s0, es);
      s.r.state == Paused && OnMotion(s.r) ==>
        && s.m.mode == M.Auto && s.m.auto == M.Paused && M.ModeOf(s.m.task) == M.Paused
        && (Current(s.r).G01? ==>
              && s.m.task.G01? && s.m.task.t.state == G.Paused && s.m.task.t.servo == G.Servoing
              && !s.m.task.t.power && s.m.task.t.cmd == s.m.task.t.len)
  {
    Reachable(sqrt, s0, es);
  }

  // ----- a task resumes where it was paused

  /** The program is paused, or on its way back to where it was paused. */
  predicate Held(m: M.Motion) {
    m.mode == M.Auto && (m.auto == M.Paused || m.recovering) && m.auto !in {M.Stopping, M.Stopped}
  }

  /** The cycle that completes a pause leaves the axes where the task stands. */
  lemma PausedInPlace(sqrt: real -> real, m: M.Motion, inp: M.Input)
    requires IsSqrt(sqrt) && M.Inv(m) && inp.g01.jump.buffer >= 0.0
    requires !Held(m) && Held(M.Tick(sqrt, m, inp))
    ensures var n := M.Tick(sqrt, m, inp); n.auto == M.Paused && !n.recovering && n.cmd == M.Pos(n.task)
  {
    if !m.recovering && m.auto !in {M.Paused, M.Stopped} {
      M.DriveKeeps(m, inp);
    } else if m.mode == M.Auto && m.recovering {
      M.RecoveringKeeps(sqrt, m, inp);
    }
  }

  lemma HeldCycle(sqrt: real -> real, m: M.Motion, inp: M.Input)
    requires Held(m) && Held(M.Tick(sqrt, m, inp))
    ensures M.Tick(sqrt, m, inp).task == m.task
  { }

  lemma HeldCommands(sqrt: real -> real, m: M.Motion, plan: PM.Plan)
    requires Held(m)
    ensures Held(M.Pause(m, plan).0) ==> M.Pause(m, plan).0.task == m.task
    ensures M.Resume(sqrt, m, plan).0.task == m.task
    ensures Held(M.Stop(m, plan).0) ==> M.Stop(m, plan).0.task == m.task
  { }

  lemma CallsTouchMotion(s: Sys, m: M.Motion, accepted: bool)
    ensures PauseWith(s, m, accepted).0.m in {s.m, m}
    ensures StopWith(s, m, accepted).0.m in {s.m, m} || StopWith(s, m, accepted).0.m.mode == M.Idle
  { }

  /** Nothing that happens meanwhile touches the held task. */
  lemma HeldStep(sqrt: real -> real, s: Sys, e: Event)
    requires Held(s.m) && Held(Step(sqrt, s, e).m)
    ensures Step(sqrt, s, e).m.task == s.m.task
  {
    match e
    case Polled(env) => HeldPoll(s, env);
    case Cycle(inp) => HeldCycle(sqrt, s.m, inp);
    case UserPause(plan) =>
      HeldCommands(sqrt, s.m, plan);
      CallsTouchMotion(s, M.Pause(s.m, plan).0, M.Pause(s.m, plan).1);
    case UserResume(plan) => HeldCommands(sqrt, s.m, plan);
    case UserStop(plan) =>
      HeldCommands(sqrt, s.m, plan);
      CallsTouchMotion(s, M.Stop(s.m, plan).0, M.Stop(s.m, plan).1);
    case _ =>
  }

  lemma HeldPoll(s: Sys, env: Env)
    requires Held(s.m) && Held(Poll(s, env).m)
    ensures Poll(s, env).m.task == s.m.task
  {
    DispatchMotion(s, env);
  }

  ghost predicate StaysHeld(sqrt: real -> real, s: Sys, es: seq<Event>)
    decreases |es|
  {
    Held(s.m) && (es != [] ==> StaysHeld(sqrt, Step(sqrt, s, es[0]), es[1..]))
  }

  lemma {:induction false} HeldTask(sqrt: real -> real, s: Sys, es: seq<Event>)
    requires IsSqrt(sqrt) && Inv(s) && ValidRun(sqrt, s, es) && StaysHeld(sqrt, s, es)
    ensures var t := Exec(sqrt, s, es); Inv(t) && Held(t.m) && t.m.task == s.m.task
    decreases |es|
  {
    if es != [] {
      var s1 := Step(sqrt, s, es[0]);
      assert Held(s1.m);
      StepInv(sqrt, s, es[0]);
      HeldStep(sqrt, s, es[0]);
      HeldTask(sqrt, s1, es[1..]);
    }
  }

  /** From the cycle that completes a pause to the cycle that resumes the task, through any number of
      jogs, resumes, pauses of the way back, polls and refused commands: the task is the same, and
      it goes on at exactly the position commanded when it was paused. */
  lemma ResumesWherePaused(
    sqrt: real -> real, s0: Sys, es0: seq<Event>, pausing: M.Input, es: seq<Event>, resuming: M.Input)
    requires IsSqrt(sqrt) && Initial(s0) && ValidRun(sqrt, s0, es0) && pausing.g01.jump.buffer >= 0.0
    requires var s := Exec(sqrt, s0, es0);
      var p := Step(sqrt, s, Cycle(pausing));
      && !Held(s.m) && ValidRun(sqrt, p, es) && StaysHeld(sqrt, p, es)
      && !Held(M.Tick(sqrt, Exec(sqrt, p, es).m, resuming))
    ensures var p := Step(sqrt, Exec(sqrt, s0, es0), Cycle(pausing));
      var n := M.Tick(sqrt, Exec(sqrt, p, es).m, resuming);
      && n.mode == M.Auto && n.auto == M.Resuming
      && n.cmd == M.Pos(n.task) == p.m.cmd && M.Pos(p.m.task) == p.m.cmd
  {
    Reachable(sqrt, s0, es0);
    var s := Exec(sqrt, s0, es0);
    var p := Step(sqrt, s, Cycle(pausing));
    CycleInv(sqrt, s, pausing);
    PausedInPlace(sqrt, s.m, pausing);
    HeldTask(sqrt, p, es);
    LeavesHeld(sqrt, Exec(sqrt, p, es).m, resuming);
  }

  /** A cycle leaves the held states only by resuming the task, where it stands. */
  lemma LeavesHeld(sqrt: real -> real, m: M.Motion, inp: M.Input)
    requires IsSqrt(sqrt) && M.Inv(m) && Held(m) && !Held(M.Tick(sqrt, m, inp))
    ensures var n := M.Tick(sqrt, m, inp);
      n.mode == M.Auto && n.auto == M.Resuming && n.cmd == M.Pos(n.task) == M.Pos(m.task)
  {
    if m.recovering && m.auto == M.Normal {
      M.RetracingKeeps(sqrt, m, inp);
    } else if m.recovering {
      M.RecoveringKeeps(sqrt, m, inp);
    } else {
      M.PausedKeeps(sqrt, m, inp);
    }
  }

  // ----- contact ends a rapid move

  /** Contact while a rapid move runs stops it where it is, and the warning stays; two cycles later
      the motion side is idle. */
  lemma ContactStops(sqrt: real -> real, m: M.Motion, first: M.Input, second: M.Input)
    requires M.Inv(m) && m.mode == M.Auto && m.auto == M.Normal && !m.recovering
    requires m.task.G00? && m.task.detect && first.contact
    ensures var r := M.Tick(sqrt, M.Tick(sqrt, m, first), second);
      r.mode == M.Idle && r.warning && r.cmd == m.cmd
  {
    var m1 := M.Tick(sqrt, m, first);
    assert m1.auto == M.Stopping && m1.warning && m1.mode == M.Auto && m1.cmd == m.cmd;
    assert m1.task.G00? && m1.task.h.mv.phase == PM.Stopped && M.Pos(m1.task) == m.cmd;
  }

  /** A touch motion then goes on with the next node, the warning acknowledged; any other rapid move
      gives the run up. */
  lemma ContactEndsRapidMove(sqrt: real -> real, s: Sys, first: M.Input, second: M.Input, env: Env)
    requires Inv(s) && s.r.state == Running && !s.r.delay && Current(s.r).G00?
    requires s.m.mode == M.Auto && s.m.auto == M.Normal && !s.m.recovering && s.m.task.G00? && s.m.task.detect
    requires first.contact && env.ackOk
    ensures var t := Poll(s.(m := M.Tick(sqrt, M.Tick(sqrt, s.m, first), second)), env);
      && t.m.cmd == s.m.cmd
      && (Current(s.r).touch ==> t.r == s.r.(idx := s.r.idx + 1, state := NodeIniting) && !t.m.warning)
      && (!Current(s.r).touch ==> t.r.state == Stopped && t.r.error == TouchWarning)
  {
    ContactStops(sqrt, s.m, first, second);
    CurrentNode(s.r);
  }

  // ----- program order

  /** What has happened to a program is at every moment the nodes 0, 1, 2, ... in this order, each
      once, up to the current one: none is passed over, every local node before the current one has
      taken effect, and a motion node has taken effect or was found to have nothing to do.  The index
      never passes the first M02, and neither overflow nor unknown kinds ever occur. */
  lemma ProgramOrder(sqrt: real -> real, s0: Sys, es: seq<Event>)
    requires IsSqrt(sqrt) && Initial(s0) && ValidRun(sqrt, s0, es)
    ensures var r := Exec(sqrt, s0, es).r;
      && r.idx <= |r.trail| <= r.idx + 1 && |r.trail| <= |r.list|
      && (forall i | 0 <= i < |r.trail| :: r.trail[i].node == i && (r.trail[i].done || IsMotion(r.list[i])))
      && (forall i | 0 <= i < r.idx :: i < |r.list| && !r.list[i].ProgramEnd?)
      && (r.state != Stopped ==> r.idx < |r.list|)
      && r.error !in {Overflow, UnknownKind}
  {
    Reachable(sqrt, s0, es);
  }

  // ----- a refused pause is remembered

  predicate Halted(s: Sys) { s.r.state in {WaitingForPaused, Paused, Stopped} }

  /** One step with a remembered pause: it stays remembered, and only a motion node can take effect. */
  ghost predicate StillOwed(s: Sys, t: Sys) {
    && t.r.delay && t.r.list == s.r.list
    && (t.r.trail == s.r.trail
        || (OnMotion(s.r) && exists done :: t.r.trail == s.r.trail + [Visit(s.r.idx, done)]))
  }

  lemma DispatchOwes(s: Sys, env: Env)
    requires Outside(s) && s.r.delay && !Halted(s) && ValidEvent(s, Polled(env))
    ensures var t := Dispatch(s, env);
      t.r.state in {Paused, Stopped} || StillOwed(s, t)
  {
    if s.r.state == NodeIniting || s.r.state == Running { CurrentNode(s.r); }
  }

  lemma SettleOwes(s: Sys, plan: PM.Plan)
    ensures var t := Settle(s, plan);
      && t.r.list == s.r.list && t.r.trail == s.r.trail
      && (s.r.state in {Paused, Stopped} ==> t.r.state == s.r.state)
      && (s.r.delay ==> t.r.delay || t.r.state in {WaitingForPaused, Paused})
  { }

  lemma StepOwes(sqrt: real -> real, s: Sys, e: Event)
    requires Inv(s) && s.r.delay && !Halted(s) && ValidEvent(s, e)
    ensures var t := Step(sqrt, s, e); Halted(t) || StillOwed(s, t)
  {
    if e.Polled? {
      DispatchOwes(s, e.env);
      SettleOwes(Dispatch(s, e.env), e.env.plan);
    }
  }

  /** No state of a run is halted. */
  ghost predicate KeepsGoing(sqrt: real -> real, s: Sys, es: seq<Event>)
    decreases |es|
  {
    !Halted(s) && (es != [] ==> KeepsGoing(sqrt, Step(sqrt, s, es[0]), es[1..]))
  }

  /** A refused pause is never lost: for as long as the run neither pauses nor ends it stays
      remembered, and everything that takes effect meanwhile is a motion node. */
  lemma {:induction false} RefusedPauseIsKept(sqrt: real -> real, s: Sys, es: seq<Event>)
    requires IsSqrt(sqrt) && Inv(s) && s.r.delay && ValidRun(sqrt, s, es) && KeepsGoing(sqrt, s, es)
    ensures var t := Exec(sqrt, s, es);
      && t.r.delay && t.r.list == s.r.list && s.r.trail <= t.r.trail
      && forall i | |s.r.trail| <= i < |t.r.trail| ::
           var k := t.r.trail[i].node; k < |t.r.list| && IsMotion(t.r.list[k])
    decreases |es|
  {
    if es != [] {
      var s1 := Step(sqrt, s, es[0]);
      StepInv(sqrt, s, es[0]);
      StepOwes(sqrt, s, es[0]);
      RefusedPauseIsKept(sqrt, s1, es[1..]);
    }
  }

  /** A refused pause is remembered iff the program was running or initialising a node; between start
      and the first poll it is refused and forgotten. */
  lemma RefusedPauseIsRemembered(s: Sys, plan: PM.Plan)
    requires Inv(s) && !Pause(s, plan).1
    ensures Pause(s, plan).0.r.delay <==> s.r.delay || s.r.state in {NodeIniting, Running, WaitingForResumed}
    ensures s.r.state == ReadyToStart ==> Pause(s, plan).0 == s && !s.r.delay
  {
    PauseInv(s, plan);
  }

  /** Such a program runs to its end although the user asked for a pause. */
  lemma ForgottenPause(sqrt: real -> real, s0: Sys) returns (pause: Event, es: seq<Event>)
    requires IsSqrt(sqrt) && Initial(s0)
    ensures pause.UserPause? && pause in es && ValidRun(sqrt, s0, es)
    ensures var r := Exec(sqrt, s0, es).r; r.state == Stopped && r.error == NoAbort && r.trail == [Visit(0, true)]
  {
    var plan := PM.Plan(0, 0.0, true);
    var list := [ProgramEnd];
    var start, poll := UserStart(list, {}, {}), Polled(Env(Skips, true, true, plan));
    pause := UserPause(plan);
    var r := Runner(list, 0, ReadyToStart, false, NoAbort, []);
    var s1, s2, s3 := Sys(r, s0.m), Sys(r.(state := NodeIniting), s0.m), Sys(r.(state := Running), s0.m);
    assert Step(sqrt, s0, start) == s1 && Step(sqrt, s1, pause) == s1;
    assert Step(sqrt, s1, poll) == s2 && Step(sqrt, s2, poll) == s3;
    var s4 := Step(sqrt, s3, poll);
    assert s4.r == r.(state := Stopped, trail := [Visit(0, true)]);
    Prepend(sqrt, s3, poll, []);
    Prepend(sqrt, s2, poll, [poll] + []);
    Prepend(sqrt, s1, poll, [poll] + ([poll] + []));
    Prepend(sqrt, s1, pause, [poll] + ([poll] + ([poll] + [])));
    Prepend(sqrt, s0, start, [pause] + ([poll] + ([poll] + ([poll] + []))));
    es := [start] + ([pause] + ([poll] + ([poll] + ([poll] + []))));
  }
}
