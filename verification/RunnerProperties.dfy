/** What every run of interpreter and motion side keeps: the waiting states never find the motion
    side where they do not expect it, the program is executed in order, and a refused pause is
    remembered. */
module RunnerProperties {
  import opened GCodeProgram
  import opened RunnerMachine
  import opened Axes
  import M = Motion
  import PM = PointMove

  // ----- the invariant

  /** The interpreter owns an automatic task. */
  predicate Owns(r: Runner) {
    OnMotion(r) && r.state in {Running, WaitingForPaused, Paused, WaitingForResumed, WaitingForStopped}
  }

  /** Where the motion side is, by state of the interpreter.  A rapid move alone can have ended on
      contact while the interpreter waits for the pause. */
  ghost predicate Together(r: Runner, m: M.Motion) {
    && (r.state in {WaitingForPaused, WaitingForResumed, WaitingForStopped} ==> OnMotion(r))
    && (Owns(r) ==> m.mode != M.Manual)
    && (Owns(r) && m.mode == M.Auto ==> Builds(Current(r), M.KindOf(m.task)))
    && (!Owns(r) && m.mode == M.Auto ==> m.auto == M.Stopped)
    && (r.state == WaitingForPaused ==> M.Halting(m) || (Current(r).G00? && M.Ending(m)))
    && (r.state == Paused && OnMotion(r) ==> m.mode == M.Auto && m.auto == M.Paused)
    && (r.state == WaitingForResumed ==> M.Going(m))
    && (r.state == WaitingForStopped ==> M.Ending(m))
  }

  /** The current node has already taken effect. */
  predicate Done(r: Runner) { Owns(r) || r.state == Stopped }

  /** The history is exactly the nodes 0, 1, 2, ... in this order, each once; only motion nodes are
      ever skipped. */
  ghost predicate Orderly(list: seq<Node>, trail: seq<Visit>) {
    && |trail| <= |list|
    && forall i | 0 <= i < |trail| :: trail[i].node == i && (trail[i].done || IsMotion(list[i]))
  }

  /** A program of known kinds, its history, and no M02 before node `idx`. */
  ghost predicate Listed(list: seq<Node>, trail: seq<Visit>, idx: nat) {
    && Orderly(list, trail)
    && (forall n | n in list :: Executable(n))
    && (forall i | 0 <= i < idx && i < |list| :: !list[i].ProgramEnd?)
  }

  /** The history reaches up to the current node, and includes it if that has taken effect. */
  ghost predicate InOrder(r: Runner) {
    && Listed(r.list, r.trail, r.idx)
    && r.idx <= |r.trail| <= r.idx + (if Done(r) then 1 else 0)
    && (Owns(r) ==> |r.trail| == r.idx + 1 && r.trail[r.idx].done)
    && r.error !in {Overflow, UnknownKind}
    && (r.state != Stopped ==> r.idx < |r.list| && r.list[|r.list| - 1].ProgramEnd?)
  }

  /** A remembered pause is never pending where a local node could take effect. */
  ghost predicate Remembers(r: Runner) {
    r.delay ==>
      || r.state in {NodeIniting, WaitingForPaused, WaitingForResumed, WaitingForStopped}
      || (r.state == Running && OnMotion(r))
  }

  /** The part of the invariant that looks at the motion side from outside only. */
  ghost predicate Outside(s: Sys) { Together(s.r, s.m) && InOrder(s.r) && Remembers(s.r) }

  ghost predicate Inv(s: Sys) { M.Inv(s.m) && Outside(s) }

  /** The current node is one the runner has a branch for, and the last one before M02 is not. */
  lemma CurrentNode(r: Runner)
    requires InOrder(r) && r.state != Stopped
    ensures Executable(Current(r)) && (!Current(r).ProgramEnd? ==> r.idx + 1 < |r.list|)
  {
    assert r.list[r.idx] in r.list;
  }

  // ----- public calls keep it

  lemma StartInv(s: Sys, list: seq<Node>, eleparams: set<int>, coords: set<int>)
    requires Outside(s) && forall n | n in list :: Executable(n)
    ensures Outside(Start(s, list, eleparams, coords).0)
  { }

  /** What a call of `pause()` achieves. */
  ghost predicate PauseDone(s: Sys, t: Sys, ok: bool) {
    && t.r.trail == s.r.trail && t.r.idx == s.r.idx && t.r.list == s.r.list
    && (ok ==> t.r.state in {WaitingForPaused, Paused})
    && (!ok ==> t.r.state == s.r.state && (s.r.state in {NodeIniting, Running, WaitingForResumed} ==> t.r.delay))
  }

  /** Between the two halves of a poll a remembered pause may be pending anywhere. */
  lemma PauseWithInv(s: Sys, m: M.Motion, accepted: bool)
    requires Together(s.r, s.m) && InOrder(s.r)
    requires m.mode == s.m.mode && M.KindOf(m.task) == M.KindOf(s.m.task)
    requires if accepted then M.Halting(m) else m == s.m
    ensures var (t, ok) := PauseWith(s, m, accepted);
      Together(t.r, t.m) && InOrder(t.r) && PauseDone(s, t, ok) && (Remembers(s.r) ==> Remembers(t.r))
  { }

  lemma PauseInv(s: Sys, plan: PM.Plan)
    requires M.Inv(s.m) && Together(s.r, s.m) && InOrder(s.r)
    ensures var (t, ok) := Pause(s, plan);
      && M.Inv(t.m) && Together(t.r, t.m) && InOrder(t.r) && PauseDone(s, t, ok)
      && (Remembers(s.r) ==> Remembers(t.r))
  {
    M.PauseKeeps(s.m, plan);
    PauseWithInv(s, M.Pause(s.m, plan).0, M.Pause(s.m, plan).1);
  }

  lemma ResumeInv(sqrt: real -> real, s: Sys, plan: PM.Plan)
    requires IsSqrt(sqrt) && Inv(s)
    ensures Inv(Resume(sqrt, s, plan).0)
  {
    M.ResumeKeeps(sqrt, s.m, plan);
  }

  lemma StopWithInv(s: Sys, m: M.Motion, accepted: bool)
    requires Outside(s)
    requires m.mode == s.m.mode && M.KindOf(m.task) == M.KindOf(s.m.task)
    requires if accepted then M.Ending(m) && m.mode == M.Auto else m == s.m && m.mode != M.Auto
    ensures Outside(StopWith(s, m, accepted).0)
  { }

  lemma StopInv(s: Sys, plan: PM.Plan)
    requires Inv(s)
    ensures Inv(StopRun(s, plan).0)
  {
    M.StopKeeps(s.m, plan);
    StopWithInv(s, M.Stop(s.m, plan).0, M.Stop(s.m, plan).1);
  }

  lemma JogInv(sqrt: real -> real, s: Sys, target: Axis, detect: bool, immediate: bool, plan: PM.Plan)
    requires IsSqrt(sqrt) && Inv(s)
    ensures Inv(Step(sqrt, s, StartJog(target, detect, plan))) && Inv(Step(sqrt, s, StopJog(immediate, plan)))
  {
    M.JogKeeps(sqrt, s.m, target, detect, immediate, plan);
  }

  lemma CycleInv(sqrt: real -> real, s: Sys, inp: M.Input)
    requires IsSqrt(sqrt) && Inv(s) && inp.g01.jump.buffer >= 0.0
    ensures Inv(s.(m := M.Tick(sqrt, s.m, inp)))
  {
    M.TickKeeps(sqrt, s.m, inp);
  }

  // ----- polls keep it

  /** The list is in order and the current node, whether or not it took effect, is behind us. */
  ghost predicate Passed(r: Runner) {
    && r.state != Stopped && r.idx + 1 < |r.list|
    && !Current(r).ProgramEnd? && r.list[|r.list| - 1].ProgramEnd?
    && Listed(r.list, r.trail, r.idx) && |r.trail| == r.idx + 1
    && r.error !in {Overflow, UnknownKind}
  }

  lemma NextNodeInv(s: Sys)
    requires Passed(s.r) && (s.m.mode == M.Auto ==> s.m.auto == M.Stopped)
    ensures Outside(NextNode(s)) && NextNode(s).r.state == NodeIniting
  { }

  lemma RecordOrder(r: Runner, done: bool)
    requires InOrder(r) && r.state != Stopped && !Done(r) && (done || OnMotion(r))
    ensures Orderly(r.list, r.trail + [Visit(r.idx, done)])
  { }

  lemma RunLocalInv(s: Sys, env: Env)
    requires Outside(s) && s.r.state == Running && !OnMotion(s.r)
    ensures Outside(RunLocal(s, env))
  {
    CurrentNode(s.r);
    RecordOrder(s.r, true);
    if !Current(s.r).ProgramEnd? { NextNodeInv(TakeEffect(s)); }
  }

  /** After its preparation a node is running, unless the run goes on to the next node or ends. */
  lemma InitNodeInv(s: Sys, env: Env)
    requires Outside(s) && s.r.state == NodeIniting && ValidEvent(s, Polled(env))
    ensures var t := InitNode(s, env);
      Together(t.r, t.m) && InOrder(t.r) && t.r.state in {NodeIniting, Running, Stopped}
  {
    CurrentNode(s.r);
    RecordOrder(s.r, true);
    if OnMotion(s.r) && env.prepared.Skips? {
      RecordOrder(s.r, false);
      NextNodeInv(Skip(s));
    }
  }

  lemma RunMotionInv(s: Sys, env: Env)
    requires Outside(s) && s.r.state == Running && OnMotion(s.r)
    ensures Outside(RunMotion(s, env))
  {
    CurrentNode(s.r);
    if s.m.mode == M.Idle {
      NextNodeInv(s);
      NextNodeInv(s.(m := s.m.(warning := false)));
    }
  }

  lemma WaitPausedInv(s: Sys)
    requires Outside(s) && s.r.state == WaitingForPaused
    ensures Outside(WaitPaused(s))
  { }

  lemma WaitResumedInv(s: Sys)
    requires Outside(s) && s.r.state == WaitingForResumed
    ensures Outside(WaitResumed(s))
  { }

  lemma WaitStoppedInv(s: Sys)
    requires Outside(s) && s.r.state == WaitingForStopped
    ensures Outside(WaitStopped(s))
  { }

  /** The first half of a poll leaves a pending pause only where the second half can deal with it. */
  lemma DispatchOutside(s: Sys, env: Env)
    requires Outside(s) && ValidEvent(s, Polled(env))
    ensures var t := Dispatch(s, env);
      && Together(t.r, t.m) && InOrder(t.r)
      && (t.r.delay ==> t.r.state !in {ReadyToStart, Stopped, Paused})
      && (Remembers(t.r) || (s.r.state == NodeIniting && t.r.state == Running))
  {
    match s.r.state
    case NodeIniting => InitNodeInv(s, env);
    case Running => if OnMotion(s.r) { RunMotionInv(s, env); } else { RunLocalInv(s, env); }
    case WaitingForPaused => WaitPausedInv(s);
    case WaitingForResumed => WaitResumedInv(s);
    case WaitingForStopped => WaitStoppedInv(s);
    case _ =>
  }

  /** What the first half of a poll can do to the motion side: nothing, a reset, acknowledging a warning
      in idle mode, or launching the prepared task.  It moves nothing. */
  ghost predicate Touched(s: Sys, env: Env, m: M.Motion) {
    && m.cmd == s.m.cmd
    && (|| m == s.m || m.mode == M.Idle
        || (s.r.state == NodeIniting && env.prepared.Sends?
            && m == M.Launch(s.m, env.prepared.task, env.prepared.ready).0))
  }

  lemma InitMotion(s: Sys, env: Env)
    requires s.r.state == NodeIniting
    ensures Touched(s, env, InitNode(s, env).m)
  { }

  lemma RunTouches(s: Sys, env: Env)
    ensures Touched(s, env, RunLocal(s, env).m) && Touched(s, env, RunMotion(s, env).m)
  { }

  lemma WaitTouches(s: Sys, env: Env)
    ensures Touched(s, env, WaitPaused(s).m) && Touched(s, env, WaitResumed(s).m) && Touched(s, env, WaitStopped(s).m)
  { }

  lemma DispatchMotion(s: Sys, env: Env)
    ensures Touched(s, env, Dispatch(s, env).m)
  {
    match s.r.state
    case NodeIniting => InitMotion(s, env);
    case Running => RunTouches(s, env);
    case _ => WaitTouches(s, env);
  }

  /** The second half of a poll. */
  lemma SettleInv(s: Sys, plan: PM.Plan)
    requires M.Inv(s.m) && Together(s.r, s.m) && InOrder(s.r)
    requires s.r.delay ==> s.r.state !in {ReadyToStart, Stopped, Paused}
    ensures Inv(Settle(s, plan))
  {
    if s.r.delay {
      PauseInv(s, plan);
      var (t, ok) := Pause(s, plan);
      if !ok { StillPending(s, plan); }
    }
  }

  lemma StillPending(s: Sys, plan: PM.Plan)
    requires s.r.delay && s.r.state !in {ReadyToStart, Stopped, Paused} && !Pause(s, plan).1
    ensures Remembers(Pause(s, plan).0.r)
  { }

  lemma PollInv(s: Sys, env: Env)
    requires Inv(s) && ValidEvent(s, Polled(env))
    ensures Inv(Poll(s, env))
  {
    DispatchOutside(s, env);
    DispatchMotion(s, env);
    if env.prepared.Sends? { M.LaunchKeeps(s.m, env.prepared.task, env.prepared.ready); }
    SettleInv(Dispatch(s, env), env.plan);
  }

  lemma StepInv(sqrt: real -> real, s: Sys, e: Event)
    requires IsSqrt(sqrt) && Inv(s) && ValidEvent(s, e)
    ensures Inv(Step(sqrt, s, e))
  {
    match e
    case UserStart(list, eleparams, coords) => StartInv(s, list, eleparams, coords);
    case UserPause(plan) => PauseInv(s, plan);
    case UserResume(plan) => ResumeInv(sqrt, s, plan);
    case UserStop(plan) => StopInv(s, plan);
    case UserEstop =>
    case Polled(env) => PollInv(s, env);
    case Cycle(inp) => CycleInv(sqrt, s, inp);
    case StartJog(target, detect, plan) => JogInv(sqrt, s, target, detect, false, plan);
    case StopJog(immediate, plan) => JogInv(sqrt, s, s.m.cmd, false, immediate, plan);
  }

  lemma {:induction false} ExecInv(sqrt: real -> real, s: Sys, es: seq<Event>)
    requires IsSqrt(sqrt) && Inv(s) && ValidRun(sqrt, s, es)
    ensures Inv(Exec(sqrt, s, es))
    decreases |es|
  {
    if es != [] {
      StepInv(sqrt, s, es[0]);
      ExecInv(sqrt, Step(sqrt, s, es[0]), es[1..]);
    }
  }
}
