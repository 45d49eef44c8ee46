/** What every run of the G01 task keeps: the envelope of commanded positions, closed jumps, the
    discharge power, and pauses that always complete. */
module G01Properties {
  import opened G01Machine
  import opened RealFacts
  import PM = PointMove

  // ----- the envelope

  /** The deepest retreat behind the start that any jump may command. */
  function Behind(c: Line): real {
    if c.headroom > LIMIT_GAP then LIMIT_GAP - c.headroom else 0.0
  }

  ghost predicate Safe(c: Line, t: Task) {
    && Behind(c) <= t.cmd <= c.total
    && (t.servo != Servoing ==> t.cmd <= t.lenBefore)
    && (t.servo == JumpUping ==> t.upTarget <= t.cmd)
    && (t.servo in {JumpUping, JumpDowning} ==> t.upTarget - LIMIT_GAP >= -c.headroom)
  }

  lemma InvSafe(c: Line, t: Task)
    requires ValidLine(c) && Inv(c, t)
    ensures Safe(c, t)
  { }

  /** Over every run the commanded position stays between the deepest allowed retreat and the end
      of the line; a jump never goes deeper than where it began, and its turning point keeps the
      100 um gap to the length the interpreter reported as free. */
  lemma EveryRunSafe(c: Line, now: int, jump: JumpParam, es: seq<Event>)
    requires ValidLine(c) && ValidEvents(es)
    ensures Safe(c, Exec(c, Init(now, jump), es))
  {
    InitInv(c, now, jump);
    ExecInv(c, Init(now, jump), es);
    InvSafe(c, Exec(c, Init(now, jump), es));
  }

  // ----- jumps are closed and continuous

  /** The position from which the phase a task is in takes over. */
  function TakeOver(t: Task): real {
    match t.servo
    case Servoing => t.len
    case JumpUping => t.from
    case JumpDowning => t.from
    case JumpDowningBuffer => t.len
  }

  /** Whenever a cycle changes the servo substate, the new phase takes over at exactly the
      position commanded in that cycle.  Up to the buffer nothing moves in the hand-over cycle;
      the turning point and the buffer start are the planned ones. */
  lemma HandOver(c: Line, t: Task, inp: Input)
    requires ValidLine(c) && Inv(c, t) && inp.jump.buffer >= 0.0
    requires Tick(c, t, inp).servo != t.servo
    ensures var r := Tick(c, t, inp);
      && TakeOver(r) == r.cmd
      && (r.servo in {JumpUping, JumpDowning} ==> r.mover.gone == 0.0 && r.mover.ticks == inp.plan.extraTicks + 1)
      && (r.servo != Servoing ==> r.cmd == t.cmd)
      && (r.servo == JumpUping ==> t.servo == Servoing && r.lenBefore == r.cmd)
      && (r.servo == JumpDowning ==> t.servo == JumpUping && r.cmd == t.lenBefore - t.jump.up)
      && (r.servo == JumpDowningBuffer ==>
            t.servo == JumpDowning && r.cmd == t.lenBefore - t.jump.buffer && r.cmd >= 0.0)
      && (r.servo == Servoing ==>
            && t.servo == JumpDowningBuffer
            && (inp.servoCmd > 0.0 ==> r.cmd == t.lenBefore)
            && (inp.servoCmd <= 0.0 ==> r.cmd == t.cmd))
  {
    ValidatedBounds(c, t.len, inp.jump);
  }

  ghost predicate Jumping(c: Line, t: Task, es: seq<Event>) {
    forall k | 0 <= k <= |es| :: Exec(c, t, es[..k]).servo != Servoing
  }

  lemma JumpStep(c: Line, t: Task, e: Event)
    requires ValidLine(c) && Inv(c, t) && ValidEvent(e) && t.servo != Servoing && Step(c, t, e).servo != Servoing
    ensures var r := Step(c, t, e); r.jump == t.jump && r.lenBefore == t.lenBefore && r.upTarget == t.upTarget
  { }

  /** While a jump lasts, whatever is commanded meanwhile, its height, buffer and starting length
      stay fixed and the position stays between the turning point and the start of the jump. */
  lemma {:induction false} JumpStaysPlanned(c: Line, t: Task, es: seq<Event>)
    requires ValidLine(c) && Inv(c, t) && ValidEvents(es) && Jumping(c, t, es)
    ensures var r := Exec(c, t, es);
      && r.jump == t.jump && r.lenBefore == t.lenBefore && r.upTarget == t.upTarget
      && t.upTarget <= r.cmd <= t.lenBefore
    decreases |es|
  {
    assert Exec(c, t, es[..0]).servo != Servoing;
    if es == [] {
      InvSafe(c, t);
    } else {
      var t1 := Step(c, t, es[0]);
      JumpingNext(c, t, es);
      StepInv(c, t, es[0]);
      JumpStep(c, t, es[0]);
      JumpStaysPlanned(c, t1, es[1..]);
    }
  }

  lemma JumpingNext(c: Line, t: Task, es: seq<Event>)
    requires es != [] && Jumping(c, t, es)
    ensures Step(c, t, es[0]).servo != Servoing && Jumping(c, Step(c, t, es[0]), es[1..])
  {
    var t1 := Step(c, t, es[0]);
    forall k | 0 <= k <= |es[1..]| ensures Exec(c, t1, es[1..][..k]).servo != Servoing {
      assert es[..k + 1][1..] == es[1..][..k];
      assert Exec(c, t, es[..k + 1]).servo != Servoing;
    }
    assert Exec(c, t1, es[1..][..0]).servo != Servoing;
  }

  // ----- how the task answers

  /** A pause is accepted iff the task runs or is pausing or paused, a resume iff it is paused or resuming,
      a stop always.  A stop ends a paused or resuming task at once and lets a running or pausing one
      finish its jump first.  Nothing moves. */
  lemma CommandsAnswer(t: Task)
    ensures var (p, ok) := Pause(t);
      && (ok <==> t.state in {NormalRunning, Pausing, Paused}) && p.cmd == t.cmd && p.servo == t.servo
      && p.state == (if t.state == NormalRunning then Pausing else t.state)
    ensures var (r, ok) := Resume(t);
      && (ok <==> t.state in {Paused, Resuming}) && r.cmd == t.cmd && r.servo == t.servo
      && r.state == (if t.state == Paused then Resuming else t.state)
    ensures var (s, ok) := Stop(t);
      && ok && s.cmd == t.cmd && s.servo == t.servo && s.power == t.power
      && s.state == (if t.state in {Paused, Resuming, Stopped} then Stopped else Stopping)
  { }

  // ----- when jumps begin

  function Smaller(x: real, y: real): real { if x <= y then x else y }

  /** Height and buffer set, cut at the free length less 100 um and at the way back, leave a jump of at
      least 10 um with 10 um above its buffer. */
  predicate Allowed(c: Line, len: real, inp: Input) {
    var up := Smaller(inp.jump.up, len + c.headroom - 100.0);
    && inp.jump.up >= 10.0 && !inp.skipJump
    && up >= 10.0 && Smaller(inp.jump.buffer, len) + 10.0 <= up
  }

  /** A normal cycle begins a jump if and only if the interval since the last jump is over and the jump
      is allowed; then it is exactly as high, and its buffer as long, as set and cut. */
  lemma JumpBeginsIff(c: Line, t: Task, inp: Input)
    requires t.state == NormalRunning && t.servo == Servoing
    ensures var r := Tick(c, t, inp);
      && (r.servo == JumpUping <==> inp.now - t.lastJumpEnd > inp.jump.dn && Allowed(c, t.len, inp))
      && (r.servo == JumpUping ==>
            && r.jump.up == Smaller(inp.jump.up, t.len + c.headroom - 100.0)
            && r.jump.buffer == Smaller(inp.jump.buffer, t.len)
            && r.upTarget == t.len - r.jump.up && r.mover.whole == r.jump.up)
  { }

  /** The interval is restarted if and only if a jump ends, a resume is carried out, or a normal cycle
      finds it over. */
  lemma IntervalRestarts(c: Line, t: Task, inp: Input)
    requires Inv(c, t)
    ensures var r := Tick(c, t, inp);
      r.lastJumpEnd ==
        if || (t.servo != Servoing && r.servo == Servoing)
           || t.state == Resuming
           || (t.state == NormalRunning && t.servo == Servoing && inp.now - t.lastJumpEnd > inp.jump.dn)
        then inp.now else t.lastJumpEnd
  { }

  /** A jump becomes due: a task that feeds from `lastJumpEnd` on, the interval not over in `n` cycles,
      is still feeding after them with the interval counted from the same time; and the next cycle
      begins a jump iff the interval is over then and the jump is allowed. */
  lemma {:induction false} JumpBecomesDue(c: Line, t: Task, f: nat -> Input, k: nat, n: nat)
    requires ValidLine(c) && Inv(c, t) && t.state == NormalRunning && t.servo == Servoing
    requires forall i | k <= i < k + n :: f(i).now - t.lastJumpEnd <= f(i).jump.dn
    requires After(c, t, f, k, n).state == NormalRunning
    ensures var x := After(c, t, f, k, n);
      && x.servo == Servoing && x.lastJumpEnd == t.lastJumpEnd
      && (Tick(c, x, f(k + n)).servo == JumpUping <==>
            f(k + n).now - t.lastJumpEnd > f(k + n).jump.dn && Allowed(c, x.len, f(k + n)))
    decreases n
  {
    if n == 0 {
      JumpBeginsIff(c, t, f(k));
    } else {
      var t1 := Tick(c, t, f(k));
      FeedExact(c, t, f(k));
      if t1.state == NormalRunning {
        assert (k + 1) + (n - 1) == k + n;
        JumpBecomesDue(c, t1, f, k + 1, n - 1);
      } else {
        NeverNormalAgain(c, t1, f, k + 1, n - 1);
      }
    }
  }

  /** Cycles alone do not bring a stopping task back to normal. */
  lemma {:induction false} NeverNormalAgain(c: Line, t: Task, f: nat -> Input, k: nat, n: nat)
    requires t.state in {Stopping, Stopped}
    ensures After(c, t, f, k, n).state in {Stopping, Stopped}
    decreases n
  {
    if n > 0 { NeverNormalAgain(c, Tick(c, t, f(k)), f, k + 1, n - 1); }
  }

  // ----- feeding

  function Cut(x: real, lo: real, hi: real): real { Smaller(if x < lo then lo else x, hi) }

  /** A normal cycle that begins no jump feeds by exactly the servo command, up to the ends of the line;
      the line ends iff a forward command reaches its end. */
  lemma FeedExact(c: Line, t: Task, inp: Input)
    requires ValidLine(c) && Inv(c, t) && t.state == NormalRunning && t.servo == Servoing
    requires Tick(c, t, inp).servo != JumpUping
    ensures var r := Tick(c, t, inp);
      && r.cmd == r.len == Cut(t.cmd + inp.servoCmd, 0.0, c.total) && r.servo == Servoing && Inv(c, r)
      && r.state == (if inp.servoCmd > 0.0 && r.cmd == c.total then Stopping else NormalRunning)
      && (inp.now - t.lastJumpEnd <= inp.jump.dn ==> r.lastJumpEnd == t.lastJumpEnd)
  {
    var (t1, jumped) := TryJump(c, t, inp);
    if !jumped { ServoOnceInv(c, t1, inp); }
  }

  /** The buffer is fed by exactly the servo command too, up to where the jump began; a command that is
      not forward ends it where it stands. */
  lemma BufferExact(c: Line, t: Task, inp: Input)
    requires ValidLine(c) && Inv(c, t) && t.servo == JumpDowningBuffer && t.state in {NormalRunning, Pausing, Stopping}
    ensures var r := Tick(c, t, inp);
      if inp.servoCmd > 0.0 then
        && r.cmd == r.len == Smaller(t.cmd + inp.servoCmd, t.lenBefore)
        && (r.servo == Servoing <==> r.cmd == t.lenBefore)
      else r.cmd == t.cmd && r.servo == Servoing
  { }

  ghost predicate NotBefore(es: seq<Event>, time: int) { forall e | e in es && e.Cycle? :: e.inp.now >= time }

  lemma {:induction false} LastJumpEndNotBefore(c: Line, t: Task, es: seq<Event>, time: int)
    requires ValidLine(c) && Inv(c, t) && ValidEvents(es) && t.lastJumpEnd >= time && NotBefore(es, time)
    ensures Exec(c, t, es).lastJumpEnd >= time && Inv(c, Exec(c, t, es))
    decreases |es|
  {
    if es != [] {
      assert es[0] in es;
      StepInv(c, t, es[0]);
      if es[0].Cycle? { IntervalRestarts(c, t, es[0].inp); }
      LastJumpEndNotBefore(c, Step(c, t, es[0]), es[1..], time);
    }
  }

  /** Over every run on a clock that does not run backwards: a jump that begins after an earlier one has
      ended at `time`, or began, or was resumed then, does so more than the set interval later. */
  lemma JumpsKeepInterval(c: Line, t: Task, es: seq<Event>, time: int, inp: Input)
    requires ValidLine(c) && Inv(c, t) && ValidEvents(es) && t.lastJumpEnd >= time && NotBefore(es, time)
    ensures var x := Exec(c, t, es);
      x.servo == Servoing && Tick(c, x, inp).servo == JumpUping ==> inp.now - time > inp.jump.dn
  {
    LastJumpEndNotBefore(c, t, es, time);
    var x := Exec(c, t, es);
    if x.servo == Servoing && x.state == NormalRunning { JumpBeginsIff(c, x, inp); }
  }

  // ----- the assertions of the source, and the final state

  /** The three internal assertions (back in Servoing when resuming and when backing, a positive
      way down) hold in every state a run can reach. */
  lemma AssertionsHold(c: Line, now: int, jump: JumpParam, es: seq<Event>)
    requires ValidLine(c) && ValidEvents(es)
    ensures var t := Exec(c, Init(now, jump), es);
      && (t.state == Resuming ==> t.servo == Servoing)
      && (t.state in {Pausing, Stopping} && t.sub == BackingToBegin ==> t.servo == Servoing)
      && (t.servo == JumpUping ==> t.jump.up - t.jump.buffer > 0.0)
      && t.gate == (t.servo != JumpUping)
      && (t.state in {Paused, Resuming, Stopped} ==> t.servo == Servoing)
  {
    InitInv(c, now, jump);
    ExecInv(c, Init(now, jump), es);
  }

  lemma {:induction false} StoppedIsFinal(c: Line, t: Task, es: seq<Event>)
    requires t.state == Stopped
    ensures Exec(c, t, es) == t
    decreases |es|
  {
    if es != [] { StoppedIsFinal(c, t, es[1..]); }
  }

  // ----- the discharge power

  /** What an observer of the run remembers: that the servo reached the end of the line by itself,
      and that a pause has been completed and resumed. */
  datatype History = History(endedByItself: bool, resumed: bool)

  function Observe(h: History, before: Task, e: Event, after: Task): History {
    History(h.endedByItself || (e.Cycle? && before.state == NormalRunning && after.state == Stopping),
            h.resumed || (before.state == Resuming && after.state == NormalRunning))
  }

  function ObserveAll(c: Line, t: Task, h: History, es: seq<Event>): History
    decreases |es|
  {
    if es == [] then h
    else
      var t1 := Step(c, t, es[0]);
      ObserveAll(c, t1, Observe(h, t, es[0], t1), es[1..])
  }

  ghost predicate PowerInv(t: Task, h: History) {
    && (h.endedByItself ==> t.state in {Stopping, Stopped})
    && (t.state in {Paused, Resuming} ==> t.sub == BackingToBegin)
    && (t.state == NormalRunning ==> (t.sub == BackingToBegin <==> h.resumed))
    && (t.state == Stopping && t.sub == WaitingForJumpEnd && h.endedByItself ==> !h.resumed)
    && (t.state == Stopping && t.sub == BackingToBegin ==> (t.power <==> h.endedByItself && h.resumed))
    && (t.state == Stopped ==> (t.power <==> h.endedByItself && h.resumed))
  }

  lemma PowerStep(c: Line, t: Task, h: History, e: Event)
    requires ValidLine(c) && Inv(c, t) && ValidEvent(e) && PowerInv(t, h)
    ensures PowerInv(Step(c, t, e), Observe(h, t, e, Step(c, t, e)))
  {
    if e.Cycle? && t.servo != Servoing { JumpOnceInv(c, t, e.inp); }
  }

  lemma {:induction false} PowerRun(c: Line, t: Task, h: History, es: seq<Event>)
    requires ValidLine(c) && Inv(c, t) && ValidEvents(es) && PowerInv(t, h)
    ensures PowerInv(Exec(c, t, es), ObserveAll(c, t, h, es)) && Inv(c, Exec(c, t, es))
    decreases |es|
  {
    if es != [] {
      var t1 := Step(c, t, es[0]);
      StepInv(c, t, es[0]);
      PowerStep(c, t, h, es[0]);
      PowerRun(c, t1, Observe(h, t, es[0], t1), es[1..]);
    }
  }

  /** A paused task never has the discharge power on.  A stopped one has it off, except in exactly
      the runs in which the line ended by itself after at least one completed pause and resume. */
  lemma DischargePower(c: Line, now: int, jump: JumpParam, es: seq<Event>)
    requires ValidLine(c) && ValidEvents(es)
    ensures var t := Exec(c, Init(now, jump), es);
      var h := ObserveAll(c, Init(now, jump), History(false, false), es);
      && (t.state == Paused ==> !t.power)
      && (t.state == Stopped ==> (t.power <==> h.endedByItself && h.resumed))
  {
    InitInv(c, now, jump);
    PowerRun(c, Init(now, jump), History(false, false), es);
  }

  /** The exception is real: pause at once, retreat, resume, and feed to the end. */
  lemma PowerLeftOn(now: int) returns (c: Line, jump: JumpParam, es: seq<Event>)
    ensures ValidLine(c) && ValidEvents(es)
    ensures var t := Exec(c, Init(now, jump), es); t.state == Stopped && t.power
  {
    c := Line(50.0, 0.0, 1.0);
    jump := JumpParam(0.0, 0, 0.0);
    var tick := Cycle(Input(now, jump, true, 60.0, PM.Plan(0, 0.0, true), 0.0));
    var t0 := Init(now, jump);
    es := [PauseCmd, tick, tick, ResumeCmd, tick, tick, tick];
    var t1 := Step(c, t0, PauseCmd);
    var t2 := Step(c, t1, tick);
    var t3 := Step(c, t2, tick);
    var t4 := Step(c, t3, ResumeCmd);
    var t5 := Step(c, t4, tick);
    var t6 := Step(c, t5, tick);
    var t7 := Step(c, t6, tick);
    assert t7.state == Stopped && t7.power;
    assert Exec(c, t6, [tick]) == t7;
    assert Exec(c, t5, [tick, tick]) == t7 by { assert [tick, tick][1..] == [tick]; }
    assert Exec(c, t4, [tick, tick, tick]) == t7 by { assert [tick, tick, tick][1..] == [tick, tick]; }
    assert Exec(c, t3, es[3..]) == t7 by { assert es[3..][1..] == [tick, tick, tick]; }
    assert Exec(c, t2, es[2..]) == t7 by { assert es[2..][1..] == es[3..]; }
    assert Exec(c, t1, es[1..]) == t7 by { assert es[1..][1..] == es[2..]; }
    assert Exec(c, t0, es) == t7;
  }

  // ----- pauses complete

  /** The task after `n` cycles of the input stream `f`, starting with cycle `k`. */
  function After(c: Line, t: Task, f: nat -> Input, k: nat, n: nat): Task
    decreases n
  {
    if n == 0 then t else After(c, Tick(c, t, f(k)), f, k + 1, n - 1)
  }

  /** The servo either interrupts the buffer or advances by at least `delta`. */
  ghost predicate Feeds(f: nat -> Input, delta: real) {
    forall i: nat :: f(i).jump.buffer >= 0.0 && (f(i).servoCmd > 0.0 ==> f(i).servoCmd >= delta)
  }

  function AtLeastZero(x: real): real { if x < 0.0 then 0.0 else x }

  /** One cycle of the retreat goes back by the set step, or by what is left of 0.1 mm, not behind the
      start; it is the last one iff more than that is asked for or the start is reached. */
  lemma RetreatExact(c: Line, t: Task, inp: Input)
    requires ValidLine(c) && Inv(c, t) && t.state == Pausing && t.sub == BackingToBegin
    ensures var r := Tick(c, t, inp); var step := Smaller(c.backStep, 100.0 - t.gone);
      && r.gone == t.gone + step && r.cmd == AtLeastZero(t.cmd - step)
      && (r.state == Paused <==> t.gone + c.backStep > 100.0 || r.cmd == 0.0)
  { }

  /** The retreat takes the task back by exactly 0.1 mm, or to the start if that is nearer. */
  lemma {:induction false} RetreatCompletes(c: Line, t: Task, f: nat -> Input, k: nat) returns (n: nat)
    requires ValidLine(c) && Inv(c, t) && t.state == Pausing && t.sub == BackingToBegin
    ensures var r := After(c, t, f, k, n);
      r.state == Paused && r.len == r.cmd == AtLeastZero(t.len - (RETREAT - t.gone))
    decreases Parts(RETREAT - t.gone, c.backStep)
  {
    var t1 := Tick(c, t, f(k));
    if t1.state == Paused {
      n := 1;
      assert After(c, t1, f, k + 1, 0) == t1;
    } else {
      FewerParts(RETREAT - t.gone, RETREAT - t1.gone, c.backStep);
      var m := RetreatCompletes(c, t1, f, k + 1);
      n := m + 1;
    }
  }

  function PhaseRank(t: Task): nat {
    match t.servo
    case JumpUping => 3
    case JumpDowning => 2
    case JumpDowningBuffer => 1
    case Servoing => 0
  }

  function PhaseCount(t: Task, delta: real): nat
    requires delta > 0.0
  {
    match t.servo
    case JumpUping => t.mover.ticks
    case JumpDowning => t.mover.ticks
    case JumpDowningBuffer => Parts(AtLeastZero(t.lenBefore - t.len), delta)
    case Servoing => 0
  }

  /** One cycle of a jump that is to be finished either ends the present phase or brings its end
      nearer. */
  lemma FinishingCycle(c: Line, t: Task, inp: Input, delta: real)
    requires ValidLine(c) && Inv(c, t) && t.state in {Pausing, Stopping} && t.servo != Servoing
    requires delta > 0.0 && (inp.servoCmd > 0.0 ==> inp.servoCmd >= delta)
    ensures var r := Tick(c, t, inp);
      && r.state == t.state && r.sub == WaitingForJumpEnd
      && (|| PhaseRank(r) < PhaseRank(t)
          || (PhaseRank(r) == PhaseRank(t) && PhaseCount(r, delta) < PhaseCount(t, delta)))
  {
    var r := Tick(c, t, inp);
    if t.servo == JumpDowningBuffer && r.servo == t.servo {
      FewerParts(t.lenBefore - t.len, r.lenBefore - r.len, delta);
    }
  }

  /** An accepted pause that no stop follows is completed: for every input stream whose forward
      buffer commands are bounded below, the task is Paused after finitely many cycles, with the
      power off and on its line. */
  lemma {:induction false} PauseCompletes(c: Line, t: Task, f: nat -> Input, k: nat, delta: real) returns (n: nat)
    requires ValidLine(c) && Inv(c, t) && t.state == Pausing
    requires delta > 0.0 && Feeds(f, delta)
    ensures var r := After(c, t, f, k, n); r.state == Paused && !r.power && r.cmd == r.len && Inv(c, r)
    ensures t.servo == Servoing && t.sub == WaitingForJumpEnd ==>
      After(c, t, f, k, n).len == AtLeastZero(t.len - RETREAT)
    decreases if t.sub == WaitingForJumpEnd then 1 else 0, PhaseRank(t), PhaseCount(t, delta)
  {
    if t.sub == BackingToBegin {
      n := RetreatCompletes(c, t, f, k);
      AfterInv(c, t, f, k, n);
    } else {
      assert f(k).jump.buffer >= 0.0;
      var t1 := Tick(c, t, f(k));
      TickInv(c, t, f(k));
      var m: nat;
      if t.servo == Servoing {
        m := RetreatCompletes(c, t1, f, k + 1);
        AfterInv(c, t1, f, k + 1, m);
      } else {
        FinishingCycle(c, t, f(k), delta);
        m := PauseCompletes(c, t1, f, k + 1, delta);
      }
      n := m + 1;
    }
  }

  /** A stopping task is stopped after finitely many cycles, its jump finished before. */
  lemma {:induction false} StopCompletes(c: Line, t: Task, f: nat -> Input, k: nat, delta: real) returns (n: nat)
    requires ValidLine(c) && Inv(c, t) && t.state in {Stopping, Stopped}
    requires delta > 0.0 && Feeds(f, delta)
    ensures After(c, t, f, k, n).state == Stopped
    decreases t.state != Stopped, if t.sub == WaitingForJumpEnd then 1 else 0, PhaseRank(t), PhaseCount(t, delta)
  {
    n := 0;
    if t.state != Stopped {
      assert f(k).jump.buffer >= 0.0;
      TickInv(c, t, f(k));
      if t.servo != Servoing { FinishingCycle(c, t, f(k), delta); }
      n := StopCompletes(c, Tick(c, t, f(k)), f, k + 1, delta);
      n := n + 1;
    }
  }

  lemma {:induction false} AfterInv(c: Line, t: Task, f: nat -> Input, k: nat, n: nat)
    requires ValidLine(c) && Inv(c, t) && forall i: nat :: f(i).jump.buffer >= 0.0
    ensures Inv(c, After(c, t, f, k, n))
    decreases n
  {
    if n > 0 {
      assert f(k).jump.buffer >= 0.0;
      TickInv(c, t, f(k));
      AfterInv(c, Tick(c, t, f(k)), f, k + 1, n - 1);
    }
  }
}
