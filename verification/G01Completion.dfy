/** A G01 line that is fed comes to its end, jumps and all, if a jump interval leaves room for feeding;
    without an interval it never gets on. */
module G01Completion {
  import opened G01Machine
  import opened G01Properties
  import opened RealFacts
  import PM = PointMove

  /** Cycle `i` feeds by at least `delta`, and comes within the jump interval of the cycle before. */
  predicate Paced(f: nat -> Input, delta: real, i: nat) {
    && f(i).jump.buffer >= 0.0 && f(i).servoCmd >= delta
    && (i > 0 ==> f(i).now - f(i - 1).now <= f(i).jump.dn)
  }

  ghost predicate AlwaysPaced(f: nat -> Input, delta: real) { delta > 0.0 && forall i: nat :: Paced(f, delta, i) }

  /** How far the line has been machined: a jump does not count. */
  function Machined(t: Task): real { if t.servo == Servoing then t.len else t.lenBefore }

  /** A task that has just come out of a jump has to feed before it can jump again. */
  ghost predicate JustLanded(t: Task, f: nat -> Input, k: nat) {
    k > 0 && t.servo == Servoing && t.lastJumpEnd == f(k - 1).now
  }

  function Stage(t: Task, landed: bool): nat {
    match t.servo
    case Servoing => if landed then 0 else 4
    case JumpUping => 3
    case JumpDowning => 2
    case JumpDowningBuffer => 1
  }

  /** One cycle of a jump in normal operation: its phase goes on or ends, and after the last one the
      task has landed where the jump began. */
  lemma JumpCycle(c: Line, t: Task, f: nat -> Input, k: nat, delta: real)
    requires ValidLine(c) && Inv(c, t) && t.state == NormalRunning && t.servo != Servoing && AlwaysPaced(f, delta)
    ensures var r := Tick(c, t, f(k));
      && Inv(c, r) && r.state == NormalRunning && Machined(r) == Machined(t)
      && (r.servo == Servoing ==> JustLanded(r, f, k + 1))
      && (|| Stage(r, true) < Stage(t, true)
          || (Stage(r, true) == Stage(t, true) && PhaseCount(r, delta) < PhaseCount(t, delta)))
  {
    assert Paced(f, delta, k);
    TickInv(c, t, f(k));
    JumpOnceInv(c, t, f(k));
    var r := Tick(c, t, f(k));
    if t.servo == JumpDowningBuffer {
      BufferExact(c, t, f(k));
      if r.servo == t.servo { FewerParts(t.lenBefore - t.len, r.lenBefore - r.len, delta); }
    }
  }

  /** One feeding cycle begins a jump, ends the line, or machines at least `delta` more. */
  lemma FeedCycle(c: Line, t: Task, f: nat -> Input, k: nat, delta: real, landed: bool)
    requires ValidLine(c) && Inv(c, t) && t.state == NormalRunning && t.servo == Servoing && AlwaysPaced(f, delta)
    requires landed ==> JustLanded(t, f, k)
    ensures var r := Tick(c, t, f(k));
      && Inv(c, r)
      && (|| (!landed && r.servo == JumpUping && r.state == NormalRunning && Machined(r) == Machined(t))
          || (r.servo == Servoing && r.state == Stopping && r.cmd == c.total)
          || (r.servo == Servoing && r.state == NormalRunning && Machined(r) >= Machined(t) + delta))
  {
    assert Paced(f, delta, k);
    TickInv(c, t, f(k));
    JumpBeginsIff(c, t, f(k));
    if Tick(c, t, f(k)).servo != JumpUping { FeedExact(c, t, f(k)); }
  }

  /** After finitely many cycles the line has ended by itself, at its end. */
  lemma {:induction false} LineEnds(c: Line, t: Task, f: nat -> Input, k: nat, delta: real, landed: bool)
    returns (n: nat)
    requires ValidLine(c) && Inv(c, t) && t.state == NormalRunning && AlwaysPaced(f, delta)
    requires landed ==> JustLanded(t, f, k)
    ensures var r := After(c, t, f, k, n); r.state == Stopping && r.servo == Servoing && r.cmd == c.total && Inv(c, r)
    decreases Parts(c.total - Machined(t), delta), Stage(t, landed), PhaseCount(t, delta)
  {
    var r := Tick(c, t, f(k));
    n := 0;
    if t.servo != Servoing {
      JumpCycle(c, t, f, k, delta);
      n := LineEnds(c, r, f, k + 1, delta, r.servo == Servoing);
    } else {
      FeedCycle(c, t, f, k, delta, landed);
      if r.state == NormalRunning {
        if r.servo == Servoing { FewerParts(c.total - Machined(t), c.total - Machined(r), delta); }
        n := LineEnds(c, r, f, k + 1, delta, false);
      } else {
        assert After(c, r, f, k + 1, 0) == r;
      }
    }
    n := n + 1;
  }

  /** And the task is stopped two cycles later at most, still at the end of the line. */
  lemma LineCompletes(c: Line, t: Task, f: nat -> Input, k: nat, delta: real) returns (n: nat)
    requires ValidLine(c) && Inv(c, t) && t.state == NormalRunning && AlwaysPaced(f, delta)
    ensures var r := After(c, t, f, k, n); r.state == Stopped && r.cmd == c.total
  {
    n := LineEnds(c, t, f, k, delta, false);
    var r := After(c, t, f, k, n);
    var r1 := Tick(c, r, f(k + n));
    AfterNext(c, t, f, k, n);
    n := n + 1;
    if r1.state != Stopped {
      AfterNext(c, t, f, k, n);
      n := n + 1;
    }
  }

  lemma {:induction false} AfterNext(c: Line, t: Task, f: nat -> Input, k: nat, n: nat)
    ensures After(c, t, f, k, n + 1) == Tick(c, After(c, t, f, k, n), f(k + n))
    decreases n
  {
    if n > 0 {
      AfterNext(c, Tick(c, t, f(k)), f, k + 1, n - 1);
      assert k + 1 + (n - 1) == k + n;
    } else {
      assert After(c, Tick(c, t, f(k)), f, k + 1, 0) == Tick(c, t, f(k));
    }
  }

  // ----- without an interval

  function Restless(i: nat): Input { Input(i, JumpParam(50.0, 0, 0.0), false, 1.0, PM.Plan(0, 0.0, true), 0.0) }

  ghost predicate Starved(t: Task, k: nat) {
    && t.state == NormalRunning && t.len == 0.0 && t.jump.buffer == 0.0 && t.jump.up == 50.0
    && (t.servo == Servoing ==> t.lastJumpEnd < k)
    && (t.servo != Servoing ==> t.lenBefore == 0.0)
  }

  lemma {:induction false} StaysStarved(c: Line, t: Task, k: nat, n: nat)
    requires c == Line(5000.0, 1000.0, 1.0) && Inv(c, t) && Starved(t, k)
    ensures Starved(After(c, t, Restless, k, n), k + n)
    decreases n
  {
    if n > 0 {
      TickInv(c, t, Restless(k));
      StaysStarved(c, Tick(c, t, Restless(k)), k + 1, n - 1);
    }
  }

  /** With an interval of 0 ms on a clock of 1 ms a task jumps and jumps again: although every cycle
      commands a forward feed, the line is never machined at all. */
  lemma NoIntervalNoFeed(n: nat)
    ensures var c := Line(5000.0, 1000.0, 1.0);
      var r := After(c, Init(-1, JumpParam(50.0, 0, 0.0)), Restless, 0, n);
      r.state == NormalRunning && Machined(r) == 0.0
  {
    var c, jump := Line(5000.0, 1000.0, 1.0), JumpParam(50.0, 0, 0.0);
    InitInv(c, -1, jump);
    StaysStarved(c, Init(-1, jump), 0, n);
  }
}
