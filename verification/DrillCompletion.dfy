/** What each drilling cycle does, stated by its outcome, and that every drilling job comes to its end
    where it should. */
module DrillCompletion {
  import opened Common
  import opened DrillMachine
  import opened DrillProperties
  import opened RealFacts

  // ----- how the task answers

  /** A pause is accepted iff the job is not over, a resume iff it is paused, a stop always; a stop ends
      the job where it is, with everything off. */
  lemma CommandsAnswer(d: Drill)
    ensures Pause(d).1 <==> d.phase != Idle
    ensures Pause(d).1 ==> Pause(d).0.paused && Pause(d).0.phase == d.phase && Pause(d).0.pos == d.pos
    ensures Resume(d).1 <==> d.paused
    ensures !Resume(d).0.paused && Resume(d).0.phase == d.phase && Resume(d).0.pos == d.pos
    ensures var (s, ok) := Stop(d); ok && s.phase == Idle && !s.paused && !s.power && !s.pumps && s.pos == d.pos
  { }

  // ----- single cycles

  /** The feed of a cycle would take the drill to its target or below. */
  predicate ReachesTarget(job: Job, d: Drill, inp: Input) {
    var fed := Feed(job, d, inp).0.pos;
    fed <= d.rt.target && fed < d.rt.start
  }

  predicate EndsHold(job: Job, d: Drill, inp: Input) {
    job.breakout && d.rt.detecting && d.rt.detection == Holding && HoldOver(d.rt.judgedAt, inp.p.wait, inp.now)
  }

  /** A drilling cycle leaves the phase iff the target is reached or the hold is over: to the return iff
      the job asks for one, and to the end of the job iff not. */
  lemma DrillingLeavesIff(job: Job, d: Drill, inp: Input)
    requires d.phase == Drilling && !d.paused
    ensures var r := Tick(job, d, inp);
      && r.phase == (if !ReachesTarget(job, d, inp) && !EndsHold(job, d, inp) then Drilling
                     else if job.back then PrepareBack else Idle)
      && (ReachesTarget(job, d, inp) ==> r.pos == d.rt.target)
      && (r.phase != Idle ==> r.rt.returnTo == d.rt.returnTo && r.rt.start == d.rt.start && r.rt.target == d.rt.target)
  {
    FeedKeepsPoints(job, d, inp);
    FeedEndsHold(job, d, inp);
    var (fed, over) := Feed(job, d, inp);
    assert Tick(job, d, inp) ==
      var (d2, deep) := Limited(fed);
      if !over && !deep then d2 else if job.back then d2.(phase := PrepareBack) else Finish(d2);
  }

  lemma FeedKeepsPoints(job: Job, d: Drill, inp: Input)
    ensures var r := Feed(job, d, inp).0;
      && r.phase == d.phase && r.paused == d.paused && r.rt.touched == d.rt.touched
      && r.rt.start == d.rt.start && r.rt.target == d.rt.target && r.rt.returnTo == d.rt.returnTo
  { }

  lemma FeedEndsHold(job: Job, d: Drill, inp: Input)
    ensures Feed(job, d, inp).1 <==> EndsHold(job, d, inp)
  { }

  /** How far a cycle feeds: by the servo command, slowed only while a breakout is looked for or under
      way, and not at all in the hold. */
  lemma FeedExact(job: Job, d: Drill, inp: Input)
    ensures var fed := Feed(job, d, inp).0.pos;
      if !job.breakout || !d.rt.detecting then fed == d.pos - inp.servo
      else match d.rt.detection
           case NotDetected => fed == d.pos - inp.servo * RatioBefore(inp.p, inp.cnt)
           case Breaking =>
             var free := d.pos - inp.servo * RatioAfter(inp.p, d.rt, d.pos);
             fed == if free < d.rt.floor then d.rt.floor else free
           case Holding => fed == d.pos
  { }

  /** When the detection is switched on, when it notices the breakout, and when the hold begins. */
  lemma DetectionIff(job: Job, d: Drill, inp: Input)
    requires job.breakout
    ensures var r := Feed(job, d, inp).0;
      && (r.rt.detecting <==> d.rt.detecting || d.pos - inp.servo < d.rt.detectFrom)
      && (d.rt.detection == NotDetected ==>
            (r.rt.detection == Breaking <==> d.rt.detecting && inp.cnt > inp.p.threshold))
      && (d.rt.detecting && d.rt.detection == Breaking ==>
            (r.rt.detection == Holding <==>
               || d.pos - inp.servo * RatioAfter(inp.p, d.rt, d.pos) < d.rt.floor
               || (!inp.p.ignoreEnd && inp.cnt <= inp.p.threshold)))
  { }

  /** The cycle that feels contact measures everything from there, and still moves down once. */
  lemma TouchExact(job: Job, d: Drill, inp: Input)
    requires d.phase == Touching && !d.paused
    ensures var r := Tick(job, d, inp);
      && r.pos == d.pos - inp.p.touchSpeed && (r.phase == TouchedBacking <==> inp.contact)
      && (!inp.contact ==> r.phase == Touching && r.rt == d.rt)
      && (inp.contact ==> r.rt.touched == d.pos && r.rt.target == d.pos - job.depth)
      && (inp.contact && job.breakout ==>
            && r.rt.detectFrom == d.pos - inp.p.detectShare * job.depth
            && !r.rt.detecting && r.rt.detection == NotDetected)
  { }

  /** Backing after contact goes up by one unit per cycle and the return by two, the last cycle to exactly
      the point, with which the phase ends. */
  lemma BackExact(job: Job, d: Drill, inp: Input)
    requires !d.paused && d.phase in {TouchedBacking, ReturnBacking}
    ensures var r := Tick(job, d, inp);
      var goal := if d.phase == ReturnBacking then d.rt.returnTo else d.rt.touched + inp.p.touchReturn;
      var up := if d.phase == ReturnBacking then 2.0 else 1.0;
      && r.pos == (if d.pos + up >= goal then goal else d.pos + up)
      && (r.phase != d.phase <==> d.pos + up >= goal)
      && r.phase in {d.phase, if d.phase == ReturnBacking then Idle else PrepareDrill}
  { }

  /** The slow-down after breakout: the set ratio at most, 0.35 on the floor, and never less than 0.35
      where the set ratio is not; it does not grow on the way down. */
  lemma SlowDownAfter(p: Params, rt: Runtime, pos: real, lower: real)
    requires p.slowAfter && p.maxRatio >= 0.35 && rt.floor < rt.breakoutAt && rt.floor <= lower <= pos
    ensures 0.35 <= RatioAfter(p, rt, pos) <= p.maxRatio
    ensures RatioAfter(p, rt, rt.floor) == 0.35
    ensures p.maxRatio <= 1.0 ==> RatioAfter(p, rt, rt.breakoutAt) == p.maxRatio
    ensures RatioAfter(p, rt, lower) <= RatioAfter(p, rt, pos)
  {
    var k := rt.breakoutAt - rt.floor;
    Share(0.0, pos - rt.floor, k);
    Share(lower - rt.floor, pos - rt.floor, k);
    QuotientTimes(k, k);
    assert (rt.floor - rt.floor) / k == 0.0;
    assert k / k == 1.0;
  }

  lemma Share(x: real, y: real, k: real)
    requires 0.0 <= x <= y && k > 0.0
    ensures 0.0 <= x / k <= y / k
  {
    QuotientTimes(x, k);
    QuotientTimes(y, k);
  }

  predicate IsPrepare(p: Phase) { p in {PrepareTouch, PrepareDrill, PrepareBack} }
  predicate IsDelay(p: Phase) { p in {PrepareTouchDelaying, PrepareDrillDelaying, PrepareBackDelaying} }

  function Next(p: Phase): Phase {
    match p
    case PrepareTouch => PrepareTouchDelaying
    case PrepareTouchDelaying => Touching
    case PrepareDrill => PrepareDrillDelaying
    case PrepareDrillDelaying => Drilling
    case PrepareBack => PrepareBackDelaying
    case PrepareBackDelaying => ReturnBacking
    case _ => p
  }

  /** A preparation starts its delay, and the delay lasts until 1000 ms have passed since, not less and not
      more; nothing moves meanwhile. */
  lemma DelayExact(job: Job, d: Drill, inp: Input)
    requires !d.paused && (IsPrepare(d.phase) || IsDelay(d.phase))
    ensures var r := Tick(job, d, inp);
      && r.pos == d.pos && r.rt == d.rt && !r.paused
      && (IsPrepare(d.phase) ==> r.phase == Next(d.phase) && r.timer == inp.now)
      && (IsDelay(d.phase) ==>
            r.timer == d.timer && r.phase == if inp.now - d.timer >= 1000 then Next(d.phase) else d.phase)
  { }

  // ----- whole jobs

  predicate ClockPasses(f: nat -> Input, k: nat, j: nat, time: int) { f(k + j).now >= time }
  predicate Contact(f: nat -> Input, k: nat, j: nat) { f(k + j).contact }

  ghost predicate ClockReaches(f: nat -> Input, k: nat, time: int) { exists j: nat :: ClockPasses(f, k, j, time) }
  ghost predicate ContactComes(f: nat -> Input, k: nat) { exists j: nat :: Contact(f, k, j) }

  predicate Feeds(inp: Input, delta: real, back: real) {
    inp.servo >= delta && inp.p.maxRatio >= 0.35 && inp.p.maxMove >= 0.0 && inp.p.touchReturn == back
  }

  /** The clock goes on, contact comes, and every cycle feeds. */
  ghost predicate Works(f: nat -> Input, delta: real, back: real) {
    && delta > 0.0 && back >= 0.0
    && (forall i: nat :: Feeds(f(i), delta, back))
    && (forall k: nat, time: int :: ClockReaches(f, k, time))
    && (forall k: nat :: ContactComes(f, k))
  }

  ghost predicate Ready(job: Job, d: Drill) { ValidJob(job) && Inv(job, d) && !d.paused }

  lemma {:induction false} Compose(job: Job, d: Drill, f: nat -> Input, k: nat, n: nat, j: nat)
    ensures Cycles(job, d, f, k, n + j) == Cycles(job, Cycles(job, d, f, k, n), f, k + n, j)
    decreases n
  {
    if n > 0 { Compose(job, Tick(job, d, f(k)), f, k + 1, n - 1, j); }
  }

  lemma TickReady(job: Job, d: Drill, f: nat -> Input, k: nat, delta: real, back: real)
    requires Ready(job, d) && Works(f, delta, back)
    ensures Ready(job, Tick(job, d, f(k))) && Feeds(f(k), delta, back)
  {
    assert Feeds(f(k), delta, back);
    StepInv(job, d, Cycle(f(k)));
  }

  /** A delay passes. */
  lemma {:induction false} DelayPasses(job: Job, d: Drill, f: nat -> Input, k: nat, j: nat, delta: real, back: real)
    returns (n: nat)
    requires Ready(job, d) && Works(f, delta, back) && IsDelay(d.phase) && ClockPasses(f, k, j, d.timer + 1000)
    ensures var r := Cycles(job, d, f, k, n);
      Ready(job, r) && r.phase == Next(d.phase) && r.pos == d.pos && r.rt == d.rt
    decreases j
  {
    var d1 := Tick(job, d, f(k));
    TickReady(job, d, f, k, delta, back);
    DelayExact(job, d, f(k));
    n := 0;
    if d1.phase == d.phase {
      assert j > 0 && k + j == k + 1 + (j - 1);
      n := DelayPasses(job, d1, f, k + 1, j - 1, delta, back);
    } else {
      assert Cycles(job, d1, f, k + 1, 0) == d1;
    }
    n := n + 1;
  }

  /** A preparation with its delay. */
  lemma PreparationPasses(job: Job, d: Drill, f: nat -> Input, k: nat, delta: real, back: real) returns (n: nat)
    requires Ready(job, d) && Works(f, delta, back) && IsPrepare(d.phase)
    ensures var r := Cycles(job, d, f, k, n);
      Ready(job, r) && r.phase == Next(Next(d.phase)) && r.pos == d.pos && r.rt == d.rt
  {
    var d1 := Tick(job, d, f(k));
    TickReady(job, d, f, k, delta, back);
    DelayExact(job, d, f(k));
    assert ClockReaches(f, k + 1, d1.timer + 1000);
    var j: nat :| ClockPasses(f, k + 1, j, d1.timer + 1000);
    n := DelayPasses(job, d1, f, k + 1, j, delta, back);
    n := n + 1;
  }

  // ----- drilling

  lemma RatioAtLeast(p: Params, rt: Runtime, pos: real, cnt: nat)
    requires p.maxRatio >= 0.35
    ensures RatioBefore(p, cnt) >= 0.35 && RatioAfter(p, rt, pos) >= 0.35
  { }

  lemma ProductAtLeast(servo: real, ratio: real, delta: real)
    requires servo >= delta > 0.0 && ratio >= 0.35
    ensures servo * ratio >= 0.35 * delta
  {
    ProductMonotone(0.35, ratio, servo);
    assert 0.35 * servo >= 0.35 * delta;
    assert ratio * servo == servo * ratio;
  }

  function DetectionStage(job: Job, d: Drill): nat {
    if !job.breakout || !d.rt.detecting || d.rt.detection == NotDetected then 2
    else if d.rt.detection == Breaking then 1 else 0
  }

  /** The hold comes to its end. */
  lemma {:induction false} HoldPasses(job: Job, d: Drill, f: nat -> Input, k: nat, j: nat, delta: real, back: real)
    returns (n: nat)
    requires Ready(job, d) && Works(f, delta, back) && d.phase == Drilling && DetectionStage(job, d) == 0
    requires ClockPasses(f, k, j, WORD)
    ensures var r := Cycles(job, d, f, k, n);
      && Ready(job, r) && r.phase == (if job.back then PrepareBack else Idle)
      && (job.back ==> r.rt.returnTo == d.rt.returnTo)
    decreases j
  {
    var d1 := Tick(job, d, f(k));
    TickReady(job, d, f, k, delta, back);
    DrillingLeavesIff(job, d, f(k));
    n := 0;
    if d1.phase == Drilling {
      assert j > 0 && k + j == k + 1 + (j - 1);
      n := HoldPasses(job, d1, f, k + 1, j - 1, delta, back);
    } else {
      assert Cycles(job, d1, f, k + 1, 0) == d1;
    }
    n := n + 1;
  }

  /** The stage of the detection never goes back, and a cycle that meets the floor begins the hold. */
  lemma StageProceeds(job: Job, d: Drill, inp: Input)
    requires DetectionStage(job, d) > 0
    ensures var r := Feed(job, d, inp).0;
      && DetectionStage(job, r) <= DetectionStage(job, d)
      && (DetectionStage(job, d) == 1 && DetectionStage(job, r) == 1 ==>
            r.pos == d.pos - inp.servo * RatioAfter(inp.p, d.rt, d.pos))
  { }

  /** Outside the hold a cycle feeds by at least a good part of `delta`, or begins the hold. */
  lemma FeedAtLeast(job: Job, d: Drill, inp: Input, delta: real, back: real)
    requires DetectionStage(job, d) > 0 && Feeds(inp, delta, back) && delta > 0.0
    ensures var r := Feed(job, d, inp).0;
      && DetectionStage(job, r) <= DetectionStage(job, d)
      && (r.pos <= d.pos - 0.35 * delta || DetectionStage(job, r) < DetectionStage(job, d))
  {
    StageProceeds(job, d, inp);
    RatioAtLeast(inp.p, d.rt, d.pos, inp.cnt);
    if DetectionStage(job, d) == 1 {
      ProductAtLeast(inp.servo, RatioAfter(inp.p, d.rt, d.pos), delta);
    } else {
      FeedExact(job, d, inp);
      ProductAtLeast(inp.servo, RatioBefore(inp.p, inp.cnt), delta);
    }
  }

  /** So it leaves the phase, goes on to the next stage of the detection, or comes down. */
  lemma DrillingProceeds(job: Job, d: Drill, inp: Input, delta: real, back: real)
    requires Ready(job, d) && d.phase == Drilling && DetectionStage(job, d) > 0
    requires Feeds(inp, delta, back) && delta > 0.0
    ensures var r := Tick(job, d, inp);
      || r.phase != Drilling
      || DetectionStage(job, r) < DetectionStage(job, d)
      || (DetectionStage(job, r) == DetectionStage(job, d) && r.pos <= d.pos - 0.35 * delta)
  {
    FeedAtLeast(job, d, inp, delta, back);
    var fed := Feed(job, d, inp).0;
    assert fed.rt.start == d.rt.start && fed.rt.target == d.rt.target;
    if Tick(job, d, inp).phase == Drilling { assert Tick(job, d, inp) == Limited(fed).0; }
  }

  lemma {:induction false} DrillingEnds(job: Job, d: Drill, f: nat -> Input, k: nat, delta: real, back: real)
    returns (n: nat)
    requires Ready(job, d) && Works(f, delta, back) && d.phase == Drilling
    ensures var r := Cycles(job, d, f, k, n);
      && Ready(job, r) && r.phase == (if job.back then PrepareBack else Idle)
      && (job.back ==> r.rt.returnTo == d.rt.returnTo)
    decreases DetectionStage(job, d), Parts(d.pos - d.rt.target, 0.35 * delta)
  {
    if DetectionStage(job, d) == 0 {
      assert ClockReaches(f, k, WORD);
      var j: nat :| ClockPasses(f, k, j, WORD);
      n := HoldPasses(job, d, f, k, j, delta, back);
    } else {
      var d1 := Tick(job, d, f(k));
      TickReady(job, d, f, k, delta, back);
      DrillingLeavesIff(job, d, f(k));
      DrillingProceeds(job, d, f(k), delta, back);
      n := 0;
      if d1.phase == Drilling {
        if DetectionStage(job, d1) == DetectionStage(job, d) {
          FewerParts(d.pos - d.rt.target, d1.pos - d1.rt.target, 0.35 * delta);
        }
        n := DrillingEnds(job, d1, f, k + 1, delta, back);
      } else {
        assert Cycles(job, d1, f, k + 1, 0) == d1;
      }
      n := n + 1;
    }
  }

  // ----- the way home, and the whole job

  /** The return, with its preparation, ends on exactly the return point. */
  lemma ComesHome(job: Job, d: Drill, f: nat -> Input, k: nat, delta: real, back: real) returns (n: nat)
    requires Ready(job, d) && Works(f, delta, back) && d.phase == PrepareBack
    ensures var r := Cycles(job, d, f, k, n); r.phase == Idle && r.pos == d.rt.returnTo && !r.power && !r.pumps
  {
    n := PreparationPasses(job, d, f, k, delta, back);
    var d1 := Cycles(job, d, f, k, n);
    var j := ReturnEnds(job, d1, f, k + n);
    Compose(job, d, f, k, n, j);
    n := n + j;
  }

  /** A job with return that reaches its target, or the end of its hold, ends on exactly its return point
      after finitely many cycles. */
  lemma BottomToHome(job: Job, d: Drill, f: nat -> Input, k: nat, delta: real, back: real) returns (n: nat)
    requires Ready(job, d) && Works(f, delta, back) && d.phase == Drilling && job.back
    requires ReachesTarget(job, d, f(k)) || EndsHold(job, d, f(k))
    ensures var r := Cycles(job, d, f, k, n); r.phase == Idle && r.pos == d.rt.returnTo && !r.power && !r.pumps
  {
    var d1 := Tick(job, d, f(k));
    TickReady(job, d, f, k, delta, back);
    DrillingLeavesIff(job, d, f(k));
    n := ComesHome(job, d1, f, k + 1, delta, back);
    n := n + 1;
  }

  /** A job that is ready to drill is drilled, and ends on its return point if it has one. */
  lemma DrillsAndEnds(job: Job, d: Drill, f: nat -> Input, k: nat, delta: real, back: real) returns (n: nat)
    requires Ready(job, d) && Works(f, delta, back) && d.phase == PrepareDrill
    ensures var r := Cycles(job, d, f, k, n); r.phase == Idle && (job.back ==> r.pos == d.rt.returnTo)
  {
    n := PreparationPasses(job, d, f, k, delta, back);
    var d1 := Cycles(job, d, f, k, n);
    var j := DrillingEnds(job, d1, f, k + n, delta, back);
    Compose(job, d, f, k, n, j);
    n := n + j;
    if job.back {
      j := ComesHome(job, Cycles(job, d, f, k, n), f, k + n, delta, back);
      Compose(job, d, f, k, n, j);
      n := n + j;
    }
  }

  /** The touching phase ends with contact, and the drill then stands the set distance above it. */
  lemma {:induction false} TouchEnds(job: Job, d: Drill, f: nat -> Input, k: nat, j: nat, delta: real, back: real)
    returns (n: nat)
    requires Ready(job, d) && Works(f, delta, back) && job.touch && d.phase == Touching && Contact(f, k, j)
    ensures var r := Cycles(job, d, f, k, n);
      Ready(job, r) && r.phase == PrepareDrill && r.pos == r.rt.returnTo == r.rt.touched + back
    decreases j
  {
    var d1 := Tick(job, d, f(k));
    TickReady(job, d, f, k, delta, back);
    TouchExact(job, d, f(k));
    if d1.phase == Touching {
      assert j > 0 && k + j == k + 1 + (j - 1);
      n := TouchEnds(job, d1, f, k + 1, j - 1, delta, back);
    } else {
      forall i: nat ensures f(i).p.touchReturn == back { assert Feeds(f(i), delta, back); }
      n := BackingEnds(job, d1, f, k + 1, back);
      CyclesReady(job, d1, f, k + 1, n, delta, back);
      TouchedKept(job, d1, f, k + 1, n);
    }
    n := n + 1;
  }

  lemma {:induction false} CyclesReady(job: Job, d: Drill, f: nat -> Input, k: nat, n: nat, delta: real, back: real)
    requires Ready(job, d) && Works(f, delta, back)
    ensures Ready(job, Cycles(job, d, f, k, n))
    decreases n
  {
    if n > 0 {
      TickReady(job, d, f, k, delta, back);
      CyclesReady(job, Tick(job, d, f(k)), f, k + 1, n - 1, delta, back);
    }
  }

  /** Only contact sets the contact point, and only the end of the job clears it. */
  lemma {:induction false} TouchedKept(job: Job, d: Drill, f: nat -> Input, k: nat, n: nat)
    requires Rank(d.phase) >= Rank(TouchedBacking)
    ensures var r := Cycles(job, d, f, k, n); r.phase == Idle || r.rt.touched == d.rt.touched
    decreases n
  {
    if n > 0 {
      var d1 := Tick(job, d, f(k));
      StepAdvances(job, d, Cycle(f(k)));
      TouchedStep(job, d, f(k));
      TouchedKept(job, d1, f, k + 1, n - 1);
      if d1.phase == Idle { IdleRemains(job, d1, f, k + 1, n - 1); }
    }
  }

  lemma TouchedStep(job: Job, d: Drill, inp: Input)
    requires Rank(d.phase) >= Rank(TouchedBacking)
    ensures Tick(job, d, inp).phase == Idle || Tick(job, d, inp).rt.touched == d.rt.touched
  {
    if d.phase == Drilling && !d.paused {
      FeedKeepsPoints(job, d, inp);
      var fed := Feed(job, d, inp).0;
      assert Limited(fed).0.rt == fed.rt;
    }
  }

  lemma {:induction false} IdleRemains(job: Job, d: Drill, f: nat -> Input, k: nat, n: nat)
    requires d.phase == Idle
    ensures Cycles(job, d, f, k, n) == d
    decreases n
  {
    if n > 0 { IdleRemains(job, d, f, k + 1, n - 1); }
  }

  /** Every job that nobody disturbs comes to its end after finitely many cycles.  Without touching and
      with a return it ends where it began. */
  lemma JobCompletes(job: Job, pos: real, f: nat -> Input, delta: real, back: real) returns (n: nat)
    requires ValidJob(job) && Works(f, delta, back)
    ensures var r := Cycles(job, Init(job, pos), f, 0, n); r.phase == Idle && (!job.touch && job.back ==> r.pos == pos)
  {
    var d := Init(job, pos);
    n := 0;
    if job.touch {
      n := PreparationPasses(job, d, f, 0, delta, back);
      var d1 := Cycles(job, d, f, 0, n);
      assert ContactComes(f, n);
      var i: nat :| Contact(f, n, i);
      var j := TouchEnds(job, d1, f, n, i, delta, back);
      Compose(job, d, f, 0, n, j);
      n := n + j;
    }
    var d2 := Cycles(job, d, f, 0, n);
    var j := DrillsAndEnds(job, d2, f, n, delta, back);
    Compose(job, d, f, 0, n, j);
    n := n + j;
  }
}
