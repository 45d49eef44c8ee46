/** What every run of the drilling task keeps. */
module DrillProperties {
  import opened Common
  import opened DrillMachine
  import opened RealFacts

  // ----- geometry and outputs over whole runs

  /** In every state of every run: drilling stays between target and start, after the breakout has
      begun not below the precomputed floor, and the discharge power is on only in the drilling
      phases up to the preparation of the return, never while paused or idle. */
  lemma EveryDrillRun(job: Job, pos: real, es: seq<Event>)
    requires ValidJob(job) && ValidEvents(es)
    ensures var d := Exec(job, Init(job, pos), es);
      && (d.phase == Drilling ==> d.rt.target <= d.pos <= d.rt.start)
      && (d.phase == Drilling && job.breakout && d.rt.detection != NotDetected ==>
            d.rt.floor <= d.rt.start ==> d.rt.floor <= d.pos)
      && (d.power ==> !d.paused && d.phase in {PrepareDrill, PrepareDrillDelaying, Drilling, PrepareBack})
      && (d.phase == Drilling && !d.paused ==> d.power)
      && (d.paused ==> d.phase != Idle)
  {
    ExecInv(job, Init(job, pos), es);
  }

  function Rank(p: Phase): nat {
    match p
    case PrepareTouch => 0
    case PrepareTouchDelaying => 1
    case Touching => 2
    case TouchedBacking => 3
    case PrepareDrill => 4
    case PrepareDrillDelaying => 5
    case Drilling => 6
    case PrepareBack => 7
    case PrepareBackDelaying => 8
    case ReturnBacking => 9
    case Idle => 10
  }

  lemma DrillingAdvances(job: Job, d: Drill, inp: Input)
    requires d.phase == Drilling
    ensures DrillOnce(job, d, inp).phase in {Drilling, PrepareBack, Idle}
  { }

  lemma StepAdvances(job: Job, d: Drill, e: Event)
    ensures Rank(Step(job, d, e).phase) >= Rank(d.phase)
  {
    if e.Cycle? && d.phase == Drilling && !d.paused { DrillingAdvances(job, d, e.inp); }
  }

  /** Phases only advance, whatever is commanded in between. */
  lemma {:induction false} PhasesOnlyAdvance(job: Job, d: Drill, es: seq<Event>)
    ensures Rank(Exec(job, d, es).phase) >= Rank(d.phase)
    decreases |es|
  {
    if es != [] {
      StepAdvances(job, d, es[0]);
      PhasesOnlyAdvance(job, Step(job, d, es[0]), es[1..]);
    }
  }

  // ----- breakout

  /** The cycle that notices the breakout leaves the drill at or above its floor if and only if the
      retreat of that very cycle above the start point is within the allowed move. */
  lemma FloorFromTheStart(job: Job, d: Drill, inp: Input)
    requires Inv(job, d) && ValidJob(job) && d.phase == Drilling && !d.paused && job.breakout
    requires d.rt.detecting && d.rt.detection == NotDetected
    requires inp.cnt > inp.p.threshold && inp.p.maxMove >= 0.0
    requires Tick(job, d, inp).phase != Idle
    ensures var r := Tick(job, d, inp);
      && r.rt.detection == Breaking
      && (r.rt.floor <= r.pos <==> d.pos - inp.servo * RatioBefore(inp.p, inp.cnt) - d.rt.start <= inp.p.maxMove)
  {
    var pos := d.pos - inp.servo * RatioBefore(inp.p, inp.cnt);
    var fed := Feed(job, d, inp).0;
    assert fed.pos == pos && fed.rt.floor == pos - inp.p.maxMove && fed.rt.start == d.rt.start;
    assert Tick(job, d, inp).rt == fed.rt && Tick(job, d, inp).pos == Limited(fed).0.pos;
  }

  /** When the feed before breakout is slowed: from half the threshold up to the threshold, and not in
      the cycle that notices the breakout, because there the 32-bit difference wraps around. */
  lemma SlowDownExact(p: Params, cnt: nat)
    requires cnt < WORD / 2 && p.threshold < WORD / 2
    ensures RatioBefore(p, cnt) < 1.0 <==> p.slowBefore && p.threshold / 2 < cnt <= p.threshold
    ensures 0.35 <= RatioBefore(p, cnt) <= 1.0
  {
    var h := p.threshold - p.threshold / 2;
    if p.slowBefore && p.threshold != 0 && cnt > p.threshold / 2 {
      var w := Word(p.threshold - cnt) as real;
      var k := h as real;
      if cnt > p.threshold {
        assert Word(p.threshold - cnt) == p.threshold - cnt + WORD;
        AboveOne(w, k);
      } else {
        assert Word(p.threshold - cnt) == p.threshold - cnt;
        BelowOne(w, k);
      }
    }
  }

  lemma BelowOne(w: real, k: real)
    requires 0.0 <= w < k
    ensures w / k < 1.0
  {
    QuotientTimes(w, k);
    if w / k >= 1.0 { ProductMonotone(1.0, w / k, k); }
  }

  /** A run whose last count is the threshold is slowed to 0.35 of the feed; one count more, and the
      same feed is not slowed at all although the flag asks for it. */
  lemma UnslowedFeedHappens(pos: real) returns (job: Job, es: seq<Event>, at: Input, above: Input)
    ensures ValidJob(job) && ValidEvents(es) && at.p == above.p && at.p.slowBefore
    ensures at.cnt == at.p.threshold && above.cnt == above.p.threshold + 1 && at.servo == above.servo == 2.0
    ensures var d := Exec(job, Init(job, pos), es);
      && d.phase == Drilling && !d.paused
      && Tick(job, d, at).pos == d.pos - 0.7 && Tick(job, d, above).pos == d.pos - 2.0
  {
    var p := Params(0.5, 0.0, 100.0, 0.0, 1.0, 1000, 10, true, false, false);
    var d;
    job, es, d := ReachDetecting(pos, 0, p);
    at, above := Input(3000, p, false, 2.0, 10), Input(3000, p, false, 2.0, 11);
    SlowDownExact(p, 11);
    assert RatioBefore(p, 10) == 0.35;
    assert Feed(job, d, at).0.pos == d.pos - 2.0 * 0.35;
    assert Feed(job, d, above).0.pos == d.pos - 2.0 * 1.0;
  }

  // ----- concrete runs

  lemma {:induction false} ExecSnoc(job: Job, d: Drill, es: seq<Event>, e: Event)
    ensures Exec(job, d, es + [e]) == Step(job, Exec(job, d, es), e)
    decreases |es|
  {
    if es == [] {
      assert [] + [e] == [e];
    } else {
      ExecSnoc(job, Step(job, d, es[0]), es[1..], e);
      assert (es + [e])[1..] == es[1..] + [e];
    }
  }

  /** A run from the start of a touch job into drilling, one unit below the contact point, with the
      breakout detection just switched on. */
  lemma ReachDetecting(pos: real, clock: int, p: Params) returns (job: Job, es: seq<Event>, d: Drill)
    requires p.touchSpeed == 0.5 && p.touchReturn == 0.0 && p.maxMove >= 0.0 && p.detectShare == 0.0
    ensures ValidJob(job) && ValidEvents(es) && job.breakout && job.back && d == Exec(job, Init(job, pos), es)
    ensures d.phase == Drilling && !d.paused && d.pos == pos - 1.0
    ensures d.rt.start == pos && d.rt.target == pos - 10.0 && d.rt.detecting && d.rt.detection == NotDetected
  {
    job := Job(10.0, true, true, true);
    var d0 := Init(job, pos);
    var begin, later := Cycle(Input(clock, p, false, 0.0, 0)), Cycle(Input(clock + 1000, p, false, 0.0, 0));
    var touch, drill := Cycle(Input(clock + 1000, p, true, 0.0, 0)), Cycle(Input(clock + 2000, p, false, 1.0, 0));
    var d1 := Step(job, d0, begin);
    var d2 := Step(job, d1, later);
    var d3 := Step(job, d2, touch);
    var d4 := Step(job, d3, later);
    assert d2.phase == Touching && d3.phase == TouchedBacking && d3.rt.touched == pos && d3.pos == pos - 0.5;
    assert d4.phase == PrepareDrill && d4.pos == pos;
    var d5 := Step(job, d4, later);
    var d6 := Step(job, d5, drill);
    d := Step(job, d6, drill);
    assert d6.phase == Drilling && d6.pos == pos;
    var e1, e2, e3 := [] + [begin], [] + [begin] + [later], [] + [begin] + [later] + [touch];
    ExecSnoc(job, d0, [], begin);
    ExecSnoc(job, d0, e1, later);
    ExecSnoc(job, d0, e2, touch);
    ExecSnoc(job, d0, e3, later);
    ExecSnoc(job, d0, e3 + [later], later);
    ExecSnoc(job, d0, e3 + [later] + [later], drill);
    ExecSnoc(job, d0, e3 + [later] + [later] + [drill], drill);
    es := e3 + [later] + [later] + [drill] + [drill];
  }

  lemma AboveOne(w: real, k: real)
    requires w > k > 0.0
    ensures w / k > 1.0
  {
    QuotientTimes(w, k);
    if w / k <= 1.0 { ProductMonotone(w / k, 1.0, k); }
  }

  // ----- the hold

  /** A held drill: it is not at its target. */
  ghost predicate Held(job: Job, d: Drill) {
    && ValidJob(job) && Inv(job, d) && d.phase == Drilling && job.breakout
    && d.rt.detecting && d.rt.detection == Holding
    && (d.pos >= d.rt.start || d.pos > d.rt.target)
  }

  /** The cycle that begins the hold notes its time, in 32 bits. */
  lemma HoldBegins(job: Job, d: Drill, enter: Input)
    requires ValidJob(job) && Inv(job, d) && ValidEvent(Cycle(enter)) && d.phase == Drilling && !d.paused
    requires job.breakout && d.rt.detection == Breaking
    requires var r := Tick(job, d, enter); r.phase == Drilling && r.rt.detection == Holding
    ensures var r := Tick(job, d, enter); Held(job, r) && !r.paused && r.rt.judgedAt == Word(enter.now)
  {
    StepInv(job, d, Cycle(enter));
  }

  /** One cycle of the hold: the position is frozen, and the drill leaves the phase iff the time is
      over. */
  lemma HoldCycle(job: Job, d: Drill, inp: Input)
    requires Held(job, d) && !d.paused
    ensures var r := Tick(job, d, inp);
      && r.pos == d.pos
      && (r.phase != Drilling <==> HoldOver(d.rt.judgedAt, inp.p.wait, inp.now))
      && (r.phase == Drilling ==> r == d)
  { }

  /** Cycles within the hold, pauses, resumes, and cycles that happen only while paused. */
  ghost predicate Waits(job: Job, d: Drill, es: seq<Event>)
    decreases |es|
  {
    es != [] ==>
      && !es[0].StopCmd?
      && (es[0].Cycle? && !d.paused ==> !HoldOver(d.rt.judgedAt, es[0].inp.p.wait, es[0].inp.now))
      && Waits(job, Step(job, d, es[0]), es[1..])
  }

  lemma {:induction false} HoldWaits(job: Job, d: Drill, es: seq<Event>)
    requires Held(job, d) && ValidEvents(es) && Waits(job, d, es)
    ensures var r := Exec(job, d, es); Held(job, r) && r.pos == d.pos && r.rt == d.rt
    decreases |es|
  {
    if es != [] {
      StepInv(job, d, es[0]);
      if es[0].Cycle? && !d.paused { HoldCycle(job, d, es[0].inp); }
      HoldWaits(job, Step(job, d, es[0]), es[1..]);
    }
  }

  /** The hold over whole runs.  From the cycle that begins it at time t0, through any cycles, pauses
      and resumes, the drill stays in its phase at the frozen position up to the first unpaused cycle
      whose clock exceeds the sum of t0 and the waiting time, both taken in 32 bits; and that cycle
      ends it. */
  lemma HoldEndsExactly(job: Job, d: Drill, enter: Input, es: seq<Event>, inp: Input)
    requires ValidJob(job) && Inv(job, d) && ValidEvent(Cycle(enter)) && d.phase == Drilling && !d.paused
    requires job.breakout && d.rt.detection == Breaking
    requires var r := Tick(job, d, enter);
      r.phase == Drilling && r.rt.detection == Holding && ValidEvents(es) && Waits(job, r, es)
    ensures var r := Tick(job, d, enter); var x := Exec(job, r, es);
      && x.phase == Drilling && x.pos == r.pos
      && (!x.paused ==>
            && Tick(job, x, inp).pos == r.pos
            && (Tick(job, x, inp).phase != Drilling <==> inp.now > Word(Word(enter.now) + inp.p.wait)))
  {
    HoldBegins(job, d, enter);
    var r := Tick(job, d, enter);
    HoldWaits(job, r, es);
    if !Exec(job, r, es).paused { HoldCycle(job, Exec(job, r, es), inp); }
  }

  /** The clocks of all unpaused cycles are within `wait` of `t0`; a pause may outlast it. */
  ghost predicate WithinTime(job: Job, d: Drill, es: seq<Event>, t0: int, wait: nat)
    decreases |es|
  {
    es != [] ==>
      && !es[0].StopCmd?
      && (es[0].Cycle? && !d.paused ==> es[0].inp.p.wait == wait && es[0].inp.now <= t0 + wait)
      && WithinTime(job, Step(job, d, es[0]), es[1..], t0, wait)
  }

  lemma {:induction false} WithinTimeWaits(job: Job, d: Drill, es: seq<Event>, t0: int, wait: nat)
    requires Held(job, d) && ValidEvents(es) && WithinTime(job, d, es, t0, wait)
    requires 0 <= t0 && t0 + wait < WORD && d.rt.judgedAt == Word(t0)
    ensures Waits(job, d, es)
    decreases |es|
  {
    if es != [] {
      StepInv(job, d, es[0]);
      if es[0].Cycle? && !d.paused { HoldCycle(job, d, es[0].inp); }
      WithinTimeWaits(job, Step(job, d, es[0]), es[1..], t0, wait);
    }
  }

  /** While clock and sum fit in 32 bits the hold lasts exactly the set time. */
  lemma HoldLastsSetTime(job: Job, d: Drill, enter: Input, es: seq<Event>, inp: Input, wait: nat)
    requires ValidJob(job) && Inv(job, d) && ValidEvent(Cycle(enter)) && d.phase == Drilling && !d.paused
    requires job.breakout && d.rt.detection == Breaking
    requires Tick(job, d, enter).phase == Drilling && Tick(job, d, enter).rt.detection == Holding
    requires 0 <= enter.now && enter.now + wait < WORD && inp.p.wait == wait
    requires ValidEvents(es) && WithinTime(job, Tick(job, d, enter), es, enter.now, wait)
    ensures var r := Tick(job, d, enter); var x := Exec(job, r, es);
      && x.phase == Drilling && x.pos == r.pos
      && (!x.paused ==> (Tick(job, x, inp).phase != Drilling <==> inp.now - enter.now > wait))
  {
    HoldBegins(job, d, enter);
    WithinTimeWaits(job, Tick(job, d, enter), es, enter.now, wait);
    HoldEndsExactly(job, d, enter, es, inp);
  }

  /** With a clock of 2^32 ms or more the first unpaused cycle ends the hold, whatever time is set. */
  lemma HoldSkipped(job: Job, d: Drill, inp: Input)
    requires Held(job, d) && !d.paused && inp.now >= WORD
    ensures Tick(job, d, inp).phase != Drilling
  {
    HoldCycle(job, d, inp);
  }

  /** A whole run on such a clock: the hold is to last 1000 ms and is over after 1 ms. */
  lemma HoldSkippedHappens(pos: real) returns (job: Job, es: seq<Event>, enter: Input, inp: Input)
    ensures ValidJob(job) && ValidEvents(es) && enter.now == WORD + 3000 && inp.now == enter.now + 1
    ensures inp.p.wait == 1000
    ensures var d := Exec(job, Init(job, pos), es); var r := Tick(job, d, enter);
      && r.phase == Drilling && r.rt.detection == Holding && d.rt.detection == Breaking
      && Tick(job, r, inp).phase == PrepareBack
  {
    var p := Params(0.5, 0.0, 100.0, 0.0, 1.0, 1000, 10, false, false, false);
    var d;
    job, es, d := ReachDetecting(pos, WORD, p);
    var detect := Cycle(Input(WORD + 3000, p, false, 1.0, 11));
    enter, inp := Input(WORD + 3000, p, false, 1.0, 0), Input(WORD + 3001, p, false, 1.0, 0);
    var b := Step(job, d, detect);
    assert b.phase == Drilling && b.rt.detection == Breaking && b.pos == pos - 2.0 && b.rt.floor == pos - 102.0;
    ExecSnoc(job, Init(job, pos), es, detect);
    es := es + [detect];
    var r := Tick(job, b, enter);
    assert r.phase == Drilling && r.rt.detection == Holding && r.pos == pos - 3.0;
    ExecInv(job, Init(job, pos), es);
    HoldBegins(job, b, enter);
    HoldSkipped(job, r, inp);
  }

  // ----- the return

  function Steps(x: real): nat
    requires x >= 0.0
  {
    (x / 2.0).Floor
  }

  function Cycles(job: Job, d: Drill, f: nat -> Input, k: nat, n: nat): Drill
    decreases n
  {
    if n == 0 then d else Cycles(job, Tick(job, d, f(k)), f, k + 1, n - 1)
  }

  /** The return ends on exactly the return point, within the number of steps of two units that
      the way has, plus one. */
  lemma {:induction false} ReturnEnds(job: Job, d: Drill, f: nat -> Input, k: nat) returns (n: nat)
    requires Inv(job, d) && d.phase == ReturnBacking && !d.paused
    ensures var r := Cycles(job, d, f, k, n);
      r.phase == Idle && r.pos == d.rt.returnTo && !r.power && !r.pumps
    ensures n <= Steps(d.rt.returnTo - d.pos) + 1
    decreases Steps(d.rt.returnTo - d.pos)
  {
    var d1 := Tick(job, d, f(k));
    if d1.phase == Idle {
      n := 1;
      assert Cycles(job, d1, f, k + 1, 0) == d1;
    } else {
      assert (d1.rt.returnTo - d1.pos) / 2.0 == (d.rt.returnTo - d.pos) / 2.0 - 1.0;
      n := ReturnEnds(job, d1, f, k + 1);
      n := n + 1;
    }
  }

  // ----- after contact

  function BackSteps(x: real): nat { if x <= 0.0 then 0 else x.Floor }

  /** After contact the drill backs to exactly the set distance above the contact point, in bounded
      time; that is its start and return point, and the depth is measured from the contact point. */
  lemma {:induction false} BackingEnds(job: Job, d: Drill, f: nat -> Input, k: nat, back: real) returns (n: nat)
    requires Inv(job, d) && job.touch && d.phase == TouchedBacking && !d.paused
    requires forall i: nat :: f(i).p.touchReturn == back
    ensures var r := Cycles(job, d, f, k, n);
      && r.phase == PrepareDrill && r.pos == r.rt.start == r.rt.returnTo == d.rt.touched + back
      && r.rt.target == d.rt.touched - job.depth
    ensures n <= BackSteps(d.rt.touched + back - d.pos) + 1
    decreases BackSteps(d.rt.touched + back - d.pos)
  {
    assert f(k).p.touchReturn == back;
    var d1 := Tick(job, d, f(k));
    if d1.phase == PrepareDrill {
      n := 1;
      assert Cycles(job, d1, f, k + 1, 0) == d1;
    } else {
      n := BackingEnds(job, d1, f, k + 1, back);
      n := n + 1;
    }
  }

  // ----- pauses

  /** Pauses, resumes, and cycles that happen only while paused. */
  ghost predicate OnlyPauses(job: Job, d: Drill, es: seq<Event>)
    decreases |es|
  {
    es != [] ==>
      && (es[0].PauseCmd? || es[0].ResumeCmd? || (es[0].Cycle? && d.paused))
      && OnlyPauses(job, Step(job, d, es[0]), es[1..])
  }

  /** The outputs are those of the phase, or off while paused. */
  predicate OutputsMatch(d: Drill) {
    if d.paused then !d.power && !d.pumps
    else d.pumps && (d.power <==> d.phase in {PrepareDrill, PrepareDrillDelaying, Drilling})
  }

  /** Pausing and resuming any number of times changes neither phase nor position nor anything the
      task has recorded, and keeps the outputs those of the phase, off in between. */
  lemma {:induction false} PausesKeepPlace(job: Job, d: Drill, es: seq<Event>)
    requires OnlyPauses(job, d, es)
    ensures var r := Exec(job, d, es);
      && r.phase == d.phase && r.pos == d.pos && r.rt == d.rt && r.timer == d.timer
      && (d.phase != Idle && OutputsMatch(d) ==> OutputsMatch(r))
    decreases |es|
  {
    if es != [] { PausesKeepPlace(job, Step(job, d, es[0]), es[1..]); }
  }
}
