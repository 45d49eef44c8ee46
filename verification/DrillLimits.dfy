/** The drill and the soft limit.  The task works in motor coordinates, the limit is a machine
    coordinate; the machine position is the motor position minus the global offset `g`.  The check of
    the interpreter compares the two without converting. */
module DrillLimits {
  import opened DrillMachine
  import opened DrillProperties
  import opened RealFacts

  /** The interpreter accepts a drill node at motor position `motor`. */
  predicate Accepts(job: Job, motor: real, neg: real) { motor - job.depth >= neg }

  /** The machine position after a run. */
  function MachinePos(job: Job, motor: real, g: real, es: seq<Event>): real {
    Exec(job, Init(job, motor), es).pos - g
  }

  /** No run of a job ever commands a machine position below the limit. */
  ghost predicate AlwaysAbove(job: Job, motor: real, g: real, neg: real) {
    forall es | ValidEvents(es) :: MachinePos(job, motor, g, es) >= neg
  }

  // ----- jobs without touching

  ghost predicate NotBelow(d: Drill, low: real) { d.pos >= low && (d.phase != Idle ==> d.rt.target == low) }

  lemma NotBelowStep(job: Job, d: Drill, e: Event, low: real)
    requires ValidJob(job) && ValidEvent(e) && !job.touch && Inv(job, d) && NotBelow(d, low)
    ensures NotBelow(Step(job, d, e), low)
  {
    StepInv(job, d, e);
  }

  lemma {:induction false} NotBelowRun(job: Job, d: Drill, es: seq<Event>, low: real)
    requires ValidJob(job) && ValidEvents(es) && !job.touch && Inv(job, d) && NotBelow(d, low)
    ensures NotBelow(Exec(job, d, es), low)
    decreases |es|
  {
    if es != [] {
      StepInv(job, d, es[0]);
      NotBelowStep(job, d, es[0], low);
      NotBelowRun(job, Step(job, d, es[0]), es[1..], low);
    }
  }

  /** A run that drills to the full depth. */
  lemma DrillsToDepth(job: Job, motor: real) returns (es: seq<Event>)
    requires ValidJob(job) && !job.touch
    ensures ValidEvents(es) && Exec(job, Init(job, motor), es).pos == motor - job.depth
  {
    var p := Params(0.0, 0.0, 0.0, 0.0, 1.0, 0, 0, false, false, false);
    var begin, later := Cycle(Input(0, p, false, 0.0, 0)), Cycle(Input(1000, p, false, 0.0, 0));
    var feed := Cycle(Input(1000, p, false, job.depth, 0));
    var d0 := Init(job, motor);
    var d2 := Step(job, Step(job, d0, begin), later);
    assert d2.phase == Drilling && d2.pos == motor;
    assert Step(job, d2, feed).pos == motor - job.depth;
    ExecSnoc(job, d0, [], begin);
    ExecSnoc(job, d0, [] + [begin], later);
    ExecSnoc(job, d0, [] + [begin] + [later], feed);
    es := [] + [begin] + [later] + [feed];
  }

  /** Exactly when a job without touching never goes below the limit: its depth, taken from the
      machine position, ends above it. */
  lemma AboveIff(job: Job, motor: real, g: real, neg: real)
    requires ValidJob(job) && !job.touch
    ensures AlwaysAbove(job, motor, g, neg) <==> motor - job.depth - g >= neg
  {
    if motor - job.depth - g >= neg {
      forall es | ValidEvents(es) ensures MachinePos(job, motor, g, es) >= neg {
        NotBelowRun(job, Init(job, motor), es, motor - job.depth);
      }
    } else {
      var es := DrillsToDepth(job, motor);
      assert MachinePos(job, motor, g, es) < neg;
    }
  }

  /** So the check protects every job without touching if and only if the global offset of the axis is
      not positive. */
  lemma AcceptedJobsAboveIff(g: real)
    ensures (forall job, motor, neg | ValidJob(job) && !job.touch && Accepts(job, motor, neg) ::
               AlwaysAbove(job, motor, g, neg))
      <==> g <= 0.0
  {
    forall job, motor, neg | ValidJob(job) && !job.touch && Accepts(job, motor, neg)
      ensures AlwaysAbove(job, motor, g, neg) <==> motor - job.depth - g >= neg
    {
      AboveIff(job, motor, g, neg);
    }
    var job := Job(10.0, false, false, true);
    assert ValidJob(job) && Accepts(job, 0.0, -10.0);
    AboveIff(job, 0.0, g, -10.0);
  }

  /** An accepted job without touching that drills below the limit: accepted down to -10, it ends at
      machine position -15. */
  lemma AcceptedJobBelowLimit() returns (job: Job, motor: real, g: real, neg: real, es: seq<Event>)
    ensures ValidJob(job) && !job.touch && ValidEvents(es) && Accepts(job, motor, neg) && neg == -10.0
    ensures MachinePos(job, motor, g, es) == -15.0
  {
    job, motor, g, neg := Job(10.0, false, false, true), 0.0, 5.0, -10.0;
    es := DrillsToDepth(job, motor);
  }

  // ----- touch jobs

  /** With touching the target is measured from where contact is felt: if that point is high enough,
      drilling stays above the limit. */
  lemma TouchRunAgainstLimit(job: Job, motor: real, g: real, neg: real, es: seq<Event>)
    requires ValidJob(job) && ValidEvents(es) && job.touch
    ensures var d := Exec(job, Init(job, motor), es);
      AfterTouch(d.phase) && d.rt.touched - job.depth - g >= neg ==> d.pos - g >= neg
  {
    ExecInv(job, Init(job, motor), es);
  }

  /** If it is not, one cycle of feed takes the drill below the limit, from any drilling state in which
      no breakout has been noticed. */
  lemma TouchRunContinuesBelow(job: Job, d: Drill, g: real, neg: real) returns (inp: Input)
    requires ValidJob(job) && Inv(job, d) && job.touch && d.phase == Drilling && !d.paused
    requires job.breakout ==> d.rt.detection == NotDetected
    requires d.rt.touched - job.depth - g < neg
    ensures ValidEvent(Cycle(inp)) && Tick(job, d, inp).pos - g < neg
  {
    var p := Params(0.0, 0.0, 0.0, 0.0, 1.0, 0, 0, false, false, false);
    inp := Input(0, p, false, d.pos - d.rt.target + 1.0, 0);
    assert RatioBefore(p, 0) == 1.0;
    assert Feed(job, d, inp).0.pos == d.rt.target - 1.0;
  }

  /** The touching phase itself descends without any limit: without contact it passes every one. */
  lemma {:induction false} TouchingPassesEveryLimit(
    job: Job, d: Drill, f: nat -> Input, k: nat, speed: real, limit: real) returns (n: nat)
    requires d.phase == Touching && !d.paused && speed > 0.0
    requires forall i: nat :: !f(i).contact && f(i).p.touchSpeed == speed
    ensures var r := Cycles(job, d, f, k, n); r.phase == Touching && r.pos < limit
    decreases if d.pos < limit then 0 else Parts(d.pos - limit, speed) + 1
  {
    n := 0;
    if d.pos >= limit {
      assert !f(k).contact && f(k).p.touchSpeed == speed;
      var d1 := Tick(job, d, f(k));
      if d1.pos >= limit { FewerParts(d.pos - limit, d1.pos - limit, speed); }
      n := TouchingPassesEveryLimit(job, d1, f, k + 1, speed, limit);
      n := n + 1;
    }
  }

  /** A run of a touch job that feels contact half a unit below its start and drills to its depth. */
  lemma TouchesAndDrills(motor: real, job: Job) returns (es: seq<Event>)
    requires job == Job(10.0, true, false, true)
    ensures ValidEvents(es) && Exec(job, Init(job, motor), es).pos == motor - 10.5
  {
    var p := Params(0.5, 0.0, 0.0, 0.0, 1.0, 0, 0, false, false, false);
    var begin, later := Cycle(Input(0, p, false, 0.0, 0)), Cycle(Input(1000, p, false, 0.0, 0));
    var touch, feed := Cycle(Input(1000, p, true, 0.0, 0)), Cycle(Input(2000, p, false, 20.0, 0));
    var d0 := Init(job, motor);
    var d3 := Step(job, Step(job, Step(job, d0, begin), later), later);
    var d4 := Step(job, d3, touch);
    var d5 := Step(job, d4, later);
    assert d3.phase == Touching && d3.pos == motor - 0.5 && d4.phase == TouchedBacking && d4.pos == motor - 1.0;
    assert d5.phase == PrepareDrill && d5.pos == motor - 0.5 && d5.rt.target == motor - 10.5;
    var d7 := Step(job, Step(job, d5, later), feed);
    assert d7.phase == Drilling && Step(job, d7, feed).pos == motor - 10.5;
    var e3 := [] + [begin] + [later] + [later];
    ExecSnoc(job, d0, [], begin);
    ExecSnoc(job, d0, [] + [begin], later);
    ExecSnoc(job, d0, [] + [begin] + [later], later);
    ExecSnoc(job, d0, e3, touch);
    ExecSnoc(job, d0, e3 + [touch], later);
    ExecSnoc(job, d0, e3 + [touch] + [later], later);
    ExecSnoc(job, d0, e3 + [touch] + [later] + [later], feed);
    ExecSnoc(job, d0, e3 + [touch] + [later] + [later] + [feed], feed);
    es := e3 + [touch] + [later] + [later] + [feed] + [feed];
  }

  /** An accepted touch job that drills below the limit, even without a global offset. */
  lemma TouchRunBelowLimit(motor: real) returns (job: Job, neg: real, es: seq<Event>)
    ensures ValidJob(job) && job.touch && ValidEvents(es) && Accepts(job, motor, neg)
    ensures MachinePos(job, motor, 0.0, es) < neg
  {
    job, neg := Job(10.0, true, false, true), motor - 10.0;
    es := TouchesAndDrills(motor, job);
  }
}
