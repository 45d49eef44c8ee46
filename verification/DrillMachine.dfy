/** The hole-drilling task: touch, drill with breakout detection, return.  Positions are those of
    the S axis; drilling goes in negative direction. */
module DrillMachine {
  import opened Common

  datatype Phase =
    | Idle
    | PrepareTouch | PrepareTouchDelaying | Touching | TouchedBacking
    | PrepareDrill | PrepareDrillDelaying | Drilling
    | PrepareBack | PrepareBackDelaying | ReturnBacking

  /** What the program asks for; `depth` in blu. */
  datatype Job = Job(depth: real, touch: bool, breakout: bool, back: bool)

  datatype Detection = NotDetected | Breaking | Holding

  datatype Runtime = Runtime(
    touched: real,
    start: real,
    target: real,
    returnTo: real,
    detecting: bool,       // start_breakthrough_detect
    detection: Detection,  // detect_state
    detectFrom: real,      // start_detect_pos
    breakoutAt: real,
    floor: real,           // min_pos_after_breakout_start_detected
    judgedAt: nat)         // breakout_end_judged_time_ms, 32 bits

  datatype Drill = Drill(phase: Phase, paused: bool, rt: Runtime, timer: int, pos: real, power: bool, pumps: bool)

  /** The settings a cycle reads; the last three are the control flags. */
  datatype Params = Params(
    touchSpeed: real, touchReturn: real, maxMove: real, detectShare: real, maxRatio: real,
    wait: nat, threshold: nat, slowBefore: bool, slowAfter: bool, ignoreEnd: bool)

  /** One cycle: clock in ms, settings, contact, servo feed, and the count of the breakout filter. */
  datatype Input = Input(now: int, p: Params, contact: bool, servo: real, cnt: nat)

  const DELAY := 1000

  function Cleared(): Runtime { Runtime(0.0, 0.0, 0.0, 0.0, false, NotDetected, 0.0, 0.0, 0.0, 0) }

  function Init(job: Job, pos: real): Drill {
    if job.touch then Drill(PrepareTouch, false, Cleared(), 0, pos, false, false)
    else
      var rt := Cleared().(start := pos, target := pos - job.depth, returnTo := pos);
      Drill(PrepareDrill, false, rt, 0, pos, false, false)
  }

  // ----- commands

  function Pause(d: Drill): (Drill, bool) {
    if d.phase == Idle then (d, false) else (d.(paused := true, power := false, pumps := false), true)
  }

  function Resume(d: Drill): (Drill, bool) {
    if !d.paused then (d, false)
    else if d.phase == Idle then (d.(paused := false), true)
    else (d.(paused := false, pumps := true, power := d.phase in {PrepareDrill, PrepareDrillDelaying, Drilling}), true)
  }

  function Finish(d: Drill): Drill {
    d.(phase := Idle, rt := Cleared(), paused := false, power := false, pumps := false)
  }

  function Stop(d: Drill): (Drill, bool) { (Finish(d), true) }

  // ----- one cycle

  function Prepare(d: Drill, inp: Input, power: bool, next: Phase): Drill {
    d.(pumps := true, power := power, timer := inp.now, phase := next)
  }

  function Delay(d: Drill, inp: Input, next: Phase): Drill {
    if inp.now - d.timer >= DELAY then d.(phase := next) else d
  }

  /** The cycle that feels the contact still moves down once more. */
  function TouchOnce(job: Job, d: Drill, inp: Input): Drill {
    var rt := d.rt.(touched := d.pos, start := d.pos, target := d.pos - job.depth);
    var found := if job.breakout
      then rt.(detectFrom := d.pos - inp.p.detectShare * job.depth, detection := NotDetected, detecting := false)
      else rt;
    d.(pos := d.pos - inp.p.touchSpeed,
       rt := if inp.contact then found else d.rt,
       phase := if inp.contact then TouchedBacking else Touching)
  }

  function BackOnce(d: Drill, inp: Input): Drill {
    var back := d.rt.touched + inp.p.touchReturn;
    if d.pos + 1.0 >= back then d.(pos := back, rt := d.rt.(start := back, returnTo := back), phase := PrepareDrill)
    else d.(pos := d.pos + 1.0)
  }

  /** The slow-down before breakout.  The difference is taken in 32 bits: once the count passes the
      threshold it wraps and the feed is not slowed at all. */
  function RatioBefore(p: Params, cnt: nat): real {
    if !p.slowBefore || cnt <= p.threshold / 2 || p.threshold == 0 then 1.0
    else
      var q := (Word(p.threshold - cnt) as real) / ((p.threshold - p.threshold / 2) as real);
      if q > 1.0 then 1.0 else if q < 0.35 then 0.35 else q
  }

  function RatioAfter(p: Params, rt: Runtime, pos: real): real {
    if !p.slowAfter then 1.0
    else if rt.breakoutAt == rt.floor then p.maxRatio
    else
      var q := Size((pos - rt.floor) / (rt.breakoutAt - rt.floor));
      if q > p.maxRatio then p.maxRatio else if q < 0.35 then 0.35 else q
  }

  /** The hold is over: the judged time and the sum are 32 bits wide, the clock is not. */
  predicate HoldOver(judgedAt: nat, wait: nat, now: int) { now > Word(judgedAt + wait) }

  /** Feed with breakout detection: the drill before the general limits, and whether it is done. */
  function FeedDetecting(d: Drill, inp: Input): (Drill, bool) {
    match d.rt.detection
    case NotDetected =>
      var pos := d.pos - inp.servo * RatioBefore(inp.p, inp.cnt);
      if inp.cnt > inp.p.threshold then
        (d.(pos := pos, rt := d.rt.(detection := Breaking, breakoutAt := pos, floor := pos - inp.p.maxMove)), false)
      else (d.(pos := pos), false)
    case Breaking =>
      var pos := d.pos - inp.servo * RatioAfter(inp.p, d.rt, d.pos);
      var held := d.rt.(detection := Holding, judgedAt := Word(inp.now));
      if pos < d.rt.floor then (d.(pos := d.rt.floor, rt := held), false)
      else if !inp.p.ignoreEnd && inp.cnt <= inp.p.threshold then (d.(pos := pos, rt := held), false)
      else (d.(pos := pos), false)
    case Holding => (d, HoldOver(d.rt.judgedAt, inp.p.wait, inp.now))
  }

  function Feed(job: Job, d: Drill, inp: Input): (Drill, bool) {
    if !job.breakout then (d.(pos := d.pos - inp.servo), false)
    else
      var (d1, over) := if d.rt.detecting then FeedDetecting(d, inp) else (d.(pos := d.pos - inp.servo), false);
      (if !d1.rt.detecting && d1.pos < d1.rt.detectFrom then d1.(rt := d1.rt.(detecting := true)) else d1, over)
  }

  /** The general limits: not above the start, and done at the target. */
  function Limited(d: Drill): (Drill, bool) {
    if d.pos >= d.rt.start then (d.(pos := d.rt.start), false)
    else if d.pos <= d.rt.target then (d.(pos := d.rt.target), true)
    else (d, false)
  }

  function DrillOnce(job: Job, d: Drill, inp: Input): Drill {
    var (d1, held) := Feed(job, d, inp);
    var (d2, deep) := Limited(d1);
    if !held && !deep then d2 else if job.back then d2.(phase := PrepareBack) else Finish(d2)
  }

  function ReturnOnce(d: Drill): Drill {
    if d.pos + 2.0 >= d.rt.returnTo then Finish(d.(pos := d.rt.returnTo)) else d.(pos := d.pos + 2.0)
  }

  function Tick(job: Job, d: Drill, inp: Input): Drill {
    if d.paused then d else
    match d.phase
    case Idle => d
    case PrepareTouch => Prepare(d, inp, false, PrepareTouchDelaying)
    case PrepareTouchDelaying => Delay(d, inp, Touching)
    case Touching => TouchOnce(job, d, inp)
    case TouchedBacking => BackOnce(d, inp)
    case PrepareDrill => Prepare(d, inp, true, PrepareDrillDelaying)
    case PrepareDrillDelaying => Delay(d, inp, Drilling)
    case Drilling => DrillOnce(job, d, inp)
    case PrepareBack => Prepare(d, inp, false, PrepareBackDelaying)
    case PrepareBackDelaying => Delay(d, inp, ReturnBacking)
    case ReturnBacking => ReturnOnce(d)
  }

  // ----- runs

  datatype Event = Cycle(inp: Input) | PauseCmd | ResumeCmd | StopCmd

  function Step(job: Job, d: Drill, e: Event): Drill {
    match e
    case Cycle(inp) => Tick(job, d, inp)
    case PauseCmd => Pause(d).0
    case ResumeCmd => Resume(d).0
    case StopCmd => Stop(d).0
  }

  function Exec(job: Job, d: Drill, es: seq<Event>): Drill
    decreases |es|
  {
    if es == [] then d else Exec(job, Step(job, d, es[0]), es[1..])
  }

  // ----- what every reachable state satisfies

  ghost predicate ValidJob(job: Job) { job.depth >= 0.0 && (job.breakout ==> job.touch) }

  /** The two distances among the settings are not negative. */
  ghost predicate ValidEvent(e: Event) { e.Cycle? ==> e.inp.p.touchReturn >= 0.0 && e.inp.p.maxMove >= 0.0 }

  ghost predicate ValidEvents(es: seq<Event>) { forall e | e in es :: ValidEvent(e) }

  predicate AfterTouch(p: Phase) {
    p in {PrepareDrill, PrepareDrillDelaying, Drilling, PrepareBack, PrepareBackDelaying, ReturnBacking}
  }

  ghost predicate Outputs(d: Drill) {
    && (d.paused ==> d.phase != Idle && !d.power && !d.pumps)
    && (d.phase == Idle ==> !d.power && !d.pumps)
    && (d.power ==> d.phase in {PrepareDrill, PrepareDrillDelaying, Drilling, PrepareBack})
    && (d.phase in {PrepareDrillDelaying, Drilling} && !d.paused ==> d.power && d.pumps)
  }

  ghost predicate Geometry(job: Job, d: Drill) {
    && (d.phase == TouchedBacking ==> d.rt.target == d.rt.touched - job.depth)
    && (AfterTouch(d.phase) ==>
          && d.rt.target <= d.pos <= d.rt.start && d.rt.returnTo == d.rt.start
          && (job.touch ==> d.rt.target == d.rt.touched - job.depth)
          && (!job.touch ==> d.rt.target == d.rt.start - job.depth))
    && (!job.touch ==> d.phase !in {PrepareTouch, PrepareTouchDelaying, Touching, TouchedBacking})
    && (job.breakout && AfterTouch(d.phase) ==> FloorKept(d))
    && (job.breakout && d.phase == TouchedBacking ==> d.rt.detection == NotDetected)
  }

  /** After the breakout has begun, the position is not below the floor. */
  ghost predicate FloorKept(d: Drill) {
    d.rt.detection != NotDetected ==> d.rt.detecting && (d.rt.floor <= d.rt.start ==> d.rt.floor <= d.pos)
  }

  ghost predicate Inv(job: Job, d: Drill) { Outputs(d) && Geometry(job, d) }

  lemma FeedKeepsFloor(job: Job, d: Drill, inp: Input)
    requires FloorKept(d) && inp.p.maxMove >= 0.0 && job.breakout
    ensures FloorKept(Feed(job, d, inp).0)
    ensures var r := Feed(job, d, inp).0.rt;
      r.start == d.rt.start && r.target == d.rt.target && r.touched == d.rt.touched && r.returnTo == d.rt.returnTo
  { }

  lemma DrillOnceGeometry(job: Job, d: Drill, inp: Input)
    requires ValidJob(job) && Geometry(job, d) && d.phase == Drilling && inp.p.maxMove >= 0.0
    ensures Geometry(job, DrillOnce(job, d, inp))
  {
    if job.breakout { FeedKeepsFloor(job, d, inp); }
  }

  lemma TickGeometry(job: Job, d: Drill, inp: Input)
    requires ValidJob(job) && Geometry(job, d) && inp.p.touchReturn >= 0.0 && inp.p.maxMove >= 0.0
    ensures Geometry(job, Tick(job, d, inp))
  {
    if !d.paused && d.phase == Drilling { DrillOnceGeometry(job, d, inp); }
  }

  lemma TickOutputs(job: Job, d: Drill, inp: Input)
    requires Outputs(d)
    ensures Outputs(Tick(job, d, inp))
  { }

  lemma StepInv(job: Job, d: Drill, e: Event)
    requires ValidJob(job) && Inv(job, d) && ValidEvent(e)
    ensures Inv(job, Step(job, d, e))
  {
    if e.Cycle? {
      TickGeometry(job, d, e.inp);
      TickOutputs(job, d, e.inp);
    }
  }

  lemma {:induction false} ExecInv(job: Job, d: Drill, es: seq<Event>)
    requires ValidJob(job) && Inv(job, d) && ValidEvents(es)
    ensures Inv(job, Exec(job, d, es))
    decreases |es|
  {
    if es != [] {
      StepInv(job, d, es[0]);
      ExecInv(job, Step(job, d, es[0]), es[1..]);
    }
  }
}
