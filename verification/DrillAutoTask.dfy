/** `DrillAutoTask` as an object that moves the S axis of the shared command position. */
module DrillAutoTask {
  import opened Common
  import opened DrillMachine
  import DP = DrillProperties

  /** The S axis of the shared command position. */
  class SAxis {
    var pos: real

    constructor (pos: real)
      ensures this.pos == pos
    {
      this.pos := pos;
    }
  }

  class DrillAutoTask {
    const job: Job
    const machine: SAxis
    var drillState: Phase
    var pauseFlag: bool
    var runtime: Runtime
    var timerStart: int
    var power: bool       // what this task commanded last
    var pumps: bool

    ghost function Abs(): Drill
      reads this, machine
    {
      Drill(drillState, pauseFlag, runtime, timerStart, machine.pos, power, pumps)
    }

    /** Outputs, geometry and floor are as every run keeps them. */
    ghost predicate Valid()
      reads this, machine
    {
      ValidJob(job) && Inv(job, Abs())
    }

    constructor (job: Job, machine: SAxis)
      ensures this.job == job && this.machine == machine && Abs() == Init(job, machine.pos)
      ensures ValidJob(job) ==> Valid()
    {
      this.job, this.machine := job, machine;
      pauseFlag, timerStart := false, 0;
      power, pumps := false, false;
      runtime := Cleared();
      if job.touch {
        drillState := PrepareTouch;
      } else {
        runtime := Cleared().(start := machine.pos, target := machine.pos - job.depth, returnTo := machine.pos);
        drillState := PrepareDrill;
      }
    }

    // ----- commands

    method PauseTask() returns (ok: bool)
      modifies this`pauseFlag, this`power, this`pumps
      ensures (Abs(), ok) == Pause(old(Abs()))
      ensures old(Valid()) ==> Valid()
    {
      if Valid() { StepInv(job, Abs(), PauseCmd); }
      if drillState == Idle { return false; }
      pauseFlag := true;
      SetOutputs(false, false);
      ok := true;
    }

    method ResumeTask() returns (ok: bool)
      modifies this`pauseFlag, this`power, this`pumps
      ensures (Abs(), ok) == Resume(old(Abs()))
      ensures old(Valid()) ==> Valid()
    {
      if Valid() { StepInv(job, Abs(), ResumeCmd); }
      if !pauseFlag { return false; }
      pauseFlag := false;
      if drillState in {PrepareDrill, PrepareDrillDelaying, Drilling} {
        SetOutputs(true, true);
      } else if drillState != Idle {
        SetOutputs(false, true);
      }
      ok := true;
    }

    method StopTask() returns (ok: bool)
      modifies this
      ensures (Abs(), ok) == Stop(old(Abs()))
      ensures old(Valid()) ==> Valid()
    {
      if Valid() { StepInv(job, Abs(), StopCmd); }
      ClearAllStatus();
      ok := true;
    }

    method SetOutputs(power: bool, pumps: bool)
      modifies this`power, this`pumps
      ensures this.power == power && this.pumps == pumps
    {
      this.pumps := pumps;
      this.power := power;
    }

    /** Back to Idle, with everything off. */
    method ClearAllStatus()
      modifies this
      ensures Abs() == Finish(old(Abs()))
    {
      drillState := Idle;
      runtime := Cleared();
      pauseFlag := false;
      SetOutputs(false, false);
    }

    // ----- one cycle

    method RunOnce(inp: Input)
      modifies this, machine
      ensures Abs() == Tick(job, old(Abs()), inp)
      ensures old(Valid()) && ValidEvent(Cycle(inp)) ==> Valid()
    {
      if Valid() && ValidEvent(Cycle(inp)) { StepInv(job, Abs(), Cycle(inp)); }
      if pauseFlag { return; }
      match drillState {
        case Idle =>
        case PrepareTouch => Prepare(inp, false, PrepareTouchDelaying);
        case PrepareTouchDelaying => Delaying(inp, Touching);
        case Touching => TouchingOnce(inp);
        case TouchedBacking => TouchedBackingOnce(inp);
        case PrepareDrill => Prepare(inp, true, PrepareDrillDelaying);
        case PrepareDrillDelaying => Delaying(inp, Drilling);
        case Drilling => DrillingOnce(inp);
        case PrepareBack => Prepare(inp, false, PrepareBackDelaying);
        case PrepareBackDelaying => Delaying(inp, ReturnBacking);
        case ReturnBacking => ReturnBackingOnce();
      }
    }

    method Prepare(inp: Input, power: bool, next: Phase)
      modifies this
      ensures Abs() == DrillMachine.Prepare(old(Abs()), inp, power, next)
    {
      SetOutputs(power, true);
      timerStart := inp.now;
      drillState := next;
    }

    method Delaying(inp: Input, next: Phase)
      modifies this
      ensures Abs() == Delay(old(Abs()), inp, next)
    {
      if inp.now - timerStart >= DELAY { drillState := next; }
    }

    method TouchingOnce(inp: Input)
      requires drillState == Touching
      modifies this, machine
      ensures Abs() == TouchOnce(job, old(Abs()), inp)
    {
      if inp.contact {
        runtime := runtime.(touched := machine.pos);
        runtime := runtime.(start := runtime.touched);
        runtime := runtime.(target := runtime.start - job.depth);
        if job.breakout {
          runtime := runtime.(detectFrom := runtime.touched - inp.p.detectShare * job.depth);
          runtime := runtime.(detection := NotDetected, detecting := false);
        }
        drillState := TouchedBacking;
      }
      machine.pos := machine.pos - inp.p.touchSpeed;
    }

    method TouchedBackingOnce(inp: Input)
      modifies this, machine
      ensures Abs() == BackOnce(old(Abs()), inp)
    {
      var targetBack := runtime.touched + inp.p.touchReturn;
      machine.pos := machine.pos + 1.0;
      if machine.pos >= targetBack {
        machine.pos := targetBack;
        runtime := runtime.(start := machine.pos);
        runtime := runtime.(returnTo := runtime.start);
        drillState := PrepareDrill;
      }
    }

    /** The feed of one drilling cycle, with breakout detection once its depth is reached. */
    method FeedOnce(inp: Input) returns (over: bool)
      modifies this`runtime, machine`pos
      ensures (Abs(), over) == Feed(job, old(Abs()), inp)
    {
      over := false;
      if !job.breakout {
        machine.pos := machine.pos - inp.servo;
        return;
      }
      if runtime.detecting {
        over := DetectOnce(inp);
      } else {
        machine.pos := machine.pos - inp.servo;
      }
      if !runtime.detecting && machine.pos < runtime.detectFrom {
        runtime := runtime.(detecting := true);
      }
    }

    method DetectOnce(inp: Input) returns (over: bool)
      modifies this`runtime, machine`pos
      ensures (Abs(), over) == FeedDetecting(old(Abs()), inp)
    {
      over := false;
      var knDetected := inp.cnt > inp.p.threshold;
      match runtime.detection {
        case NotDetected =>
          machine.pos := machine.pos - inp.servo * RatioBefore(inp.p, inp.cnt);
          if knDetected {
            runtime := runtime.(detection := Breaking, breakoutAt := machine.pos, floor := machine.pos - inp.p.maxMove);
          }
        case Breaking => BreakingOnce(inp, knDetected);
        case Holding => over := HoldOver(runtime.judgedAt, inp.p.wait, inp.now);
      }
    }

    method BreakingOnce(inp: Input, knDetected: bool)
      requires runtime.detection == Breaking && knDetected == (inp.cnt > inp.p.threshold)
      modifies this`runtime, machine`pos
      ensures Abs() == FeedDetecting(old(Abs()), inp).0
    {
      machine.pos := machine.pos - inp.servo * RatioAfter(inp.p, runtime, machine.pos);
      if machine.pos < runtime.floor {
        machine.pos := runtime.floor;
        runtime := runtime.(judgedAt := Word(inp.now), detection := Holding);
      } else if !inp.p.ignoreEnd && !knDetected {
        runtime := runtime.(judgedAt := Word(inp.now), detection := Holding);
      }
    }

    method DrillingOnce(inp: Input)
      modifies this, machine
      ensures Abs() == DrillOnce(job, old(Abs()), inp)
    {
      var drillOver := FeedOnce(inp);
      if machine.pos >= runtime.start {
        machine.pos := runtime.start;
      } else if machine.pos <= runtime.target {
        machine.pos := runtime.target;
        drillOver := true;
      }
      if drillOver {
        if job.back {
          drillState := PrepareBack;
        } else {
          ClearAllStatus();
        }
      }
    }

    method ReturnBackingOnce()
      modifies this, machine
      ensures Abs() == ReturnOnce(old(Abs()))
    {
      var targetBack := runtime.returnTo;
      machine.pos := machine.pos + 2.0;
      if machine.pos >= targetBack {
        machine.pos := targetBack;
        ClearAllStatus();
      }
    }
  }

  /** What an observer of a drilling run notes after every event. */
  datatype Observed = Observed(phase: Phase, paused: bool, pos: real, start: real, target: real, power: bool)

  function View(d: Drill): Observed {
    Observed(d.phase, d.paused, d.pos, d.rt.start, d.rt.target, d.power)
  }

  /** Whenever it drills it is between its target and its start with the power on unless paused, and
      the power is commanded on only in the drilling phases, never paused. */
  predicate Proper(o: Observed) {
    && (o.phase == Drilling ==> o.target <= o.pos <= o.start && (o.power <==> !o.paused))
    && (o.power ==> !o.paused && o.phase in {PrepareDrill, PrepareDrillDelaying, Drilling, PrepareBack})
  }

  /** The object under any sequence of events: what is observed after each of them is the state the
      machine says, and is proper. */
  method RunJob(job: Job, pos: real, es: seq<Event>) returns (log: seq<Observed>)
    requires ValidJob(job) && ValidEvents(es)
    ensures |log| == |es|
    ensures forall k | 0 <= k < |es| :: log[k] == View(Exec(job, Init(job, pos), es[..k + 1])) && Proper(log[k])
  {
    var machine := new SAxis(pos);
    var task := new DrillAutoTask(job, machine);
    log := [];
    for k := 0 to |es|
      invariant task.Valid() && task.job == job && task.machine == machine && fresh(task) && fresh(machine)
      invariant task.Abs() == Exec(job, Init(job, pos), es[..k])
      invariant |log| == k
      invariant forall i | 0 <= i < k :: log[i] == View(Exec(job, Init(job, pos), es[..i + 1])) && Proper(log[i])
    {
      assert ValidEvent(es[k]);
      DP.ExecSnoc(job, Init(job, pos), es[..k], es[k]);
      assert es[..k + 1] == es[..k] + [es[k]];
      Handle(task, es[k]);
      var rt := task.runtime;
      log := log + [Observed(task.drillState, task.pauseFlag, machine.pos, rt.start, rt.target, task.power)];
    }
  }

  /** One event on the object. */
  method Handle(task: DrillAutoTask, e: Event)
    requires task.Valid() && ValidEvent(e)
    modifies task, task.machine
    ensures task.Valid() && task.Abs() == Step(task.job, old(task.Abs()), e)
  {
    var ok;
    match e {
      case Cycle(inp) => task.RunOnce(inp);
      case PauseCmd => ok := task.PauseTask();
      case ResumeCmd => ok := task.ResumeTask();
      case StopCmd => ok := task.StopTask();
    }
  }
}
