/** `G01AutoTask` over six axes.  Every public call and every cycle is proved to do along the
    line what `G01Machine` says, with the shared command position on the line throughout. */
module G01AutoTask {
  import opened Axes
  import opened Trajectory
  import opened G01Machine
  import PM = PointMove

  class G01AutoTask {
    const sqrt: real -> real
    const lineTraj: LinearSegment
    const shared: MotionShared
    const maxJumpHeightFromBegin: real
    const pauseReturnBackStep: real

    var state: State
    var servoSubState: ServoState
    var pauseOrStopSubState: PauseOrStopState
    var jumpingParam: JumpParam
    var lastJumpEndTimeMs: int
    var servoingLengthBeforeJump: real
    var jumpUpTargetPos: Axis
    var jumpFrom: Axis            // start, direction and progress of the jump's point move
    var jumpDir: Axis
    var jumpMover: PM.Mover
    var pauseReturnBackGone: real
    var gate: bool
    var machOn: bool

    ghost var cmdLen: real        // the same positions measured along the line
    ghost var upLen: real
    ghost var fromLen: real

    ghost function LineOf(): Line
      reads this
    {
      Line(lineTraj.totalLength, maxJumpHeightFromBegin, pauseReturnBackStep)
    }

    ghost function Abs(): Task
      reads this, lineTraj
    {
      Task(state, servoSubState, pauseOrStopSubState, jumpingParam, lastJumpEndTimeMs,
           servoingLengthBeforeJump, upLen, lineTraj.currLength, fromLen, jumpMover,
           pauseReturnBackGone, cmdLen, gate, machOn)
    }

    ghost function At(len: real): Axis
      reads this
    {
      Along(lineTraj.startPos, lineTraj.unitVector, len)
    }

    /** The six-axis fields agree with the lengths along the line. */
    ghost predicate OnLine()
      reads this, lineTraj, shared
    {
      && IsSqrt(sqrt)
      && lineTraj.Valid()
      && shared.cmdAxis == At(cmdLen)
      && (servoSubState in {JumpUping, JumpDowning} ==> jumpUpTargetPos == At(upLen) && jumpFrom == At(fromLen))
      && (servoSubState == JumpUping ==> jumpDir == Scale(lineTraj.unitVector, -1.0))
      && (servoSubState == JumpDowning ==> jumpDir == Scale(lineTraj.unitVector, 1.0))
    }

    ghost predicate Valid()
      reads this, lineTraj, shared
    {
      OnLine() && ValidLine(LineOf()) && Inv(LineOf(), Abs())
    }

    constructor (sqrt: real -> real, traj: LinearSegment, shared: MotionShared, maxJumpHeight: real,
                 backStep: real, now: int, jump: JumpParam)
      requires IsSqrt(sqrt) && traj.Valid() && traj.currLength == 0.0
      requires shared.cmdAxis == traj.startPos
      requires maxJumpHeight >= 0.0
      ensures Valid() && Abs() == Init(now, jump) && lineTraj == traj && this.shared == shared
      ensures LineOf() == Line(traj.totalLength, maxJumpHeight, if backStep < 0.01 then 0.01 else backStep)
    {
      AlongZero(traj.startPos, traj.unitVector);
      this.sqrt, lineTraj, this.shared := sqrt, traj, shared;
      maxJumpHeightFromBegin := maxJumpHeight;
      pauseReturnBackStep := if backStep < 0.01 then 0.01 else backStep;
      state, servoSubState, pauseOrStopSubState := NormalRunning, Servoing, WaitingForJumpEnd;
      jumpingParam, lastJumpEndTimeMs, servoingLengthBeforeJump := jump, now, 0.0;
      jumpMover, pauseReturnBackGone := PM.Mover(PM.NotStarted, 0.0, 0.0, 0.0, 0), 0.0;
      jumpUpTargetPos, jumpFrom, jumpDir := traj.startPos, traj.startPos, traj.unitVector;
      gate, machOn := true, true;
      cmdLen, upLen, fromLen := 0.0, 0.0, 0.0;
    }

    // ----- commands

    method PauseTask() returns (ok: bool)
      requires Valid()
      modifies this
      ensures Valid() && (Abs(), ok) == Pause(old(Abs()))
    {
      match state {
        case NormalRunning =>
          state := Pausing;
          pauseOrStopSubState := WaitingForJumpEnd;
          ok := true;
        case Pausing => ok := true;
        case Paused => ok := true;
        case _ => ok := false;
      }
    }

    method ResumeTask() returns (ok: bool)
      requires Valid()
      modifies this
      ensures Valid() && (Abs(), ok) == Resume(old(Abs()))
    {
      if state == Paused {
        state := Resuming;
        ok := true;
      } else {
        ok := state == Resuming;
      }
    }

    method StopTask() returns (ok: bool)
      requires Valid()
      modifies this
      ensures Valid() && (Abs(), ok) == Stop(old(Abs()))
    {
      match state {
        case Pausing => state := Stopping;
        case Paused => state := Stopped;
        case Resuming => state := Stopped;
        case NormalRunning =>
          state := Stopping;
          pauseOrStopSubState := WaitingForJumpEnd;
        case _ =>
      }
      ok := true;
    }

    // ----- one cycle

    method RunOnce(inp: Input)
      requires Valid() && inp.jump.buffer >= 0.0
      modifies this, lineTraj, shared
      ensures Valid() && Abs() == Tick(LineOf(), old(Abs()), inp)
      ensures shared.cmdAxis == At(Tick(LineOf(), old(Abs()), inp).cmd)
    {
      TickInv(LineOf(), Abs(), inp);
      match state {
        case NormalRunning => StateNormalRunning(inp);
        case Pausing => StatePausingOrStopping(inp);
        case Stopping => StatePausingOrStopping(inp);
        case Resuming =>
          lastJumpEndTimeMs := inp.now;
          gate, machOn := true, true;
          state := NormalRunning;
        case Paused =>
        case Stopped =>
      }
    }

    method StateNormalRunning(inp: Input)
      requires Valid() && inp.jump.buffer >= 0.0 && state == NormalRunning
      modifies this, lineTraj, shared
      ensures OnLine() && Abs() == Tick(LineOf(), old(Abs()), inp)
    {
      if servoSubState == Servoing {
        var jumped := ServoingCheckAndPlanJump(inp);
        if !jumped {
          var canEnd := ServoingDoServothings(inp.servoCmd);
          if canEnd { state := Stopping; }
        }
      } else {
        RunJump(inp);
      }
    }

    method RunJump(inp: Input)
      requires Valid() && servoSubState != Servoing
      requires state in {NormalRunning, Pausing, Stopping}
      modifies this, lineTraj, shared
      ensures OnLine() && Abs() == JumpOnce(LineOf(), old(Abs()), inp)
    {
      if servoSubState == JumpUping {
        JumpUpingOnce(inp);
      } else if servoSubState == JumpDowning {
        JumpDowningOnce(inp);
      } else {
        JumpDowningBufferOnce(inp);
      }
    }

    method ServoingCheckAndPlanJump(inp: Input) returns (jumped: bool)
      requires OnLine() && servoSubState == Servoing
      modifies this
      ensures OnLine() && (Abs(), jumped) == TryJump(LineOf(), old(Abs()), inp)
    {
      jumpingParam := inp.jump;
      jumped := false;
      if inp.now - lastJumpEndTimeMs > jumpingParam.dn {
        lastJumpEndTimeMs := inp.now;
        if jumpingParam.up >= MIN_JUMP && !inp.skipJump {
          jumped := PlanJumpUp(inp);
          if jumped {
            servoSubState := JumpUping;
            gate := false;
          }
        }
      }
    }

    /** The plan of a jump: the turning point lies `up` behind the present point, and the point
        move to it points exactly against the machining direction. */
    method PlanJumpUp(inp: Input) returns (ok: bool)
      requires OnLine() && servoSubState == Servoing
      modifies this`jumpingParam, this`servoingLengthBeforeJump, this`jumpUpTargetPos, this`upLen,
               this`jumpFrom, this`jumpDir, this`jumpMover, this`fromLen
      ensures servoingLengthBeforeJump == lineTraj.currLength
      ensures (jumpingParam, ok) == Validated(LineOf(), lineTraj.currLength, old(jumpingParam))
      ensures !ok ==> upLen == old(upLen) && fromLen == old(fromLen) && jumpMover == old(jumpMover)
      ensures ok ==>
        && upLen == lineTraj.currLength - jumpingParam.up && fromLen == lineTraj.currLength
        && jumpUpTargetPos == At(upLen) && jumpFrom == At(fromLen)
        && jumpMover == PM.Start(jumpingParam.up, inp.plan)
        && jumpDir == Scale(lineTraj.unitVector, -1.0)
    {
      servoingLengthBeforeJump := lineTraj.currLength;
      ok := CheckAndValidateJumpHeight();
      if ok {
        var up := jumpingParam.up;
        jumpUpTargetPos := StartPointMove(lineTraj.currLength, lineTraj.currPos, up, false, inp.plan);
        upLen := lineTraj.currLength - up;
      }
    }

    method CheckAndValidateJumpHeight() returns (ok: bool)
      modifies this`jumpingParam
      ensures (jumpingParam, ok) == Validated(LineOf(), lineTraj.currLength, old(jumpingParam))
    {
      var maxJumpHeight := lineTraj.currLength + maxJumpHeightFromBegin;
      if jumpingParam.up > maxJumpHeight - LIMIT_GAP {
        jumpingParam := jumpingParam.(up := maxJumpHeight - LIMIT_GAP);
      }
      if jumpingParam.up < MIN_JUMP {
        return false;
      }
      if jumpingParam.buffer > lineTraj.currLength {
        jumpingParam := jumpingParam.(buffer := lineTraj.currLength);
      }
      ok := !(jumpingParam.buffer > jumpingParam.up - MIN_JUMP);
    }

    /** `jump_pm_handler_.start` towards a point of the line. */
    method StartPointMove(ghost len: real, from: Axis, t: real, forward: bool, plan: PM.Plan) returns (target: Axis)
      requires IsSqrt(sqrt) && IsUnit(lineTraj.unitVector) && t > 0.0 && from == At(len)
      modifies this`jumpFrom, this`jumpDir, this`jumpMover, this`fromLen
      ensures jumpFrom == At(fromLen) && fromLen == len && jumpMover == PM.Start(t, plan)
      ensures jumpDir == Scale(lineTraj.unitVector, if forward then 1.0 else -1.0)
      ensures target == At(if forward then len + t else len - t)
    {
      var dir, dist;
      target, dir, dist := PlanAlong(sqrt, lineTraj.startPos, lineTraj.unitVector, len, from, t, forward);
      jumpFrom, jumpDir, jumpMover := from, dir, PM.Start(dist, plan);
      fromLen := len;
    }

    method ServoingDoServothings(servoCmd: real) returns (canEnd: bool)
      requires OnLine() && servoSubState == Servoing
      modifies this`cmdLen, lineTraj, shared
      ensures OnLine()
      ensures lineTraj.currLength == cmdLen
        == if servoCmd == 0.0 then old(lineTraj.currLength)
           else ClampLength(lineTraj.totalLength, old(lineTraj.currLength) + servoCmd)
      ensures Abs() == old(Abs()).(len := cmdLen, cmd := cmdLen)
      ensures canEnd <==> servoCmd > 0.0 && cmdLen >= lineTraj.totalLength
    {
      canEnd := false;
      if servoCmd > 0.0 {
        lineTraj.RunOnce(servoCmd);
        canEnd := lineTraj.AtEnd();
      } else if servoCmd < 0.0 {
        lineTraj.RunOnce(servoCmd);
      }
      shared.cmdAxis := lineTraj.currPos;
      cmdLen := lineTraj.currLength;
    }

    /** The position of the jump's point move becomes the commanded one. */
    method CommandJumpPosition(ghost forward: bool)
      requires jumpFrom == At(fromLen)
      requires jumpDir == Scale(lineTraj.unitVector, if forward then 1.0 else -1.0)
      modifies this`cmdLen, shared
      ensures cmdLen == if forward then fromLen + jumpMover.gone else fromLen - jumpMover.gone
      ensures shared.cmdAxis == At(cmdLen)
    {
      shared.cmdAxis := Along(jumpFrom, jumpDir, jumpMover.gone);
      if forward {
        assert jumpDir == lineTraj.unitVector;
        AlongForward(lineTraj.startPos, lineTraj.unitVector, fromLen, jumpMover.gone);
        cmdLen := fromLen + jumpMover.gone;
      } else {
        AlongReversed(lineTraj.startPos, lineTraj.unitVector, fromLen, jumpMover.gone);
        cmdLen := fromLen - jumpMover.gone;
      }
    }

    method JumpUpingOnce(inp: Input)
      requires Valid() && servoSubState == JumpUping && state in {NormalRunning, Pausing, Stopping}
      modifies this, shared
      ensures OnLine() && Abs() == UpOnce(LineOf(), old(Abs()), inp)
    {
      jumpMover := PM.Run(jumpMover, inp.reach);
      CommandJumpPosition(false);
      if PM.Over(jumpMover) {
        StartDown(inp.plan);
      }
    }

    /** The way down: back along the machining direction, to `buffer` before the pre-jump point. */
    method StartDown(plan: PM.Plan)
      requires OnLine() && servoSubState == JumpUping
      requires jumpingParam.up - jumpingParam.buffer > 0.0
      modifies this
      ensures OnLine()
      ensures Abs() == old(Abs()).(
        from := upLen, mover := PM.Start(old(jumpingParam.up - jumpingParam.buffer), plan),
        servo := JumpDowning, gate := true)
    {
      var downLength := jumpingParam.up - jumpingParam.buffer;
      var target := StartPointMove(upLen, jumpUpTargetPos, downLength, true, plan);
      servoSubState := JumpDowning;
      gate := true;
    }

    method JumpDowningOnce(inp: Input)
      requires Valid() && servoSubState == JumpDowning && state in {NormalRunning, Pausing, Stopping}
      modifies this, lineTraj, shared
      ensures OnLine() && Abs() == DownOnce(LineOf(), old(Abs()), inp)
    {
      jumpMover := PM.Run(jumpMover, inp.reach);
      CommandJumpPosition(true);
      if PM.Over(jumpMover) {
        lineTraj.SetCurrLength(servoingLengthBeforeJump - jumpingParam.buffer);
        servoSubState := JumpDowningBuffer;
      }
    }

    method JumpDowningBufferOnce(inp: Input)
      requires Valid() && servoSubState == JumpDowningBuffer && state in {NormalRunning, Pausing, Stopping}
      modifies this, lineTraj, shared
      ensures OnLine() && Abs() == BufferOnce(LineOf(), old(Abs()), inp)
    {
      var bufferOver, bufferInterrupted := false, false;
      var servoCmd := inp.servoCmd;
      var rest := servoingLengthBeforeJump - lineTraj.currLength;
      if servoCmd > 0.0 {
        if servoCmd >= rest || rest <= 0.0 {
          servoCmd := rest;
          bufferOver := true;
        }
        lineTraj.RunOnce(servoCmd);
        shared.cmdAxis := lineTraj.currPos;
        cmdLen := lineTraj.currLength;
      } else {
        bufferInterrupted := true;
      }
      if bufferOver || bufferInterrupted {
        lastJumpEndTimeMs := inp.now;
        servoSubState := Servoing;
      }
    }

    method StatePausingOrStopping(inp: Input)
      requires Valid() && state in {Pausing, Stopping}
      modifies this, lineTraj, shared
      ensures OnLine() && Abs() == HaltOnce(LineOf(), old(Abs()), inp)
    {
      if pauseOrStopSubState == WaitingForJumpEnd {
        if servoSubState == Servoing {
          if state == Pausing { pauseReturnBackGone := 0.0; }
          pauseOrStopSubState := BackingToBegin;
          machOn := false;
        } else {
          RunJump(inp);
        }
      } else {
        assert servoSubState == Servoing;
        if state == Stopping {
          state := Stopped;
        } else {
          var returnEnded := false;
          var dec := pauseReturnBackStep;
          if pauseReturnBackGone + dec > RETREAT {
            dec := RETREAT - pauseReturnBackGone;
            pauseReturnBackGone := RETREAT;
            returnEnded := true;
          } else {
            pauseReturnBackGone := pauseReturnBackGone + dec;
          }
          lineTraj.RunOnce(-dec);
          shared.cmdAxis := lineTraj.currPos;
          cmdLen := lineTraj.currLength;
          if lineTraj.AtStart() { returnEnded := true; }
          if returnEnded { state := Paused; }
        }
      }
    }
  }
}
