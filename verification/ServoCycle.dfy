/** Enabling and disabling the drives: the cyclic host code against the power drive state machine of
    CiA DSP 402 version 2.0, chapter 10 (device control). */
module ServoCycle {

  // ----- codes

  const CW_SHUTDOWN: bv16 := 0x06
  const CW_SWITCH_ON: bv16 := 0x07
  const CW_ENABLE_OPERATION: bv16 := 0x0F
  const CW_DISABLE_VOLTAGE: bv16 := 0x00
  const CW_DISABLE_OPERATION: bv16 := 0x07
  const CW_FAULT_RESET: bv16 := 0x80
  const OM_CSP := 8

  predicate SwFault(sw: bv16) { sw & 0x4F == 0x08 }
  predicate SwSwitchOnDisabled(sw: bv16) { sw & 0x4F == 0x40 }
  predicate SwReadyToSwitchOn(sw: bv16) { sw & 0x6F == 0x21 }
  predicate SwSwitchedOn(sw: bv16) { sw & 0x6F == 0x23 }
  predicate SwOperationEnabled(sw: bv16) { sw & 0x6F == 0x27 }

  // ----- the host

  /** The process data of one drive, as the host sees it. */
  datatype Pd = Pd(status: bv16, actual: int, control: bv16, target: int, mode: int)

  function EnableCycle(p: Pd): Pd {
    var q := p.(mode := OM_CSP);
    if SwFault(p.status) then q.(control := CW_FAULT_RESET)
    else if SwSwitchOnDisabled(p.status) then q.(control := CW_SHUTDOWN)
    else if SwReadyToSwitchOn(p.status) then q.(control := CW_SWITCH_ON)
    else if SwSwitchedOn(p.status) || SwOperationEnabled(p.status) then
      q.(control := CW_ENABLE_OPERATION, target := p.actual)
    else q
  }

  function DisableCycle(p: Pd): Pd {
    var q := p.(mode := OM_CSP);
    if SwFault(p.status) then q.(control := CW_FAULT_RESET)
    else if SwSwitchOnDisabled(p.status) then q
    else if SwReadyToSwitchOn(p.status) then q.(control := CW_DISABLE_VOLTAGE)
    else if SwSwitchedOn(p.status) then q.(control := CW_SHUTDOWN)
    else if SwOperationEnabled(p.status) then q.(control := CW_DISABLE_OPERATION)
    else q
  }

  class ServoDevice {
    var statusWord: bv16
    var actualPosition: int
    var controlWord: bv16
    var targetPosition: int
    var operationMode: int

    ghost function Data(): Pd
      reads this
    {
      Pd(statusWord, actualPosition, controlWord, targetPosition, operationMode)
    }

    method SyncActualPositionToTargetPosition()
      modifies this`targetPosition
      ensures targetPosition == actualPosition
    {
      targetPosition := actualPosition;
    }
  }

  ghost predicate Distinct(devs: seq<ServoDevice>) { forall i, j | 0 <= i < j < |devs| :: devs[i] != devs[j] }

  method ClearFaultCycleRunOnce(devs: seq<ServoDevice>)
    requires Distinct(devs)
    modifies set d | d in devs
    ensures forall i | 0 <= i < |devs| :: devs[i].Data() == EnableCycle(old(devs[i].Data()))
  {
    for i := 0 to |devs|
      invariant forall j | 0 <= j < i :: devs[j].Data() == EnableCycle(old(devs[j].Data()))
      invariant forall j | i <= j < |devs| :: devs[j].Data() == old(devs[j].Data())
    {
      EnableOne(devs[i]);
    }
  }

  method EnableOne(servo: ServoDevice)
    modifies servo
    ensures servo.Data() == EnableCycle(old(servo.Data()))
  {
    servo.operationMode := OM_CSP;
    var sw := servo.statusWord;
    if SwFault(sw) {
      servo.controlWord := CW_FAULT_RESET;
    } else if SwSwitchOnDisabled(sw) {
      servo.controlWord := CW_SHUTDOWN;
    } else if SwReadyToSwitchOn(sw) {
      servo.controlWord := CW_SWITCH_ON;
    } else if SwSwitchedOn(sw) || SwOperationEnabled(sw) {
      servo.controlWord := CW_ENABLE_OPERATION;
      servo.SyncActualPositionToTargetPosition();
    }
  }

  method DisableCycleRunOnce(devs: seq<ServoDevice>)
    requires Distinct(devs)
    modifies set d | d in devs
    ensures forall i | 0 <= i < |devs| :: devs[i].Data() == DisableCycle(old(devs[i].Data()))
  {
    for i := 0 to |devs|
      invariant forall j | 0 <= j < i :: devs[j].Data() == DisableCycle(old(devs[j].Data()))
      invariant forall j | i <= j < |devs| :: devs[j].Data() == old(devs[j].Data())
    {
      DisableOne(devs[i]);
    }
  }

  method DisableOne(servo: ServoDevice)
    modifies servo
    ensures servo.Data() == DisableCycle(old(servo.Data()))
  {
    servo.operationMode := OM_CSP;
    var sw := servo.statusWord;
    if SwFault(sw) {
      servo.controlWord := CW_FAULT_RESET;
    } else if SwSwitchOnDisabled(sw) {
    } else if SwReadyToSwitchOn(sw) {
      servo.controlWord := CW_DISABLE_VOLTAGE;
    } else if SwSwitchedOn(sw) {
      servo.controlWord := CW_SHUTDOWN;
    } else if SwOperationEnabled(sw) {
      servo.controlWord := CW_DISABLE_OPERATION;
    }
  }

  method ServoHasFault(devs: seq<ServoDevice>) returns (b: bool)
    ensures b <==> exists i | 0 <= i < |devs| :: SwFault(devs[i].statusWord)
  {
    for i := 0 to |devs|
      invariant forall j | 0 <= j < i :: !SwFault(devs[j].statusWord)
    {
      if SwFault(devs[i].statusWord) { return true; }
    }
    b := false;
  }

  method ServoAllOperationEnabled(devs: seq<ServoDevice>) returns (b: bool)
    ensures b <==> forall i | 0 <= i < |devs| :: SwOperationEnabled(devs[i].statusWord)
  {
    for i := 0 to |devs|
      invariant forall j | 0 <= j < i :: SwOperationEnabled(devs[j].statusWord)
    {
      if !SwOperationEnabled(devs[i].statusWord) { return false; }
    }
    b := true;
  }

  method ServoAllDisabled(devs: seq<ServoDevice>) returns (b: bool)
    ensures b <==> forall i | 0 <= i < |devs| :: SwSwitchOnDisabled(devs[i].statusWord)
  {
    for i := 0 to |devs|
      invariant forall j | 0 <= j < i :: SwSwitchOnDisabled(devs[j].statusWord)
    {
      if !SwSwitchOnDisabled(devs[i].statusWord) { return false; }
    }
    b := true;
  }

  // ----- the drive

  datatype DriveState =
    | NotReady | SwitchOnDisabled | ReadyToSwitchOn | SwitchedOn | OperationEnabled
    | QuickStopActive | FaultReaction | Fault

  /** The bits of the status word that code the state; the others are free. */
  predicate Codes(s: DriveState, sw: bv16) {
    match s
    case NotReady => sw & 0x4F == 0x00
    case SwitchOnDisabled => sw & 0x4F == 0x40
    case ReadyToSwitchOn => sw & 0x6F == 0x21
    case SwitchedOn => sw & 0x6F == 0x23
    case OperationEnabled => sw & 0x6F == 0x27
    case QuickStopActive => sw & 0x6F == 0x07
    case FaultReaction => sw & 0x4F == 0x0F
    case Fault => sw & 0x4F == 0x08
  }

  /** The status word of a state, with arbitrary free bits. */
  function StatusOf(s: DriveState, free: bv16): bv16 {
    match s
    case NotReady => free & 0xFFB0
    case SwitchOnDisabled => (free & 0xFFB0) | 0x40
    case ReadyToSwitchOn => (free & 0xFF90) | 0x21
    case SwitchedOn => (free & 0xFF90) | 0x23
    case OperationEnabled => (free & 0xFF90) | 0x27
    case QuickStopActive => (free & 0xFF90) | 0x07
    case FaultReaction => (free & 0xFFB0) | 0x0F
    case Fault => (free & 0xFFB0) | 0x08
  }

  lemma StatusCodes(s: DriveState, free: bv16)
    ensures Codes(s, StatusOf(s, free))
  {
    assert (free & 0xFFB0) & 0x4F == 0;
    assert (free & 0xFF90) & 0x6F == 0;
  }

  /** The five masked comparisons recognise exactly the five states, whatever the free bits are. */
  lemma StatusDecodes(s: DriveState, sw: bv16)
    requires Codes(s, sw)
    ensures SwFault(sw) <==> s == Fault
    ensures SwSwitchOnDisabled(sw) <==> s == SwitchOnDisabled
    ensures SwReadyToSwitchOn(sw) <==> s == ReadyToSwitchOn
    ensures SwSwitchedOn(sw) <==> s == SwitchedOn
    ensures SwOperationEnabled(sw) <==> s == OperationEnabled
  {
    assert (sw & 0x6F) & 0x4F == sw & 0x4F;
  }

  datatype Command = Shutdown | SwitchOn | EnableOperation | DisableVoltage | QuickStop

  /** Bits 3..0 of the control word: enable operation, quick stop (active low), enable voltage,
      switch on. */
  function Decode(cw: bv16): Command {
    if cw & 0x02 == 0 then DisableVoltage
    else if cw & 0x04 == 0 then QuickStop
    else if cw & 0x01 == 0 then Shutdown
    else if cw & 0x08 == 0 then SwitchOn
    else EnableOperation
  }

  predicate ResetBit(cw: bv16) { cw & 0x80 != 0 }

  /** What the outside does in one exchange: the drive carries transitions out or takes longer (it has
      received the word all the same), the
      cause of a fault is gone or not, a new fault occurs; free status bits and position. */
  datatype Env = Env(prompt: bool, causeGone: bool, fails: bool, free: bv16, actual: int)

  /** A drive: its state, and the control word it received last. */
  datatype Drive = Drive(state: DriveState, last: bv16)

  function React(d: Drive, cw: bv16, env: Env): DriveState {
    if env.fails && d.state !in {FaultReaction, Fault} then FaultReaction
    else if !env.prompt then d.state
    else match d.state
      case NotReady => SwitchOnDisabled
      case FaultReaction => Fault
      case Fault => if ResetBit(cw) && !ResetBit(d.last) && env.causeGone then SwitchOnDisabled else Fault
      case SwitchOnDisabled => if Decode(cw) == Shutdown then ReadyToSwitchOn else SwitchOnDisabled
      case ReadyToSwitchOn =>
        (match Decode(cw)
         case SwitchOn => SwitchedOn
         case EnableOperation => SwitchedOn
         case Shutdown => ReadyToSwitchOn
         case _ => SwitchOnDisabled)
      case SwitchedOn =>
        (match Decode(cw)
         case EnableOperation => OperationEnabled
         case Shutdown => ReadyToSwitchOn
         case SwitchOn => SwitchedOn
         case _ => SwitchOnDisabled)
      case OperationEnabled =>
        (match Decode(cw)
         case EnableOperation => OperationEnabled
         case SwitchOn => SwitchedOn
         case Shutdown => ReadyToSwitchOn
         case DisableVoltage => SwitchOnDisabled
         case QuickStop => QuickStopActive)
      case QuickStopActive =>
        (match Decode(cw)
         case EnableOperation => OperationEnabled
         case DisableVoltage => SwitchOnDisabled
         case _ => QuickStopActive)
  }

  /** One exchange: the host reads the status, writes, the drive receives and reacts. */
  function Exchange(d: Drive, p: Pd, enable: bool, env: Env): (Drive, Pd) {
    var q := if enable then EnableCycle(p) else DisableCycle(p);
    var next := React(d, q.control, env);
    (Drive(next, q.control), q.(status := StatusOf(next, env.free), actual := env.actual))
  }

  /** Drive and process data belong together; no quick stop is pending. */
  ghost predicate Coupled(d: Drive, p: Pd) {
    Codes(d.state, p.status) && p.control == d.last && d.state != QuickStopActive && Decode(d.last) != QuickStop
  }

  // ----- what an exchange does

  /** How far a drive is from the state its cycle aims at.  A disabled drive that still has a
      shutdown command pending will leave the state once more, because the disable cycle writes
      nothing there. */
  function Rank(d: Drive, enable: bool): nat {
    match d.state
    case FaultReaction => 5
    case Fault => 4
    case NotReady => 4
    case SwitchOnDisabled => if enable then 3 else if Decode(d.last) == Shutdown then 2 else 0
    case ReadyToSwitchOn => if enable then 2 else 1
    case SwitchedOn => if enable then 1 else 2
    case OperationEnabled => if enable then 0 else 3
    case QuickStopActive => 5
  }

  lemma CodesDecode()
    ensures Decode(CW_SHUTDOWN) == Shutdown && Decode(CW_SWITCH_ON) == SwitchOn
    ensures Decode(CW_ENABLE_OPERATION) == EnableOperation && Decode(CW_DISABLE_VOLTAGE) == DisableVoltage
    ensures Decode(CW_FAULT_RESET) == DisableVoltage && ResetBit(CW_FAULT_RESET)
    ensures !ResetBit(CW_SHUTDOWN) && !ResetBit(CW_SWITCH_ON)
    ensures !ResetBit(CW_ENABLE_OPERATION) && !ResetBit(CW_DISABLE_VOLTAGE)
  { }

  /** Quick stop is never commanded, and a drive becomes enabled only with target equal to actual. */
  lemma ExchangeKeeps(d: Drive, p: Pd, enable: bool, env: Env)
    requires Coupled(d, p)
    ensures var (e, q) := Exchange(d, p, enable, env);
      && Coupled(e, q)
      && (e.state == OperationEnabled && d.state != OperationEnabled ==> enable && q.target == p.actual)
  {
    StatusDecodes(d.state, p.status);
    CodesDecode();
    StatusCodes(Exchange(d, p, enable, env).0.state, env.free);
  }

  /** A faulted drive has the reset bit low, so that the next write is an edge. */
  predicate Clean(d: Drive) { d.state in {Fault, FaultReaction} ==> !ResetBit(d.last) }

  /** An exchange in which the drive answers, causes of faults are gone, and no new one occurs. */
  predicate Calm(env: Env) { env.prompt && env.causeGone && !env.fails }

  /** Every calm exchange brings a clean drive nearer to its aim, and at its aim it stays. */
  lemma ExchangeProgress(d: Drive, p: Pd, enable: bool, env: Env)
    requires Coupled(d, p) && Calm(env) && Clean(d)
    ensures var (e, _) := Exchange(d, p, enable, env);
      && Clean(e)
      && (if Rank(d, enable) == 0 then Rank(e, enable) == 0 else Rank(e, enable) < Rank(d, enable))
  {
    StatusDecodes(d.state, p.status);
    CodesDecode();
  }

  /** A fault whose reset bit is already high is never re-edged: the host keeps writing it. */
  lemma FaultStays(d: Drive, p: Pd, enable: bool, env: Env)
    requires Coupled(d, p) && d.state in {Fault, FaultReaction} && ResetBit(d.last)
    ensures var (e, _) := Exchange(d, p, enable, env); e.state in {Fault, FaultReaction} && ResetBit(e.last)
  {
    StatusDecodes(d.state, p.status);
    CodesDecode();
  }

  /** A fault whose cause is not gone at the edge survives it, and from then on its bit is high. */
  lemma SurvivedEdge(d: Drive, p: Pd, enable: bool, env: Env)
    requires Coupled(d, p) && d.state == Fault && !env.causeGone
    ensures var (e, _) := Exchange(d, p, enable, env); e.state == Fault && ResetBit(e.last)
  {
    StatusDecodes(d.state, p.status);
    CodesDecode();
  }

  // ----- whole sequences, for any number of drives

  /** `n` exchanges; `cycle` tells for each whether the enable or the disable cycle runs. */
  function Exchanges(d: Drive, p: Pd, cycle: nat -> bool, f: nat -> Env, k: nat, n: nat): (Drive, Pd)
    decreases n
  {
    if n == 0 then (d, p)
    else
      var (e, q) := Exchange(d, p, cycle(k), f(k));
      Exchanges(e, q, cycle, f, k + 1, n - 1)
  }

  /** In any sequence of exchanges whatever, of either cycle in any order, a drive that is faulted with
      the reset bit high stays faulted. */
  lemma {:induction false} FaultStaysForever(d: Drive, p: Pd, cycle: nat -> bool, f: nat -> Env, k: nat, n: nat)
    requires Coupled(d, p) && d.state in {Fault, FaultReaction} && ResetBit(d.last)
    ensures Exchanges(d, p, cycle, f, k, n).0.state in {Fault, FaultReaction}
    decreases n
  {
    if n > 0 {
      FaultStays(d, p, cycle(k), f(k));
      ExchangeKeeps(d, p, cycle(k), f(k));
      var (e, q) := Exchange(d, p, cycle(k), f(k));
      FaultStaysForever(e, q, cycle, f, k + 1, n - 1);
    }
  }

  lemma {:induction false} ReachesAim(
    d: Drive, p: Pd, enable: bool, cycle: nat -> bool, f: nat -> Env, k: nat, n: nat)
    requires Coupled(d, p) && Clean(d) && n >= Rank(d, enable)
    requires forall i: nat :: cycle(i) == enable && Calm(f(i))
    ensures Rank(Exchanges(d, p, cycle, f, k, n).0, enable) == 0
    decreases n
  {
    if n > 0 {
      assert cycle(k) == enable && Calm(f(k));
      ExchangeProgress(d, p, enable, f(k));
      ExchangeKeeps(d, p, enable, f(k));
      var (e, q) := Exchange(d, p, enable, f(k));
      ReachesAim(e, q, enable, cycle, f, k + 1, n - 1);
    }
  }

  /** For any number of drives and calm exchanges of one cycle: after five or more exchanges the enable
      cycle has all drives in Operation Enabled, and the disable cycle all in Switch On Disabled, if
      and only if no drive began faulted with its reset bit high. */
  lemma AllDrivesReachAim(
    ds: seq<Drive>, ps: seq<Pd>, enable: bool, cycle: nat -> bool, fs: seq<nat -> Env>, n: nat)
    requires |ds| == |ps| == |fs| && n >= 5 && forall i: nat :: cycle(i) == enable
    requires forall i, k: nat | 0 <= i < |fs| :: Calm(fs[i](k))
    requires forall i | 0 <= i < |ds| :: Coupled(ds[i], ps[i])
    ensures (forall i | 0 <= i < |ds| :: Clean(ds[i])) <==>
      (forall i | 0 <= i < |ds| ::
         Exchanges(ds[i], ps[i], cycle, fs[i], 0, n).0.state == if enable then OperationEnabled else SwitchOnDisabled)
  {
    forall i | 0 <= i < |ds|
      ensures Clean(ds[i]) <==>
        Exchanges(ds[i], ps[i], cycle, fs[i], 0, n).0.state == if enable then OperationEnabled else SwitchOnDisabled
    {
      if Clean(ds[i]) {
        ReachesAim(ds[i], ps[i], enable, cycle, fs[i], 0, n);
      } else {
        FaultStaysForever(ds[i], ps[i], cycle, fs[i], 0, n);
      }
    }
  }
}
