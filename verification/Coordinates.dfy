/** Coordinate frames: motor, machine and work coordinates, their offsets, and the cached positions
    of `CoordinateSystem`. */
module Coordinates {
  import opened Common
  import opened Axes
  import opened SoftLimit

  datatype Coord = Coord(index: nat, offset: Axis)

  /** The state of `CoordinateManager`. */
  datatype Manager = Manager(global: Axis, coords: map<nat, Coord>, limits: Limits)

  ghost predicate Ordered(l: Limits) { forall i | 0 <= i < AXIS_NUM :: l.pos[i] >= l.neg[i] }

  function WithOffset(m: Manager, index: nat, offset: Axis): Manager
    requires index in m.coords
  {
    m.(coords := m.coords[index := m.coords[index].(offset := offset)])
  }

  // ----- frame conversions

  function MotorToMachine(m: Manager, motor: Axis): Axis { Sub(motor, m.global) }

  function MachineToMotor(m: Manager, machine: Axis): Axis { Plus(machine, m.global) }

  function MachineToCoord(m: Manager, index: nat, machine: Axis): Option<Axis> {
    if index in m.coords then Some(Sub(machine, m.coords[index].offset)) else None
  }

  function CoordToMachine(m: Manager, index: nat, coord: Axis): Option<Axis> {
    if index in m.coords then Some(Plus(coord, m.coords[index].offset)) else None
  }

  function MotorToCoord(m: Manager, index: nat, motor: Axis): Option<Axis> {
    if index in m.coords then Some(Sub(Sub(motor, m.global), m.coords[index].offset)) else None
  }

  function CoordToMotor(m: Manager, index: nat, coord: Axis): Option<Axis> {
    if index in m.coords then Some(Plus(Plus(coord, m.coords[index].offset), m.global)) else None
  }

  /** The conversions are mutually inverse, and going through the machine frame is the same as going
      directly; they fail on exactly the same indices. */
  lemma FramesAgree(m: Manager, index: nat, p: Axis)
    ensures MachineToMotor(m, MotorToMachine(m, p)) == p && MotorToMachine(m, MachineToMotor(m, p)) == p
    ensures MotorToCoord(m, index, p) == MachineToCoord(m, index, MotorToMachine(m, p))
    ensures index in m.coords ==>
      && CoordToMachine(m, index, MachineToCoord(m, index, p).value) == Some(p)
      && MachineToCoord(m, index, CoordToMachine(m, index, p).value) == Some(p)
      && CoordToMotor(m, index, MotorToCoord(m, index, p).value) == Some(p)
      && MotorToCoord(m, index, CoordToMotor(m, index, p).value) == Some(p)
      && CoordToMotor(m, index, p) == Some(MachineToMotor(m, CoordToMachine(m, index, p).value))
    ensures index !in m.coords ==>
      && MachineToCoord(m, index, p) == CoordToMachine(m, index, p) == None
      && MotorToCoord(m, index, p) == CoordToMotor(m, index, p) == None
  {
    var g := m.global;
    assert Plus(Sub(p, g), g) == p && Sub(Plus(p, g), g) == p;
    if index in m.coords {
      var o := m.coords[index].offset;
      assert Plus(Sub(p, o), o) == p && Sub(Plus(p, o), o) == p;
      assert Plus(Plus(Sub(Sub(p, g), o), o), g) == p;
      assert Sub(Sub(Plus(Plus(p, o), g), g), o) == p;
    }
  }

  /** The limits a manager is born with bind only the first axis to a range: the initialiser names
      one element, and the others are zero on both sides. */
  function DefaultLimits(): Limits {
    Limits([1000000.0, 0.0, 0.0, 0.0, 0.0, 0.0], [-1000000.0, 0.0, 0.0, 0.0, 0.0, 0.0])
  }

  lemma DefaultLimitsPinAxes(p: Axis)
    ensures Ordered(DefaultLimits())
    ensures Inside(DefaultLimits(), p) <==>
      -1000000.0 <= p[0] <= 1000000.0 && forall i | 1 <= i < AXIS_NUM :: p[i] == 0.0
  {
    var l := DefaultLimits();
    forall i | 0 <= i < AXIS_NUM
      ensures InsideAxis(l, p, i) <==> if i == 0 then -1000000.0 <= p[0] <= 1000000.0 else p[i] == 0.0
    { }
    if Inside(l, p) {
      assert InsideAxis(l, p, 0);
      forall i | 1 <= i < AXIS_NUM ensures p[i] == 0.0 { assert InsideAxis(l, p, i); }
    }
  }

  // ----- the manager as an object

  class CoordinateManager {
    var globalOffset: Axis
    var coordinates: map<nat, Coord>
    var softLimits: Limits

    ghost function Value(): Manager
      reads this
    {
      Manager(globalOffset, coordinates, softLimits)
    }

    /** The limits stay ordered under every setter. */
    ghost predicate Valid()
      reads this
    {
      Ordered(softLimits)
    }

    constructor ()
      ensures Valid() && Value() == Manager([0.0, 0.0, 0.0, 0.0, 0.0, 0.0], map[], DefaultLimits())
    {
      globalOffset, coordinates := [0.0, 0.0, 0.0, 0.0, 0.0, 0.0], map[];
      softLimits := DefaultLimits();
    }

    method SetGlobalOffset(offset: Axis)
      requires Valid()
      modifies this
      ensures Valid() && Value() == old(Value()).(global := offset)
    {
      globalOffset := offset;
    }

    method SetCoordinatesMap(coords: map<nat, Coord>)
      requires Valid()
      modifies this
      ensures Valid() && Value() == old(Value()).(coords := coords)
    {
      coordinates := coords;
    }

    method SetCoordOffset(index: nat, offset: Axis) returns (ok: bool)
      requires Valid()
      modifies this
      ensures Valid() && (ok <==> index in old(coordinates))
      ensures Value() == if ok then WithOffset(old(Value()), index, offset) else old(Value())
    {
      ok := index in coordinates;
      if ok { coordinates := coordinates[index := coordinates[index].(offset := offset)]; }
    }

    method SetSoftLimits(limits: Limits) returns (ok: bool)
      requires Valid()
      modifies this
      ensures Valid() && (ok <==> Ordered(limits))
      ensures Value() == if ok then old(Value()).(limits := limits) else old(Value())
    {
      for i := 0 to AXIS_NUM
        invariant forall j | 0 <= j < i :: limits.pos[j] >= limits.neg[j]
        invariant Value() == old(Value())
      {
        if limits.pos[i] < limits.neg[i] { return false; }
      }
      softLimits := limits;
      ok := true;
    }

    method ToMachine(motor: Axis) returns (output: Axis)
      ensures output == MotorToMachine(Value(), motor)
    {
      output := motor;
      for i := 0 to AXIS_NUM
        invariant forall j | 0 <= j < i :: output[j] == motor[j] - globalOffset[j]
      {
        output := output[i := motor[i] - globalOffset[i]];
      }
    }

    /** An unknown index leaves the output as it was. */
    method ToCoord(index: nat, motor: Axis, before: Axis) returns (output: Axis, ok: bool)
      ensures ok <==> index in coordinates
      ensures if ok then Some(output) == MotorToCoord(Value(), index, motor) else output == before
    {
      output, ok := before, index in coordinates;
      if !ok { return; }
      for i := 0 to AXIS_NUM
        invariant forall j | 0 <= j < i :: output[j] == motor[j] - globalOffset[j] - coordinates[index].offset[j]
      {
        output := output[i := motor[i] - globalOffset[i] - coordinates[index].offset[i]];
      }
      assert output == MotorToCoord(Value(), index, motor).value;
    }
  }

  // ----- the coordinate system with its caches

  class CoordinateSystem {
    const cm: CoordinateManager
    var motorAxis: Axis
    var motorAxisAct: Axis
    var currCoordIndex: nat
    var machineCache: Axis
    var machineCacheAct: Axis
    var coordCache: Axis
    var coordCacheAct: Axis
    ghost var seenOffset: Axis    // global plus work offset at the last refresh of the work cache

    /** The machine cache always equals motor minus global offset.  The work cache is what the
        offsets at its last refresh give for the present motor position. */
    ghost predicate Valid()
      reads this, cm
    {
      && cm.Valid()
      && currCoordIndex in cm.coordinates
      && machineCache == MotorToMachine(cm.Value(), motorAxis)
      && machineCacheAct == MotorToMachine(cm.Value(), motorAxisAct)
      && coordCache == Sub(motorAxis, seenOffset)
      && coordCacheAct == Sub(motorAxisAct, seenOffset)
    }

    /** Global plus work offset now. */
    ghost function Offset(): Axis
      requires currCoordIndex in cm.coordinates
      reads this, cm
    {
      Plus(cm.globalOffset, cm.coordinates[currCoordIndex].offset)
    }

    constructor (cm: CoordinateManager, index: nat)
      requires cm.Valid() && index in cm.coordinates
      ensures Valid() && this.cm == cm && currCoordIndex == index && seenOffset == Offset()
    {
      this.cm, currCoordIndex := cm, index;
      var zero := [0.0, 0.0, 0.0, 0.0, 0.0, 0.0];
      motorAxis, motorAxisAct := zero, zero;
      machineCache, machineCacheAct := zero, zero;
      coordCache, coordCacheAct := zero, zero;
      new;
      UpdateMachineAxisCache();
      UpdateCoordAxisCache();
    }

    method UpdateMachineAxisCache()
      modifies this`machineCache, this`machineCacheAct
      ensures machineCache == MotorToMachine(cm.Value(), motorAxis)
      ensures machineCacheAct == MotorToMachine(cm.Value(), motorAxisAct)
    {
      machineCache := cm.ToMachine(motorAxis);
      machineCacheAct := cm.ToMachine(motorAxisAct);
    }

    method UpdateCoordAxisCache()
      requires currCoordIndex in cm.coordinates
      modifies this`coordCache, this`coordCacheAct, this`seenOffset
      ensures seenOffset == Offset()
      ensures coordCache == Sub(motorAxis, seenOffset) && coordCacheAct == Sub(motorAxisAct, seenOffset)
    {
      var ok;
      coordCache, ok := cm.ToCoord(currCoordIndex, motorAxis, coordCache);
      coordCacheAct, ok := cm.ToCoord(currCoordIndex, motorAxisAct, coordCacheAct);
      seenOffset := Offset();
      assert coordCache == Sub(motorAxis, seenOffset);
      assert coordCacheAct == Sub(motorAxisAct, seenOffset);
    }

    /** A new motor position refreshes everything. */
    method UpdateMotorPos(motor: Axis, motorAct: Axis)
      requires Valid()
      modifies this
      ensures Valid() && motorAxis == motor && motorAxisAct == motorAct
      ensures seenOffset == Offset() && currCoordIndex == old(currCoordIndex)
    {
      motorAxis, motorAxisAct := motor, motorAct;
      UpdateMachineAxisCache();
      UpdateCoordAxisCache();
    }

    method SetCoordIndex(index: nat) returns (ok: bool)
      requires Valid()
      modifies this
      ensures Valid() && (ok <==> index in cm.coordinates)
      ensures motorAxis == old(motorAxis) && motorAxisAct == old(motorAxisAct)
      ensures ok ==> currCoordIndex == index && seenOffset == Offset()
      ensures !ok ==> currCoordIndex == old(currCoordIndex) && seenOffset == old(seenOffset)
    {
      ok := index in cm.coordinates;
      if ok {
        currCoordIndex := index;
        UpdateCoordAxisCache();
      }
    }

    /** Changing a work offset refreshes no cache. */
    method SetCoordOffset(index: nat, offset: Axis) returns (ok: bool)
      requires Valid()
      modifies cm
      ensures Valid() && (ok <==> index in old(cm.coordinates))
      ensures cm.Value() == if ok then WithOffset(old(cm.Value()), index, offset) else old(cm.Value())
    {
      ok := cm.SetCoordOffset(index, offset);
    }

    /** Changing the global offset refreshes the machine cache and not the work cache. */
    method SetGlobalOffset(offset: Axis)
      requires Valid()
      modifies this`machineCache, this`machineCacheAct, cm
      ensures Valid() && cm.Value() == old(cm.Value()).(global := offset)
    {
      cm.SetGlobalOffset(offset);
      UpdateMachineAxisCache();
    }

    /** The cached answer for the current system, a direct one for the others. */
    method GetCoordAxis(index: nat) returns (output: Axis, ok: bool)
      requires Valid()
      ensures ok <==> index in cm.coordinates
      ensures ok && index != currCoordIndex ==> Some(output) == MotorToCoord(cm.Value(), index, motorAxis)
      ensures index == currCoordIndex ==>
        forall i | 0 <= i < AXIS_NUM ::
          output[i] == MotorToCoord(cm.Value(), index, motorAxis).value[i] + (Offset()[i] - seenOffset[i])
    {
      if index == currCoordIndex {
        return coordCache, true;
      }
      output, ok := cm.ToCoord(index, motorAxis, motorAxis);
    }
  }

  /** So the cached work coordinate is right exactly when the offsets are those of the last refresh. */
  lemma WorkCacheRight(cs: CoordinateSystem)
    requires cs.Valid()
    ensures MotorToCoord(cs.cm.Value(), cs.currCoordIndex, cs.motorAxis) == Some(cs.coordCache)
      <==> cs.seenOffset == cs.Offset()
  {
    var direct := MotorToCoord(cs.cm.Value(), cs.currCoordIndex, cs.motorAxis).value;
    assert direct == Sub(cs.motorAxis, cs.Offset());
    if direct == cs.coordCache {
      forall i | 0 <= i < AXIS_NUM ensures cs.seenOffset[i] == cs.Offset()[i] {
        assert direct[i] == cs.coordCache[i];
      }
    }
  }

  /** A stale cache: change the offset of the current system, and nothing else. */
  method StaleWorkCache() returns (cs: CoordinateSystem)
    ensures cs.Valid() && MotorToCoord(cs.cm.Value(), cs.currCoordIndex, cs.motorAxis) != Some(cs.coordCache)
  {
    var zero := [0.0, 0.0, 0.0, 0.0, 0.0, 0.0];
    var cm := new CoordinateManager();
    cm.SetCoordinatesMap(map[54 := Coord(54, zero)]);
    cs := new CoordinateSystem(cm, 54);
    var ok := cs.SetCoordOffset(54, zero[0 := 1.0]);
    assert cs.seenOffset[0] == 0.0 && cs.Offset()[0] == 1.0;
    WorkCacheRight(cs);
  }

  // ----- setting a work coordinate to zero

  /** The G-code command stores the motor position as work offset.  Once refreshed, the work
      coordinate of a zeroed axis is minus the global offset; the other axes keep theirs. */
  method GCodeSetZero(cs: CoordinateSystem, cmdAxis: Axis, axes: seq<bool>) returns (ok: bool)
    requires cs.Valid() && |axes| == AXIS_NUM
    modifies cs.cm
    ensures ok && cs.Valid()
    ensures var work := MotorToCoord(cs.cm.Value(), cs.currCoordIndex, cmdAxis).value;
      var before := MotorToCoord(old(cs.cm.Value()), cs.currCoordIndex, cmdAxis).value;
      forall i | 0 <= i < AXIS_NUM :: work[i] == if axes[i] then -cs.cm.globalOffset[i] else before[i]
  {
    var offset := cs.cm.coordinates[cs.currCoordIndex].offset;
    ghost var original := offset;
    for i := 0 to AXIS_NUM
      invariant forall j | 0 <= j < i :: offset[j] == if axes[j] then cmdAxis[j] else original[j]
      invariant forall j | i <= j < AXIS_NUM :: offset[j] == original[j]
      invariant cs.Valid() && cs.cm.Value() == old(cs.cm.Value())
    {
      if axes[i] { offset := offset[i := cmdAxis[i]]; }
    }
    ok := cs.SetCoordOffset(cs.currCoordIndex, offset);
  }

  /** The panel stores the machine position: the zeroed axis reads zero, the others are unchanged. */
  method PanelSetZero(cs: CoordinateSystem, index: nat, axis: Index) returns (ok: bool)
    requires cs.Valid()
    modifies cs.cm
    ensures cs.Valid() && (ok <==> index in old(cs.cm.coordinates))
    ensures ok ==>
      index in cs.cm.coordinates &&
      var work := MotorToCoord(cs.cm.Value(), index, cs.motorAxis).value;
      var before := MotorToCoord(old(cs.cm.Value()), index, cs.motorAxis).value;
      work == before[axis := 0.0]
  {
    ok := index in cs.cm.coordinates;
    if ok {
      var offset := cs.cm.coordinates[index].offset[axis := cs.machineCache[axis]];
      ok := cs.SetCoordOffset(index, offset);
    }
  }

  /** The two agree on an axis exactly when its global offset is zero. */
  lemma ZeroingAgrees(m: Manager, index: nat, motor: Axis, i: Index)
    requires index in m.coords
    ensures var o := m.coords[index].offset;
      var gcode := WithOffset(m, index, o[i := motor[i]]);
      var panel := WithOffset(m, index, o[i := MotorToMachine(m, motor)[i]]);
      MotorToCoord(gcode, index, motor).value[i] == MotorToCoord(panel, index, motor).value[i] <==> m.global[i] == 0.0
  { }
}
