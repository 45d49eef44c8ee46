/** Targets of G00 and G01 nodes and of jog moves, and how the soft limits cut them. */
module MoveTargets {
  import opened Common
  import opened Axes
  import opened SoftLimit
  import C = Coordinates

  /** G90 and G91; a mode that is not `Increment` is handled as absolute. */
  datatype CoordMode = Undefined | Absolute | Increment

  type CmdValues = s: seq<Option<real>> | |s| == AXIS_NUM witness [None, None, None, None, None, None]

  function TargetAxis(mode: CoordMode, cmd: CmdValues, start: Axis, offset: Axis, i: int): real
    requires 0 <= i < AXIS_NUM
  {
    match cmd[i]
    case None => start[i]
    case Some(mm) =>
      if mode == Increment then start[i] + mm * BLU_PER_MM else offset[i] + mm * BLU_PER_MM
  }

  function Requested(mode: CoordMode, cmd: CmdValues, start: Axis, offset: Axis): Axis {
    seq(AXIS_NUM, i requires 0 <= i < AXIS_NUM => TargetAxis(mode, cmd, start, offset, i))
  }

  /** The machine target of a node.  In absolute mode the start is taken to work coordinates,
      overwritten where the node names a value, and taken back; axes without a value stay. */
  method MachineTarget(mode: CoordMode, cmd: CmdValues, start: Axis, offset: Axis) returns (target: Axis)
    ensures target == Requested(mode, cmd, start, offset)
    ensures mode == Increment ==> forall i | 0 <= i < AXIS_NUM ::
      target[i] - start[i] == if cmd[i].Some? then cmd[i].value * BLU_PER_MM else 0.0
    ensures mode != Increment ==> forall i | 0 <= i < AXIS_NUM ::
      target[i] - offset[i] == if cmd[i].Some? then cmd[i].value * BLU_PER_MM else start[i] - offset[i]
  {
    if mode == Increment {
      target := start;
      for i := 0 to AXIS_NUM
        invariant forall j | 0 <= j < i :: target[j] == TargetAxis(mode, cmd, start, offset, j)
        invariant forall j | i <= j < AXIS_NUM :: target[j] == start[j]
      {
        if cmd[i].Some? {
          target := target[i := target[i] + cmd[i].value * BLU_PER_MM];
        }
      }
    } else {
      var coordStart := Sub(start, offset);
      var coordTarget := coordStart;
      for i := 0 to AXIS_NUM
        invariant forall j | 0 <= j < i ::
          coordTarget[j] == match cmd[j] case Some(mm) => mm * BLU_PER_MM case None => coordStart[j]
        invariant forall j | i <= j < AXIS_NUM :: coordTarget[j] == coordStart[j]
      {
        if cmd[i].Some? {
          coordTarget := coordTarget[i := cmd[i].value * BLU_PER_MM];
        }
      }
      target := Plus(coordTarget, offset);
    }
  }

  /** What G90 and G91 mean.  In absolute mode the work coordinates of the target, in the coordinate
      system of the node, are the commanded values on the axes that are named and those of the start
      on the others; in incremental mode the commanded values are the way to go. */
  lemma TargetMeaning(m: C.Manager, index: nat, mode: CoordMode, cmd: CmdValues, start: Axis)
    requires index in m.coords
    ensures var target := Requested(mode, cmd, start, m.coords[index].offset);
      && (mode != Increment ==> forall i | 0 <= i < AXIS_NUM ::
            C.MachineToCoord(m, index, target).value[i]
            == if cmd[i].Some? then cmd[i].value * 1000.0 else C.MachineToCoord(m, index, start).value[i])
      && (mode == Increment ==> forall i | 0 <= i < AXIS_NUM ::
            target[i] - start[i] == if cmd[i].Some? then cmd[i].value * 1000.0 else 0.0)
  { }

  // ----- the G00 touch clamp

  /** The length a touch move is cut to: never negative, and zero exactly when some axis of the
      move stands on or beyond the limit it moves towards.  For a start inside the limits it is
      exactly how far the direction can be followed. */
  method TouchLength(l: Limits, start: Axis, dir: Axis) returns (minScale: real)
    requires IsUnit(dir)
    ensures minScale >= 0.0
    ensures minScale == 0.0 <==> exists i | 0 <= i < AXIS_NUM :: !Free(l, start, dir, i)
    ensures minScale > 0.0 ==>
      && (forall i | 0 <= i < AXIS_NUM :: Spares(l, start, dir, i, minScale))
      && exists k | 0 <= k < AXIS_NUM :: Exhausts(l, start, dir, k, minScale)
    ensures Inside(l, start) ==> forall t | t >= 0.0 :: Inside(l, Along(start, dir, t)) <==> t <= minScale
  {
    minScale := 0.0;
    var refreshed := false;
    ghost var k := -1;
    for i := 0 to AXIS_NUM
      invariant minScale >= 0.0 && -1 <= k < i
      invariant refreshed <==> k != -1
      invariant !refreshed ==> minScale == 0.0 && forall j | 0 <= j < i :: dir[j] == 0.0
      invariant refreshed && minScale == 0.0 ==> !Free(l, start, dir, k) && dir[k] != 0.0
      invariant minScale > 0.0 ==> Exhausts(l, start, dir, k, minScale)
      invariant minScale > 0.0 || !refreshed ==>
        forall j | 0 <= j < i :: Free(l, start, dir, j) && Spares(l, start, dir, j, minScale)
    {
      if dir[i] == 0.0 { continue; }
      var scaleLeft;
      if dir[i] > 0.0 {
        scaleLeft := (l.pos[i] - start[i]) / dir[i];
      } else {
        scaleLeft := (l.neg[i] - start[i]) / dir[i];
      }
      AxisScale(l, start, dir, i, minScale);
      AxisScale(l, start, dir, i, scaleLeft);
      forall j | 0 <= j < i && Spares(l, start, dir, j, minScale) && scaleLeft <= minScale
        ensures Spares(l, start, dir, j, scaleLeft)
      {
        SparesLess(l, start, dir, j, minScale, scaleLeft);
      }
      if !refreshed || scaleLeft < minScale {
        minScale := if scaleLeft > 0.0 then scaleLeft else 0.0;
        refreshed := true;
        k := i;
      }
    }
    UnitMoves(dir);
    if minScale == 0.0 {
      Blocked(l, start, dir, k);
    } else if Inside(l, start) {
      forall t | t >= 0.0 ensures Inside(l, Along(start, dir, t)) <==> t <= minScale {
        ExactReach(l, start, dir, k, minScale, t);
      }
    }
  }

  // ----- preparing a node

  datatype Prepared = NextNode | LimitAbort | Send(target: Axis, headroom: real)

  /** Exactly the first `reach` units of a direction are inside the limits. */
  ghost predicate ReachIs(l: Limits, start: Axis, dir: Axis, reach: real) {
    reach >= 0.0 && forall t | t >= 0.0 :: Inside(l, Along(start, dir, t)) <==> t <= reach
  }

  /** `target` is the last point inside the limits on the way from `start` to `q`, strictly before `q`. */
  ghost predicate LastInside(l: Limits, start: Axis, q: Axis, target: Axis) {
    exists n: real, s: real ::
      && IsLength(Sub(q, start), n) && 0.0 < s < n
      && target == Along(start, UnitVector(start, q, n), s)
      && ReachIs(l, start, UnitVector(start, q, n), s)
  }

  /** Going from `start` to `q` carries axis `i` beyond the limit it moves towards. */
  predicate BeyondAxis(l: Limits, start: Axis, q: Axis, i: int)
    requires 0 <= i < AXIS_NUM
  {
    (q[i] > start[i] && q[i] > l.pos[i]) || (q[i] < start[i] && q[i] < l.neg[i])
  }

  predicate Beyond(l: Limits, start: Axis, q: Axis) {
    exists i | 0 <= i < AXIS_NUM :: BeyondAxis(l, start, q, i)
  }

  /** The check on the target and its unit direction is a check on the two end points, and for a
      start inside the limits it decides whether the target is inside. */
  lemma CheckOnEndPoints(l: Limits, start: Axis, q: Axis, n: real)
    requires n > 0.0
    ensures (forall i | 0 <= i < AXIS_NUM :: NotBeyond(l, q, UnitVector(start, q, n), i)) <==> !Beyond(l, start, q)
    ensures Inside(l, start) ==> (Beyond(l, start, q) <==> !Inside(l, q))
  {
    var dir, k := UnitVector(start, q, n), 1.0 / n;
    forall i | 0 <= i < AXIS_NUM
      ensures NotBeyond(l, q, dir, i) <==> !BeyondAxis(l, start, q, i)
      ensures InsideAxis(l, start, i) ==> (BeyondAxis(l, start, q, i) <==> !InsideAxis(l, q, i))
    {
      var x := q[i] - start[i];
      assert k > 0.0 && dir[i] == x * k;
      QuotientOrder(k, x, 0.0);
      QuotientOrder(k, 0.0, x);
    }
    if Inside(l, start) && !Inside(l, q) {
      var i :| 0 <= i < AXIS_NUM && !InsideAxis(l, q, i);
      assert InsideAxis(l, start, i) && BeyondAxis(l, start, q, i);
    }
  }

  /** A G00 node is skipped when there is nothing to do, and refused exactly when it would carry an
      axis beyond a limit without being a touch move.  From a start inside the limits, what is
      sent is inside them: the requested point if that is inside, and otherwise the last inside
      point of the requested ray, strictly before the requested point and with nothing inside
      beyond it. */
  method PrepareG00(
    sqrt: real -> real, l: Limits, start: Axis, offset: Axis, mode: CoordMode, cmd: CmdValues, touch: bool)
    returns (r: Prepared)
    requires IsSqrt(sqrt)
    ensures var q := Requested(mode, cmd, start, offset);
      && (r == LimitAbort <==> Beyond(l, start, q) && !touch)
      && (r == NextNode <==>
            || q == start
            || (touch && Beyond(l, start, q)
                && exists i | 0 <= i < AXIS_NUM :: !Free(l, start, Sub(q, start), i)))
      && (r.Send? && !Beyond(l, start, q) ==> r.target == q)
      && (r.Send? ==> r.target != start)
    ensures var q := Requested(mode, cmd, start, offset);
      Inside(l, start) && r.Send? ==> Inside(l, r.target) && (Inside(l, q) ==> r.target == q)
    ensures var q := Requested(mode, cmd, start, offset);
      Inside(l, start) && r.Send? && !Inside(l, q) ==> LastInside(l, start, q, r.target)
  {
    var target := MachineTarget(mode, cmd, start, offset);
    if start == target {
      return NextNode;
    }
    var n := CalcAxisLength(sqrt, Sub(target, start));
    DifferentHavePositiveLength(start, target, n);
    var dir := UnitVector(start, target, n);
    UnitVectorIsUnit(start, target, n);
    var ok := CheckPosandnegSoftLimit(l, target, dir);
    CheckOnEndPoints(l, start, target, n);
    if ok {
      return Send(target, 0.0);
    }
    if !touch {
      return LimitAbort;
    }
    var s := TouchLength(l, start, dir);
    SameFreedom(l, start, target, n);
    if s <= 0.0 {
      return NextNode;
    }
    r := Send(Along(start, dir, s), 0.0);
    MovesAway(start, dir, s);
    if Inside(l, start) {
      assert Inside(l, Along(start, dir, n)) <==> n <= s;
      assert ReachIs(l, start, dir, s);
    }
  }

  lemma MovesAway(start: Axis, dir: Axis, s: real)
    requires IsUnit(dir) && s > 0.0
    ensures Along(start, dir, s) != start
  {
    assert 1.0 * s == s;
    AlongUnit(start, dir, s, 1.0);
    DifferentHavePositiveLength(start, Along(start, dir, s), s);
  }

  lemma SameFreedom(l: Limits, start: Axis, q: Axis, n: real)
    requires n > 0.0
    ensures (exists i | 0 <= i < AXIS_NUM :: !Free(l, start, UnitVector(start, q, n), i))
      <==> (exists i | 0 <= i < AXIS_NUM :: !Free(l, start, Sub(q, start), i))
  {
    var dir, k := UnitVector(start, q, n), 1.0 / n;
    forall i | 0 <= i < AXIS_NUM
      ensures Free(l, start, dir, i) <==> Free(l, start, Sub(q, start), i)
    {
      var x := q[i] - start[i];
      assert k > 0.0 && dir[i] == x * k;
      QuotientOrder(k, x, 0.0);
      QuotientOrder(k, 0.0, x);
    }
  }

  /** A G01 node is skipped when it goes nowhere and refused exactly when it would carry an axis
      beyond a limit.  If it starts inside the limits and is sent, its target is inside too, and
      the headroom handed to the motion thread is exactly how far the line may be followed
      backwards from its start before the first limit. */
  method PrepareG01(sqrt: real -> real, l: Limits, start: Axis, offset: Axis, mode: CoordMode, cmd: CmdValues)
    returns (r: Prepared)
    requires IsSqrt(sqrt)
    ensures var q := Requested(mode, cmd, start, offset);
      && (r == NextNode <==> q == start)
      && (r == LimitAbort <==> Beyond(l, start, q))
      && (r.Send? ==> r.target == q && r.headroom >= 0.0)
    ensures r.Send? && Inside(l, start) ==> Inside(l, r.target)
    ensures r.Send? && Inside(l, start) ==> forall n | IsLength(Sub(r.target, start), n) ::
      n > 0.0 && ReachIs(l, start, Scale(UnitVector(start, r.target, n), -1.0), r.headroom)
  {
    var target := MachineTarget(mode, cmd, start, offset);
    if start == target {
      return NextNode;
    }
    var n := CalcAxisLength(sqrt, Sub(target, start));
    DifferentHavePositiveLength(start, target, n);
    var dir := UnitVector(start, target, n);
    UnitVectorIsUnit(start, target, n);
    var ok := CheckPosandnegSoftLimit(l, target, dir);
    CheckOnEndPoints(l, start, target, n);
    if !ok {
      return LimitAbort;
    }
    var m := CalcAxisLength(sqrt, Sub(start, target));
    Opposite(start, target, n, m);
    var headroom := GetMaxLengthOnCurrentDir(sqrt, l, UnitVector(target, start, m), start);
    r := Send(target, headroom);
    forall n' | IsLength(Sub(target, start), n') ensures n' == n {
      LengthUnique(Sub(target, start), n', n);
    }
  }

  /** The direction from target to start is the machining direction reversed. */
  lemma Opposite(start: Axis, target: Axis, n: real, m: real)
    requires IsLength(Sub(target, start), n) && n > 0.0 && IsLength(Sub(start, target), m)
    ensures m == n && UnitVector(target, start, m) == Scale(UnitVector(start, target, n), -1.0)
    ensures IsUnit(UnitVector(target, start, m))
  {
    assert Sub(start, target) == Scale(Sub(target, start), -1.0);
    SumSqScale(Sub(target, start), -1.0, AXIS_NUM);
    LengthUnique(Sub(start, target), m, n);
    var k := 1.0 / n;
    forall i | 0 <= i < AXIS_NUM
      ensures UnitVector(target, start, m)[i] == Scale(UnitVector(start, target, n), -1.0)[i]
    {
      var x := target[i] - start[i];
      assert (-x) * k == (x * k) * -1.0;
    }
    UnitVectorIsUnit(target, start, m);
  }

  // ----- jog moves

  /** A jog move carries its target and the length every moving axis goes. */
  datatype Jog = Refused | Move(target: Axis, len: real)

  function Sign(x: real): real { if x > 0.0 then 1.0 else if x < 0.0 then -1.0 else 0.0 }

  ghost predicate Moving(dir: Axis) { exists i | 0 <= i < AXIS_NUM :: dir[i] != 0.0 }

  /** `_start_multiaxis_vectormove` in machine coordinates.  The move is refused exactly when an
      axis has nothing left towards its limit.  Otherwise every moving axis goes the same length:
      the smallest one left, or 1 um in the finest mode whatever is left. */
  method JogTarget(l: Limits, start: Axis, dir: Axis, finest: bool) returns (r: Jog)
    ensures r == Refused <==> exists i | 0 <= i < AXIS_NUM :: !Free(l, start, dir, i)
    ensures r.Move? ==>
      && r.len >= 0.0
      && (forall i | 0 <= i < AXIS_NUM :: r.target[i] == start[i] + Sign(dir[i]) * r.len)
      && (finest ==> r.len == 1.0)
      && (!finest ==> forall i | 0 <= i < AXIS_NUM && dir[i] != 0.0 :: r.len <= Size(Left(l, start, dir, i)))
      && (!finest && Moving(dir) ==>
            exists k | 0 <= k < AXIS_NUM :: dir[k] != 0.0 && r.len == Size(Left(l, start, dir, k)))
    ensures r.Move? && Inside(l, start) ==>
      if finest then forall i | 0 <= i < AXIS_NUM :: l.neg[i] - 1.0 < r.target[i] < l.pos[i] + 1.0
      else Inside(l, r.target)
    ensures r.Move? && Inside(l, start) && !finest && Moving(dir) ==>
      exists k | 0 <= k < AXIS_NUM :: dir[k] != 0.0 && r.target[k] == if dir[k] > 0.0 then l.pos[k] else l.neg[k]
  {
    var flag := false;
    var len := 0.0;
    ghost var k := -1;
    for i := 0 to AXIS_NUM
      invariant len >= 0.0 && -1 <= k < i && (flag <==> k != -1)
      invariant forall j | 0 <= j < i :: Free(l, start, dir, j)
      invariant !flag ==> forall j | 0 <= j < i :: dir[j] == 0.0
      invariant flag ==> dir[k] != 0.0 && len == Size(Left(l, start, dir, k))
      invariant forall j | 0 <= j < i && dir[j] != 0.0 :: len <= Size(Left(l, start, dir, j))
    {
      var left;
      if dir[i] > 0.0 {
        left := l.pos[i] - start[i];
        if left <= 0.0 {
          assert !Free(l, start, dir, i);
          return Refused;
        }
      } else if dir[i] < 0.0 {
        left := l.neg[i] - start[i];
        if left >= 0.0 {
          assert !Free(l, start, dir, i);
          return Refused;
        }
      } else {
        continue;
      }
      if !flag || Size(left) < len {
        flag := true;
        len := Size(left);
        k := i;
      }
    }
    if finest { len := 1.0; }
    var target := start;
    for i := 0 to AXIS_NUM
      invariant forall j | 0 <= j < i :: target[j] == start[j] + Sign(dir[j]) * len
      invariant forall j | i <= j < AXIS_NUM :: target[j] == start[j]
    {
      if dir[i] > 0.0 {
        target := target[i := start[i] + len];
      } else if dir[i] < 0.0 {
        target := target[i := start[i] - len];
      }
    }
    r := Move(target, len);
    if Inside(l, start) { JogTight(l, start, dir, len, target, finest); }
  }

  /** Outside the finest mode a jog from inside the limits ends inside them, with one axis exactly
      on its limit; in the finest mode no limit is exceeded by 1 um or more. */
  lemma JogTight(l: Limits, start: Axis, dir: Axis, len: real, target: Axis, finest: bool)
    requires Inside(l, start) && len >= 0.0
    requires forall i | 0 <= i < AXIS_NUM :: Free(l, start, dir, i)
    requires forall i | 0 <= i < AXIS_NUM :: target[i] == start[i] + Sign(dir[i]) * len
    requires finest ==> len == 1.0
    requires !finest ==> forall i | 0 <= i < AXIS_NUM && dir[i] != 0.0 :: len <= Size(Left(l, start, dir, i))
    ensures !finest ==> Inside(l, target)
    ensures finest ==> forall i | 0 <= i < AXIS_NUM :: l.neg[i] - 1.0 < target[i] < l.pos[i] + 1.0
    ensures forall k | 0 <= k < AXIS_NUM && dir[k] != 0.0 && len == Size(Left(l, start, dir, k)) ::
      target[k] == if dir[k] > 0.0 then l.pos[k] else l.neg[k]
  {
    forall i | 0 <= i < AXIS_NUM
      ensures !finest ==> InsideAxis(l, target, i)
      ensures finest ==> l.neg[i] - 1.0 < target[i] < l.pos[i] + 1.0
    {
      assert InsideAxis(l, start, i) && Free(l, start, dir, i);
    }
    forall k | 0 <= k < AXIS_NUM && dir[k] != 0.0 && len == Size(Left(l, start, dir, k))
      ensures target[k] == if dir[k] > 0.0 then l.pos[k] else l.neg[k]
    {
      assert Free(l, start, dir, k);
    }
  }
}
