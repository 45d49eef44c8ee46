/** The linear path segment, and the command position all motion code shares. */
module Trajectory {
  import opened Axes

  class MotionShared {
    var cmdAxis: Axis

    constructor (a: Axis)
      ensures cmdAxis == a
    {
      cmdAxis := a;
    }
  }

  /** The end points of a point move of length `t`, forward or backward, that starts at length
      `len` of the line from `start` in direction `dir`.  The length and the direction which the
      move handler recomputes from its two end points are `t` and plus or minus `dir`. */
  method PlanAlong(
    sqrt: real -> real, ghost start: Axis, dir: Axis, ghost len: real, from: Axis, t: real, forward: bool)
    returns (target: Axis, moveDir: Axis, dist: real)
    requires IsSqrt(sqrt) && IsUnit(dir) && t > 0.0 && from == Along(start, dir, len)
    ensures target == Along(start, dir, if forward then len + t else len - t)
    ensures dist == t && moveDir == Scale(dir, if forward then 1.0 else -1.0)
  {
    var sign := if forward then 1.0 else -1.0;
    target := Along(from, dir, sign * t);
    assert target == Along(start, dir, if forward then len + t else len - t) by {
      if forward { AlongForward(start, dir, len, t); } else { AlongBack(start, dir, len, t); }
    }
    dist := CalcAxisLength(sqrt, Sub(target, from));
    AlongUnit(from, dir, t, sign);
    LengthUnique(Sub(target, from), dist, t);
    moveDir := UnitVector(from, target, dist);
  }

  function ClampLength(total: real, x: real): real {
    if x > total then total else if x <= 0.0 then 0.0 else x
  }

  /** `TrajectoryLinearSegement`. */
  class LinearSegment {
    const startPos: Axis
    const endPos: Axis
    const totalLength: real
    const unitVector: Axis
    var currPos: Axis
    var currLength: real

    ghost predicate Valid()
      reads this
    {
      && totalLength > 0.0 && IsUnit(unitVector)
      && Along(startPos, unitVector, totalLength) == endPos
      && 0.0 <= currLength <= totalLength
      && currPos == Along(startPos, unitVector, currLength)
    }

    constructor (sqrt: real -> real, start: Axis, end: Axis)
      requires IsSqrt(sqrt) && start != end
      ensures Valid() && startPos == start && endPos == end && currLength == 0.0 && currPos == start
      ensures IsLength(Sub(end, start), totalLength)
      ensures unitVector == UnitVector(start, end, totalLength)
    {
      var n := CalcAxisLength(sqrt, Sub(end, start));
      DifferentHavePositiveLength(start, end, n);
      UnitVectorIsUnit(start, end, n);
      AlongZero(start, UnitVector(start, end, n));
      startPos, endPos, currPos := start, end, start;
      totalLength, currLength := n, 0.0;
      unitVector := UnitVector(start, end, n);
    }

    predicate AtStart()
      reads this
    {
      currLength <= 0.0
    }

    predicate AtEnd()
      reads this
    {
      currLength >= totalLength
    }

    method SetCurrLength(length: real)
      requires Valid()
      modifies this
      ensures Valid() && currLength == ClampLength(totalLength, length)
    {
      currLength := length;
      if currLength > totalLength {
        currLength := totalLength;
      } else if currLength <= 0.0 {
        currLength := 0.0;
      }
      currPos := Along(startPos, unitVector, currLength);
    }

    method RunOnce(inc: real)
      requires Valid()
      modifies this
      ensures Valid() && currLength == ClampLength(totalLength, old(currLength) + inc)
    {
      SetCurrLength(currLength + inc);
    }
  }
}
