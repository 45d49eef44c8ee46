/** Soft limits: the checks and clamps of the interpreter and of the jog panel. */
module SoftLimit {
  import opened Axes
  import opened RealFacts

  datatype Limits = Limits(pos: Axis, neg: Axis)

  ghost predicate InsideAxis(l: Limits, p: Axis, i: int)
    requires 0 <= i < AXIS_NUM
  {
    l.neg[i] <= p[i] <= l.pos[i]
  }

  ghost predicate Inside(l: Limits, p: Axis) {
    forall i | 0 <= i < AXIS_NUM :: InsideAxis(l, p, i)
  }

  /** Axis `i` is not beyond the limit it moves towards. */
  predicate NotBeyond(l: Limits, p: Axis, dir: Axis, i: int)
    requires 0 <= i < AXIS_NUM
  {
    (dir[i] > 0.0 ==> p[i] <= l.pos[i]) && (dir[i] < 0.0 ==> p[i] >= l.neg[i])
  }

  /** `CheckPosandnegSoftLimit` looks only at the limit each axis moves towards. */
  method CheckPosandnegSoftLimit(l: Limits, machPos: Axis, dir: Axis) returns (ok: bool)
    ensures ok <==> forall i | 0 <= i < AXIS_NUM :: NotBeyond(l, machPos, dir, i)
  {
    for i := 0 to AXIS_NUM
      invariant forall j | 0 <= j < i :: NotBeyond(l, machPos, dir, j)
    {
      if dir[i] > 0.0 && machPos[i] > l.pos[i] {
        assert !NotBeyond(l, machPos, dir, i);
        return false;
      } else if dir[i] < 0.0 && machPos[i] < l.neg[i] {
        assert !NotBeyond(l, machPos, dir, i);
        return false;
      }
    }
    return true;
  }

  lemma SignOfProduct(x: real, t: real)
    requires t >= 0.0
    ensures x > 0.0 ==> x * t >= 0.0
    ensures x < 0.0 ==> x * t <= 0.0
    ensures x == 0.0 ==> x * t == 0.0
  {
    if x < 0.0 { ProductMonotone(x, 0.0, t); }
  }

  /** Limits are convex. */
  lemma InsideBetween(l: Limits, start: Axis, dir: Axis, a: real, b: real, t: real)
    requires a <= t <= b
    requires Inside(l, Along(start, dir, a)) && Inside(l, Along(start, dir, b))
    ensures Inside(l, Along(start, dir, t))
  {
    forall i | 0 <= i < AXIS_NUM ensures InsideAxis(l, Along(start, dir, t), i) {
      assert InsideAxis(l, Along(start, dir, a), i) && InsideAxis(l, Along(start, dir, b), i);
      var x, y, z := dir[i] * a, dir[i] * b, dir[i] * t;
      assert x <= z <= y || y <= z <= x by { ProductBetween(dir[i], a, b, t); }
      assert Along(start, dir, a)[i] == start[i] + x && Along(start, dir, b)[i] == start[i] + y;
      assert Along(start, dir, t)[i] == start[i] + z;
    }
  }

  lemma ProductBetween(x: real, a: real, b: real, t: real)
    requires a <= t <= b
    ensures x * a <= x * t <= x * b || x * b <= x * t <= x * a
  {
    if x >= 0.0 {
      calc { x * t - x * a; x * (t - a); >= 0.0; }
      calc { x * b - x * t; x * (b - t); >= 0.0; }
    } else {
      calc { x * a - x * t; (-x) * (t - a); >= 0.0; }
      calc { x * t - x * b; (-x) * (b - t); >= 0.0; }
    }
  }

  // ----- how far a direction may be followed

  /** What is left of axis `i` towards the limit it moves to, and whether it may move at all. */
  function Left(l: Limits, p: Axis, dir: Axis, i: int): real
    requires 0 <= i < AXIS_NUM
  {
    if dir[i] > 0.0 then l.pos[i] - p[i] else if dir[i] < 0.0 then l.neg[i] - p[i] else 0.0
  }

  predicate Free(l: Limits, p: Axis, dir: Axis, i: int)
    requires 0 <= i < AXIS_NUM
  {
    (dir[i] > 0.0 ==> Left(l, p, dir, i) > 0.0) && (dir[i] < 0.0 ==> Left(l, p, dir, i) < 0.0)
  }

  /** Following `dir` for `s` units exhausts axis `i` exactly / does not carry it past its limit. */
  predicate Exhausts(l: Limits, p: Axis, dir: Axis, i: int, s: real)
    requires 0 <= i < AXIS_NUM
  {
    dir[i] != 0.0 && dir[i] * s == Left(l, p, dir, i)
  }

  predicate Spares(l: Limits, p: Axis, dir: Axis, i: int, s: real)
    requires 0 <= i < AXIS_NUM
  {
    (dir[i] > 0.0 ==> dir[i] * s <= Left(l, p, dir, i)) && (dir[i] < 0.0 ==> dir[i] * s >= Left(l, p, dir, i))
  }

  lemma AxisScale(l: Limits, p: Axis, dir: Axis, i: int, s: real)
    requires 0 <= i < AXIS_NUM && dir[i] != 0.0
    ensures var q := Left(l, p, dir, i) / dir[i];
      && Exhausts(l, p, dir, i, q)
      && (s <= q <==> Spares(l, p, dir, i, s))
      && (Free(l, p, dir, i) <==> q > 0.0)
  {
    var d, q := dir[i], Left(l, p, dir, i) / dir[i];
    QuotientTimes(Left(l, p, dir, i), d);
    QuotientOrder(d, q, s);
    QuotientOrder(d, q, 0.0);
  }

  lemma QuotientOrder(d: real, q: real, s: real)
    requires d != 0.0
    ensures d > 0.0 ==> (s <= q <==> d * s <= d * q)
    ensures d < 0.0 ==> (s <= q <==> d * s >= d * q)
  {
    var e := q - s;
    assert d * q - d * s == d * e;
    assert d > 0.0 && e >= 0.0 ==> d * e >= 0.0;
    assert d > 0.0 && e < 0.0 ==> d * e < 0.0;
    assert d < 0.0 && e >= 0.0 ==> d * e <= 0.0;
    assert d < 0.0 && e < 0.0 ==> d * e > 0.0;
  }

  /** Sparing every axis is the same as staying inside. */
  lemma SparesIsInside(l: Limits, p: Axis, dir: Axis, t: real)
    requires Inside(l, p) && t >= 0.0
    ensures (forall i | 0 <= i < AXIS_NUM :: Spares(l, p, dir, i, t)) <==> Inside(l, Along(p, dir, t))
  {
    var q := Along(p, dir, t);
    forall i | 0 <= i < AXIS_NUM ensures Spares(l, p, dir, i, t) <==> InsideAxis(l, q, i) {
      assert InsideAxis(l, p, i);
      SignOfProduct(dir[i], t);
    }
  }

  /** If `s` exhausts one axis and spares all, it is exactly how far one can go. */
  lemma ExactReach(l: Limits, p: Axis, dir: Axis, k: int, s: real, t: real)
    requires Inside(l, p) && 0 <= k < AXIS_NUM && s >= 0.0 && t >= 0.0
    requires Exhausts(l, p, dir, k, s) && forall i | 0 <= i < AXIS_NUM :: Spares(l, p, dir, i, s)
    ensures Inside(l, Along(p, dir, t)) <==> t <= s
  {
    SparesIsInside(l, p, dir, t);
    if t <= s {
      SparesIsInside(l, p, dir, s);
      AlongZero(p, dir);
      InsideBetween(l, p, dir, 0.0, s, t);
    } else {
      QuotientOrder(dir[k], s, t);
      assert !Spares(l, p, dir, k, t);
    }
  }

  lemma {:induction false} UnitMoves(dir: Axis)
    requires IsUnit(dir)
    ensures exists k :: 0 <= k < AXIS_NUM && dir[k] != 0.0
  {
    if forall k | 0 <= k < AXIS_NUM :: dir[k] == 0.0 { ZeroSum(dir, AXIS_NUM); }
  }

  /** `GetMaxLengthOnCurrentDir` for a unit direction: a point `t` along the direction is inside
      the limits if and only if `t` does not exceed the result. */
  method GetMaxLengthOnCurrentDir(sqrt: real -> real, l: Limits, dir: Axis, p: Axis) returns (len: real)
    requires IsSqrt(sqrt) && IsUnit(dir)
    ensures len >= 0.0
    ensures Inside(l, p) ==> forall t | t >= 0.0 :: Inside(l, Along(p, dir, t)) <==> t <= len
  {
    var scale := 0.0;
    ghost var k := -1;
    for i := 0 to AXIS_NUM
      invariant scale >= 0.0 && -1 <= k < i
      invariant scale == 0.0 <==> k == -1
      invariant k == -1 ==> forall j | 0 <= j < i :: dir[j] == 0.0
      invariant k != -1 ==> Exhausts(l, p, dir, k, scale)
      invariant forall j | 0 <= j < i :: Spares(l, p, dir, j, scale)
    {
      var left;
      if dir[i] > 0.0 {
        left := l.pos[i] - p[i];
        if left <= 0.0 {
          Blocked(l, p, dir, i);
          return 0.0;
        }
      } else if dir[i] < 0.0 {
        left := l.neg[i] - p[i];
        if left >= 0.0 {
          Blocked(l, p, dir, i);
          return 0.0;
        }
      } else {
        continue;
      }
      var axisScale := left / dir[i];
      AxisScale(l, p, dir, i, scale);
      forall j | 0 <= j < i && axisScale <= scale ensures Spares(l, p, dir, j, axisScale) {
        SparesLess(l, p, dir, j, scale, axisScale);
      }
      if scale == 0.0 || axisScale < scale {
        scale := axisScale;
        k := i;
      }
    }
    UnitMoves(dir);
    var n := CalcAxisLength(sqrt, dir);
    LengthUnique(dir, n, 1.0);
    len := scale * n;
    if Inside(l, p) {
      forall t | t >= 0.0 ensures Inside(l, Along(p, dir, t)) <==> t <= len {
        ExactReach(l, p, dir, k, scale, t);
      }
    }
  }

  lemma SparesLess(l: Limits, p: Axis, dir: Axis, j: int, s: real, r: real)
    requires 0 <= j < AXIS_NUM && Spares(l, p, dir, j, s) && r <= s
    ensures Spares(l, p, dir, j, r)
  {
    if dir[j] != 0.0 { QuotientOrder(dir[j], s, r); }
  }

  /** An axis that already stands on the limit it should move towards allows no move at all. */
  lemma Blocked(l: Limits, p: Axis, dir: Axis, i: int)
    requires 0 <= i < AXIS_NUM && dir[i] != 0.0 && !Free(l, p, dir, i)
    ensures Inside(l, p) ==> forall t | t >= 0.0 :: Inside(l, Along(p, dir, t)) <==> t <= 0.0
  {
    if Inside(l, p) {
      assert InsideAxis(l, p, i);
      forall t | t >= 0.0 ensures Inside(l, Along(p, dir, t)) <==> t <= 0.0 {
        SparesIsInside(l, p, dir, t);
        AlongZero(p, dir);
        if t > 0.0 {
          QuotientOrder(dir[i], 0.0, t);
          assert !Spares(l, p, dir, i, t);
        }
      }
    }
  }
}
