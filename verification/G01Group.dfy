/** The G01 group: a polyline whose points the interpreter turns into increments, which the motion
    thread adds up again. */
module G01Group {
  import opened Common
  import opened Axes
  import opened RealFacts
  import opened SoftLimit
  import opened MoveTargets

  datatype Point = Point(mode: CoordMode, cmd: CmdValues, line: int, feedrate: int)

  datatype Item = Item(line: int, incs: Axis, feedrate: int)

  datatype Group = Refused | Items(items: seq<Item>)

  const DEAD_BAND := 0.000001

  // ----- what the points mean

  /** The machine position a program intends after all of `points`. */
  ghost function Intended(start: Axis, offset: Axis, points: seq<Point>): Axis
    decreases |points|
  {
    if points == [] then start
    else
      var n := |points| - 1;
      Requested(points[n].mode, points[n].cmd, Intended(start, offset, points[..n]), offset)
  }

  function Increment(p: Point, from: Axis, to: Axis, i: int): real
    requires 0 <= i < AXIS_NUM
  {
    if p.mode == CoordMode.Increment then (if p.cmd[i].Some? then p.cmd[i].value * BLU_PER_MM else 0.0)
    else if Size(to[i] - from[i]) < DEAD_BAND then 0.0
    else to[i] - from[i]
  }

  function Increments(p: Point, from: Axis, to: Axis): Axis {
    seq(AXIS_NUM, i requires 0 <= i < AXIS_NUM => Increment(p, from, to, i))
  }

  /** The items sent for `points`: one for every point that is not the place we are at already. */
  ghost function Sent(start: Axis, offset: Axis, points: seq<Point>): seq<Item>
    decreases |points|
  {
    if points == [] then []
    else
      var n := |points| - 1;
      var p, from, to := points[n], Intended(start, offset, points[..n]), Intended(start, offset, points);
      Sent(start, offset, points[..n]) + if from == to then [] else [Item(p.line, Increments(p, from, to), p.feedrate)]
  }

  /** No point of the polyline lies beyond a limit, seen from the point before it. */
  ghost predicate Stays(l: Limits, start: Axis, offset: Axis, points: seq<Point>)
    decreases |points|
  {
    points != [] ==>
      var before := points[..|points| - 1];
      Stays(l, start, offset, before) && !Beyond(l, Intended(start, offset, before), Intended(start, offset, points))
  }

  lemma {:induction false} StaysPrefix(l: Limits, start: Axis, offset: Axis, points: seq<Point>, k: nat)
    requires k <= |points| && Stays(l, start, offset, points)
    ensures Stays(l, start, offset, points[..k])
    decreases |points|
  {
    if k == |points| {
      assert points[..k] == points;
    } else {
      var before := points[..|points| - 1];
      StaysPrefix(l, start, offset, before, k);
      assert before[..k] == points[..k];
    }
  }

  // ----- the loop of the interpreter

  method TargetAndIncrements(p: Point, from: Axis, offset: Axis) returns (to: Axis, incs: Axis)
    ensures to == Requested(p.mode, p.cmd, from, offset)
    ensures incs == Increments(p, from, to)
  {
    to := MachineTarget(p.mode, p.cmd, from, offset);
    incs := [0.0, 0.0, 0.0, 0.0, 0.0, 0.0];
    for i := 0 to AXIS_NUM
      invariant forall j | 0 <= j < i :: incs[j] == Increment(p, from, to, j)
      invariant forall j | i <= j < AXIS_NUM :: incs[j] == 0.0
    {
      if p.mode == CoordMode.Increment {
        if p.cmd[i].Some? { incs := incs[i := p.cmd[i].value * BLU_PER_MM]; }
      } else {
        incs := incs[i := to[i] - from[i]];
        if Size(incs[i]) < DEAD_BAND { incs := incs[i := 0.0]; }
      }
    }
  }

  method CheckTarget(sqrt: real -> real, l: Limits, from: Axis, to: Axis) returns (ok: bool)
    requires IsSqrt(sqrt) && from != to
    ensures ok <==> !Beyond(l, from, to)
  {
    var n := CalcAxisLength(sqrt, Sub(to, from));
    DifferentHavePositiveLength(from, to, n);
    CheckOnEndPoints(l, from, to, n);
    ok := CheckPosandnegSoftLimit(l, to, UnitVector(from, to, n));
  }

  /** The group is refused exactly when some point would carry an axis beyond a limit. */
  method PrepareGroup(sqrt: real -> real, l: Limits, start: Axis, offset: Axis, points: seq<Point>) returns (r: Group)
    requires IsSqrt(sqrt)
    ensures r.Refused? <==> !Stays(l, start, offset, points)
    ensures r.Items? ==> r.items == Sent(start, offset, points)
  {
    var from := start;
    var items := [];
    for k := 0 to |points|
      invariant from == Intended(start, offset, points[..k])
      invariant items == Sent(start, offset, points[..k])
      invariant Stays(l, start, offset, points[..k])
    {
      var p := points[k];
      OnePointMore(l, start, offset, points, k);
      var to, incs := TargetAndIncrements(p, from, offset);
      if from == to {
        continue;
      }
      var ok := CheckTarget(sqrt, l, from, to);
      if !ok {
        if Stays(l, start, offset, points) { StaysPrefix(l, start, offset, points, k + 1); }
        return Group.Refused;
      }
      items := items + [Item(p.line, incs, p.feedrate)];
      from := to;
    }
    assert points[..|points|] == points;
    r := Items(items);
  }

  lemma OnePointMore(l: Limits, start: Axis, offset: Axis, points: seq<Point>, k: nat)
    requires k < |points|
    ensures var p := points[k];
      var from, to := Intended(start, offset, points[..k]), Intended(start, offset, points[..k + 1]);
      && to == Requested(p.mode, p.cmd, from, offset)
      && (Stays(l, start, offset, points[..k + 1]) <==> Stays(l, start, offset, points[..k]) && !Beyond(l, from, to))
      && Sent(start, offset, points[..k + 1])
         == Sent(start, offset, points[..k])
            + if from == to then [] else [Item(p.line, Increments(p, from, to), p.feedrate)]
  {
    assert points[..k + 1][..k] == points[..k];
  }

  /** If the start is inside the limits and the polyline stays, the intended position is inside. */
  lemma {:induction false} IntendedInside(l: Limits, start: Axis, offset: Axis, points: seq<Point>)
    requires Inside(l, start) && Stays(l, start, offset, points)
    ensures Inside(l, Intended(start, offset, points))
    decreases |points|
  {
    if points != [] {
      var before := points[..|points| - 1];
      IntendedInside(l, start, offset, before);
      CheckOnEndPoints(l, Intended(start, offset, before), Intended(start, offset, points), 1.0);
    }
  }

  // ----- the increments added up

  /** Where the motion thread ends after `items`: the increments added to the start. */
  ghost function Reached(start: Axis, items: seq<Item>): Axis
    decreases |items|
  {
    if items == [] then start else Plus(Reached(start, items[..|items| - 1]), items[|items| - 1].incs)
  }

  /** The number of absolute points that are sent. */
  ghost function AbsoluteSent(start: Axis, offset: Axis, points: seq<Point>): nat
    decreases |points|
  {
    if points == [] then 0
    else
      var n := |points| - 1;
      var rest := AbsoluteSent(start, offset, points[..n]);
      var from, to := Intended(start, offset, points[..n]), Intended(start, offset, points);
      if points[n].mode != CoordMode.Increment && from != to then rest + 1 else rest
  }

  /** One dead band for each of them. */
  ghost function Slack(start: Axis, offset: Axis, points: seq<Point>): real {
    (AbsoluteSent(start, offset, points) as real) * DEAD_BAND
  }

  ghost predicate Within(x: real, k: nat) { x == 0.0 || (Size(x) < (k as real) * DEAD_BAND) }

  lemma WithinStep(x: real, k: nat, e: real)
    requires Within(x, k) && Size(e) < DEAD_BAND
    ensures Within(x + e, k + 1)
  {
    assert (k + 1) as real * DEAD_BAND == (k as real) * DEAD_BAND + DEAD_BAND;
  }

  /** One item is exact for an incremental point, and less than the dead band off otherwise. */
  lemma ItemError(p: Point, from: Axis, offset: Axis, i: int)
    requires 0 <= i < AXIS_NUM
    ensures var to := Requested(p.mode, p.cmd, from, offset);
      && Size(from[i] + Increment(p, from, to, i) - to[i]) < DEAD_BAND
      && (p.mode == CoordMode.Increment ==> from[i] + Increment(p, from, to, i) == to[i])
  { }

  /** On every axis the increments sent for any points add up to the intended position up to less
      than one dead band per absolute point sent; incremental programs add up exactly. */
  lemma {:induction false} RunningSum(start: Axis, offset: Axis, points: seq<Point>, i: int)
    requires 0 <= i < AXIS_NUM
    ensures Within(Reached(start, Sent(start, offset, points))[i] - Intended(start, offset, points)[i],
                   AbsoluteSent(start, offset, points))
    ensures AbsoluteSent(start, offset, points) <= |Sent(start, offset, points)|
    decreases |points|
  {
    if points != [] {
      var n := |points| - 1;
      var p, before := points[n], points[..n];
      RunningSum(start, offset, before, i);
      var from, to := Intended(start, offset, before), Intended(start, offset, points);
      var items := Sent(start, offset, before);
      if from == to {
        assert Sent(start, offset, points) == items;
      } else {
        var item := Item(p.line, Increments(p, from, to), p.feedrate);
        assert (items + [item])[..|items|] == items;
        assert Sent(start, offset, points) == items + [item];
        assert Reached(start, items + [item]) == Plus(Reached(start, items), item.incs);
        ItemError(p, from, offset, i);
        var x := Reached(start, items)[i] - from[i];
        var e := from[i] + Increment(p, from, to, i) - to[i];
        assert Reached(start, items + [item])[i] - to[i] == x + e;
        if p.mode != CoordMode.Increment { WithinStep(x, AbsoluteSent(start, offset, before), e); }
      }
    }
  }

  lemma {:induction false} IncrementalHasNoAbsolute(start: Axis, offset: Axis, points: seq<Point>)
    requires forall p | p in points :: p.mode == CoordMode.Increment
    ensures AbsoluteSent(start, offset, points) == 0
    decreases |points|
  {
    if points != [] {
      var n := |points| - 1;
      assert points[n] in points;
      IncrementalHasNoAbsolute(start, offset, points[..n]);
    }
  }

  /** So the position really reached after any number of points of an accepted group is less than
      one dead band per absolute point beyond the limits. */
  lemma ReachedNearLimits(l: Limits, start: Axis, offset: Axis, points: seq<Point>, k: nat, i: int)
    requires Inside(l, start) && Stays(l, start, offset, points) && k <= |points| && 0 <= i < AXIS_NUM
    ensures var at := Reached(start, Sent(start, offset, points[..k]))[i];
      var slack := Slack(start, offset, points[..k]);
      l.neg[i] - slack <= at <= l.pos[i] + slack
  {
    var prefix := points[..k];
    var want, at := Intended(start, offset, prefix)[i], Reached(start, Sent(start, offset, prefix))[i];
    StaysPrefix(l, start, offset, points, k);
    IntendedInside(l, start, offset, prefix);
    assert InsideAxis(l, Intended(start, offset, prefix), i);
    RunningSum(start, offset, prefix, i);
    WithinSlack(at - want, AbsoluteSent(start, offset, prefix));
  }

  lemma WithinSlack(x: real, k: nat)
    requires Within(x, k)
    ensures Size(x) <= (k as real) * DEAD_BAND
  { }

  /** The point that divides the way from `x` to `y`. */
  function Blend(x: real, y: real, share: real): real { x + share * (y - x) }

  /** The whole way, not only its end points: every point between two positions that are reached one
      after the other is as near to the limits. */
  lemma PathNearLimits(
    l: Limits, start: Axis, offset: Axis, points: seq<Point>, k: nat, i: int, share: real)
    requires Inside(l, start) && Stays(l, start, offset, points) && k < |points| && 0 <= i < AXIS_NUM
    requires 0.0 <= share <= 1.0
    ensures var from := Reached(start, Sent(start, offset, points[..k]))[i];
      var to := Reached(start, Sent(start, offset, points[..k + 1]))[i];
      var slack := Slack(start, offset, points[..k + 1]);
      l.neg[i] - slack <= Blend(from, to, share) <= l.pos[i] + slack
  {
    var from := Reached(start, Sent(start, offset, points[..k]))[i];
    var to := Reached(start, Sent(start, offset, points[..k + 1]))[i];
    var slack := Slack(start, offset, points[..k + 1]);
    ReachedNearLimits(l, start, offset, points, k, i);
    ReachedNearLimits(l, start, offset, points, k + 1, i);
    SlackGrows(start, offset, points, k);
    StaysBetween(from, to, share, l.neg[i] - slack, l.pos[i] + slack);
  }

  lemma SlackGrows(start: Axis, offset: Axis, points: seq<Point>, k: nat)
    requires k < |points|
    ensures Slack(start, offset, points[..k]) <= Slack(start, offset, points[..k + 1])
  {
    assert points[..k + 1][..k] == points[..k];
    var m, n := AbsoluteSent(start, offset, points[..k]), AbsoluteSent(start, offset, points[..k + 1]);
    assert m <= n;
  }

  lemma StaysBetween(x: real, y: real, share: real, lo: real, hi: real)
    requires 0.0 <= share <= 1.0 && lo <= x <= hi && lo <= y <= hi
    ensures lo <= Blend(x, y, share) <= hi
  {
    var d, rest := y - x, 1.0 - share;
    var part, other := share * d, rest * d;
    assert part + other == d;
    assert Blend(x, y, share) == x + part;
    if d >= 0.0 {
      assert part >= 0.0 && other >= 0.0;
    } else {
      ProductMonotone(d, 0.0, share);
      ProductMonotone(d, 0.0, rest);
      assert d * share == part && d * rest == other;
    }
  }

  /** In incremental mode every position is reached exactly. */
  lemma IncrementalIsExact(start: Axis, offset: Axis, points: seq<Point>)
    requires forall p | p in points :: p.mode == CoordMode.Increment
    ensures Reached(start, Sent(start, offset, points)) == Intended(start, offset, points)
  {
    IncrementalHasNoAbsolute(start, offset, points);
    forall i | 0 <= i < AXIS_NUM
      ensures Reached(start, Sent(start, offset, points))[i] == Intended(start, offset, points)[i]
    {
      RunningSum(start, offset, points, i);
    }
  }

  // ----- exactly how far off

  /** Axis `i` moves, but by less than the dead band of an absolute point: the increment is lost. */
  predicate Drops(p: Point, from: Axis, to: Axis, i: int)
    requires 0 <= i < AXIS_NUM
  {
    p.mode != CoordMode.Increment && to[i] != from[i] && Size(to[i] - from[i]) < DEAD_BAND
  }

  /** What is lost on axis `i` over all points. */
  ghost function Dropped(start: Axis, offset: Axis, points: seq<Point>, i: int): real
    requires 0 <= i < AXIS_NUM
    decreases |points|
  {
    if points == [] then 0.0
    else
      var n := |points| - 1;
      var from, to := Intended(start, offset, points[..n]), Intended(start, offset, points);
      Dropped(start, offset, points[..n], i) + if Drops(points[n], from, to, i) then to[i] - from[i] else 0.0
  }

  /** The position reached is the intended one minus what was lost, on every axis. */
  lemma {:induction false} ReachedExactly(start: Axis, offset: Axis, points: seq<Point>, i: int)
    requires 0 <= i < AXIS_NUM
    ensures Reached(start, Sent(start, offset, points))[i]
      == Intended(start, offset, points)[i] - Dropped(start, offset, points, i)
    decreases |points|
  {
    if points != [] {
      var n := |points| - 1;
      var p, before := points[n], points[..n];
      ReachedExactly(start, offset, before, i);
      var from, to := Intended(start, offset, before), Intended(start, offset, points);
      var items := Sent(start, offset, before);
      if from == to {
        assert Sent(start, offset, points) == items;
      } else {
        var item := Item(p.line, Increments(p, from, to), p.feedrate);
        assert (items + [item])[..|items|] == items;
        assert Reached(start, items + [item]) == Plus(Reached(start, items), item.incs);
      }
    }
  }

  /** So an accepted group ends inside the limits iff what was lost does not carry it out. */
  lemma ReachedInsideIff(l: Limits, start: Axis, offset: Axis, points: seq<Point>)
    ensures Inside(l, Reached(start, Sent(start, offset, points))) <==>
      forall i | 0 <= i < AXIS_NUM :: KeptInside(l, start, offset, points, i)
  {
    var at := Reached(start, Sent(start, offset, points));
    forall i | 0 <= i < AXIS_NUM ensures InsideAxis(l, at, i) <==> KeptInside(l, start, offset, points, i) {
      ReachedExactly(start, offset, points, i);
    }
  }

  ghost predicate KeptInside(l: Limits, start: Axis, offset: Axis, points: seq<Point>, i: int)
    requires 0 <= i < AXIS_NUM
  {
    l.neg[i] <= Intended(start, offset, points)[i] - Dropped(start, offset, points, i) <= l.pos[i]
  }

  /** No point has an absolute increment that is not zero and below the dead band. */
  ghost predicate NothingDrops(start: Axis, offset: Axis, points: seq<Point>)
    decreases |points|
  {
    points != [] ==>
      var n := |points| - 1;
      && NothingDrops(start, offset, points[..n])
      && forall i | 0 <= i < AXIS_NUM ::
           !Drops(points[n], Intended(start, offset, points[..n]), Intended(start, offset, points), i)
  }

  /** Then every intended point is reached, and an accepted group stays inside. */
  lemma {:induction false} NothingDropsIsExact(start: Axis, offset: Axis, points: seq<Point>)
    requires NothingDrops(start, offset, points)
    ensures Reached(start, Sent(start, offset, points)) == Intended(start, offset, points)
    ensures forall i | 0 <= i < AXIS_NUM :: Dropped(start, offset, points, i) == 0.0
    decreases |points|
  {
    if points != [] { NothingDropsIsExact(start, offset, points[..|points| - 1]); }
    forall i | 0 <= i < AXIS_NUM
      ensures Reached(start, Sent(start, offset, points))[i] == Intended(start, offset, points)[i]
    {
      ReachedExactly(start, offset, points, i);
    }
  }

  /** For a single point the condition is exact. */
  lemma OnePointExactIff(start: Axis, offset: Axis, p: Point)
    ensures Reached(start, Sent(start, offset, [p])) == Intended(start, offset, [p])
      <==> NothingDrops(start, offset, [p])
  {
    var to := Intended(start, offset, [p]);
    var at := Reached(start, Sent(start, offset, [p]));
    assert [p][..0] == [];
    forall i | 0 <= i < AXIS_NUM ensures at[i] == to[i] <==> !Drops(p, start, to, i) {
      ReachedExactly(start, offset, [p], i);
      assert Dropped(start, offset, [p][..0], i) == 0.0;
    }
    assert NothingDrops(start, offset, [p]) <==> forall i | 0 <= i < AXIS_NUM :: !Drops(p, start, to, i);
  }

  /** An accepted group whose last point is reached beyond the limit: two small steps back are lost,
      the step forward is not. */
  lemma ReachedBeyondLimit() returns (l: Limits, start: Axis, offset: Axis, points: seq<Point>)
    ensures Inside(l, start) && Stays(l, start, offset, points)
    ensures !Inside(l, Reached(start, Sent(start, offset, points)))
  {
    offset := [0.0, 0.0, 0.0, 0.0, 0.0, 0.0];
    start := offset[0 := 10.0];
    l := Limits(start, offset);
    points := [BackAndForth(0.0099999992), BackAndForth(0.0099999984), BackAndForth(0.01)];
    StepsBack(start, offset, points);
    var p1, p2 := points[..1], points[..2];
    assert p2[..1] == p1 && p1[..0] == [];
    assert Stays(l, start, offset, []) && Stays(l, start, offset, p1) && Stays(l, start, offset, p2);
    ReachedExactly(start, offset, points, 0);
    assert !InsideAxis(l, Reached(start, Sent(start, offset, points)), 0);
  }

  lemma StepsBack(start: Axis, offset: Axis, points: seq<Point>)
    requires offset == [0.0, 0.0, 0.0, 0.0, 0.0, 0.0] && start == offset[0 := 10.0]
    requires points == [BackAndForth(0.0099999992), BackAndForth(0.0099999984), BackAndForth(0.01)]
    ensures Intended(start, offset, points[..1]) == start[0 := 9.9999992]
    ensures Intended(start, offset, points[..2]) == start[0 := 9.9999984]
    ensures Intended(start, offset, points) == start
    ensures Dropped(start, offset, points, 0) == -0.0000016
  {
    var p1, p2 := points[..1], points[..2];
    assert p2[..1] == p1 && p1[..0] == [];
    assert Intended(start, offset, p1) == start[0 := 9.9999992];
    assert Intended(start, offset, p2) == start[0 := 9.9999984];
    assert Dropped(start, offset, p1, 0) == -0.0000008;
    assert Dropped(start, offset, p2, 0) == -0.0000016;
  }

  function BackAndForth(mm: real): Point {
    Point(CoordMode.Absolute, [Some(mm), None, None, None, None, None], 0, 1)
  }

  /** A point that differs from the position before it, but on no axis by the dead band or more, is
      sent with all increments zero: exactly then the motion thread gets a segment of no length. */
  lemma ZeroItems(p: Point, from: Axis, offset: Axis)
    requires Requested(p.mode, p.cmd, from, offset) != from
    ensures var to := Requested(p.mode, p.cmd, from, offset);
      (forall i | 0 <= i < AXIS_NUM :: Increments(p, from, to)[i] == 0.0)
      <==> (p.mode != CoordMode.Increment && forall i | 0 <= i < AXIS_NUM :: Size(to[i] - from[i]) < DEAD_BAND)
  {
    var to := Requested(p.mode, p.cmd, from, offset);
    if p.mode == CoordMode.Increment {
      var i :| 0 <= i < AXIS_NUM && to[i] != from[i];
      assert Increments(p, from, to)[i] != 0.0;
    } else {
      forall i | 0 <= i < AXIS_NUM
        ensures Increments(p, from, to)[i] == 0.0 <==> Size(to[i] - from[i]) < DEAD_BAND
      { }
    }
  }

  /** Such a point. */
  lemma ZeroItemHappens() returns (p: Point, from: Axis, offset: Axis)
    ensures var to := Requested(p.mode, p.cmd, from, offset);
      to != from && forall i | 0 <= i < AXIS_NUM :: Increments(p, from, to)[i] == 0.0
  {
    offset := [0.0, 0.0, 0.0, 0.0, 0.0, 0.0];
    from := offset;
    p := BackAndForth(0.0000000005);
    assert Requested(p.mode, p.cmd, from, offset)[0] == 0.0000005;
  }
}
