/** Order facts about products and quotients of reals. */
module RealFacts {

  function Sq(x: real): real { x * x }

  lemma SquarePositive(x: real)
    requires x != 0.0
    ensures Sq(x) > 0.0
    decreases x < 0.0
  {
    if x > 0.0 {
      calc { Sq(x); x * x; > x * 0.0; 0.0; }
    } else {
      SquarePositive(-x);
      assert Sq(-x) == Sq(x);
    }
  }

  lemma SameSquare(n: real, m: real)
    requires n >= 0.0 && m >= 0.0 && Sq(n) == Sq(m)
    ensures n == m
  {
    var a, b := m - n, m + n;
    assert a * b == m * m - n * n;
    assert a * b == 0.0;
    assert a > 0.0 && b > 0.0 ==> a * b > 0.0;
    assert a < 0.0 && b > 0.0 ==> a * b < 0.0;
  }

  lemma ProductMonotone(x: real, y: real, z: real)
    requires x <= y && z >= 0.0
    ensures x * z <= y * z
  { }

  lemma QuotientTimes(x: real, y: real)
    requires y != 0.0
    ensures (x / y) * y == x
  { }

  /** How many whole parts of size `d` fit into `x`. */
  function Parts(x: real, d: real): nat
    requires x >= 0.0 && d > 0.0
  {
    assert x / d >= 0.0;
    (x / d).Floor
  }

  lemma FewerParts(x: real, y: real, d: real)
    requires d > 0.0 && 0.0 <= y <= x - d
    ensures Parts(y, d) < Parts(x, d)
  {
    var q, r := x / d, y / d;
    var e := r - (q - 1.0);
    assert e * d == r * d - q * d + d == y - x + d;
    assert e > 0.0 ==> e * d > 0.0;
    assert r.Floor <= q.Floor - 1;
  }
}

/** Six-axis positions over the reals, lengths and straight lines.

    A position is `axis_t`.  Lengths come from a square root in the program; here a length of a
    vector is any non-negative real whose square is the sum of squares (`IsLength`), and
    `LengthUnique` shows that this pins it down. */
module Axes {
  import opened RealFacts

  const AXIS_NUM: nat := 6

  type Axis = s: seq<real> | |s| == AXIS_NUM witness [0.0, 0.0, 0.0, 0.0, 0.0, 0.0]

  type Index = i: int | 0 <= i < AXIS_NUM witness 0

  // ----- pointwise operations

  function Sub(a: Axis, b: Axis): Axis {
    seq(AXIS_NUM, i requires 0 <= i < AXIS_NUM => a[i] - b[i])
  }

  function Plus(a: Axis, b: Axis): Axis {
    seq(AXIS_NUM, i requires 0 <= i < AXIS_NUM => a[i] + b[i])
  }

  function Scale(a: Axis, k: real): Axis {
    seq(AXIS_NUM, i requires 0 <= i < AXIS_NUM => a[i] * k)
  }

  /** The point reached from `p` after `t` units in direction `d`. */
  function Along(p: Axis, d: Axis, t: real): Axis {
    seq(AXIS_NUM, i requires 0 <= i < AXIS_NUM => p[i] + d[i] * t)
  }

  // ----- lengths

  function SumSqTo(v: Axis, n: nat): real
    requires n <= AXIS_NUM
  {
    if n == 0 then 0.0 else SumSqTo(v, n - 1) + Sq(v[n - 1])
  }

  function SumSq(v: Axis): real { SumSqTo(v, |v|) }

  predicate IsLength(v: Axis, n: real) {
    n >= 0.0 && Sq(n) == SumSq(v)
  }

  predicate IsUnit(v: Axis) { IsLength(v, 1.0) }

  /** `CalcAxisUnitVector`, with the length of `end - begin` handed in. */
  function UnitVector(begin: Axis, end: Axis, n: real): Axis
    requires n != 0.0
  {
    Scale(Sub(end, begin), 1.0 / n)
  }

  lemma LengthUnique(v: Axis, n: real, m: real)
    requires IsLength(v, n) && IsLength(v, m)
    ensures n == m
  {
    SameSquare(n, m);
  }

  lemma {:induction false} SumSqScale(v: Axis, k: real, n: nat)
    requires n <= AXIS_NUM
    ensures SumSqTo(Scale(v, k), n) == Sq(k) * SumSqTo(v, n)
  {
    if n > 0 {
      SumSqScale(v, k, n - 1);
      var x := v[n - 1];
      assert Scale(v, k)[n - 1] == x * k;
      assert Sq(x * k) == Sq(k) * Sq(x);
    }
  }

  lemma {:induction false} SumSqNonNegative(v: Axis, n: nat)
    requires n <= AXIS_NUM
    ensures SumSqTo(v, n) >= 0.0
    ensures SumSqTo(v, n) == 0.0 ==> forall i | 0 <= i < n :: v[i] == 0.0
  {
    if n > 0 {
      SumSqNonNegative(v, n - 1);
      var x := v[n - 1];
      if x != 0.0 { SquarePositive(x); }
    }
  }

  /** Two positions differ exactly when every length between them is positive. */
  lemma DifferentHavePositiveLength(a: Axis, b: Axis, n: real)
    requires IsLength(Sub(b, a), n)
    ensures a != b <==> n > 0.0
  {
    SumSqNonNegative(Sub(b, a), AXIS_NUM);
    if n == 0.0 {
      forall i | 0 <= i < AXIS_NUM ensures a[i] == b[i] {
        assert Sub(b, a)[i] == 0.0;
      }
    } else {
      SquarePositive(n);
      if a == b { ZeroSum(Sub(b, a), AXIS_NUM); }
    }
  }

  lemma {:induction false} ZeroSum(v: Axis, n: nat)
    requires n <= AXIS_NUM && forall i | 0 <= i < n :: v[i] == 0.0
    ensures SumSqTo(v, n) == 0.0
  {
    if n > 0 { ZeroSum(v, n - 1); }
  }

  /** The direction computed from two different points is a unit vector, and following it for
      the whole length ends on the second point. */
  lemma UnitVectorIsUnit(begin: Axis, end: Axis, n: real)
    requires IsLength(Sub(end, begin), n) && n > 0.0
    ensures IsUnit(UnitVector(begin, end, n))
    ensures Along(begin, UnitVector(begin, end, n), n) == end
  {
    var v := Sub(end, begin);
    var k := 1.0 / n;
    assert k * n == 1.0;
    SumSqScale(v, k, AXIS_NUM);
    assert Sq(k) * Sq(n) == Sq(k * n);
    var u := UnitVector(begin, end, n);
    forall i | 0 <= i < AXIS_NUM ensures Along(begin, u, n)[i] == end[i] {
      assert u[i] == (end[i] - begin[i]) * k;
      assert u[i] * n == (end[i] - begin[i]) * (k * n);
    }
  }

  /** Moving `t` along a unit vector is a displacement of length |t|, and recomputing the
      direction from the two end points gives the unit vector back, with the sign of `t`. */
  lemma AlongUnit(p: Axis, d: Axis, t: real, sign: real)
    requires IsUnit(d) && t > 0.0 && (sign == 1.0 || sign == -1.0)
    ensures IsLength(Sub(Along(p, d, sign * t), p), t)
    ensures UnitVector(p, Along(p, d, sign * t), t) == Scale(d, sign)
  {
    var k := sign * t;
    var q := Along(p, d, k);
    assert Sub(q, p) == Scale(d, k);
    SumSqScale(d, k, AXIS_NUM);
    assert Sq(k) == Sq(t);
    forall i | 0 <= i < AXIS_NUM ensures UnitVector(p, q, t)[i] == d[i] * sign {
      Cancel(d[i], sign, t);
    }
  }

  lemma Cancel(x: real, sign: real, t: real)
    requires t > 0.0
    ensures (x * (sign * t)) * (1.0 / t) == x * sign
  {
    var k := 1.0 / t;
    assert t * k == 1.0;
    assert (x * (sign * t)) * k == (x * sign) * (t * k);
  }

  lemma AlongForward(p: Axis, d: Axis, s: real, t: real)
    ensures Along(Along(p, d, s), d, t) == Along(p, d, s + t)
  {
    forall i | 0 <= i < AXIS_NUM ensures Along(Along(p, d, s), d, t)[i] == Along(p, d, s + t)[i] {
      assert d[i] * s + d[i] * t == d[i] * (s + t);
    }
  }

  lemma AlongBack(p: Axis, d: Axis, s: real, t: real)
    ensures Along(Along(p, d, s), d, -t) == Along(p, d, s - t)
  {
    var back := -t;
    forall i | 0 <= i < AXIS_NUM ensures Along(Along(p, d, s), d, back)[i] == Along(p, d, s - t)[i] {
      assert d[i] * s + d[i] * back == d[i] * (s - t);
    }
  }

  lemma AlongReversed(p: Axis, d: Axis, s: real, t: real)
    ensures Along(Along(p, d, s), Scale(d, -1.0), t) == Along(p, d, s - t)
  {
    forall i | 0 <= i < AXIS_NUM
      ensures Along(Along(p, d, s), Scale(d, -1.0), t)[i] == Along(p, d, s - t)[i]
    {
      assert d[i] * s + (d[i] * -1.0) * t == d[i] * (s - t);
    }
  }

  lemma AlongZero(p: Axis, d: Axis)
    ensures Along(p, d, 0.0) == p
  {
    forall i | 0 <= i < AXIS_NUM ensures Along(p, d, 0.0)[i] == p[i] {
      assert d[i] * 0.0 == 0.0;
    }
  }

  /** What the square root of the runtime library is trusted for. */
  ghost predicate IsSqrt(f: real -> real) {
    forall x | x >= 0.0 :: f(x) >= 0.0 && Sq(f(x)) == x
  }

  // ----- loops of MotionUtils

  method CalcAxisLength(sqrt: real -> real, axis: Axis) returns (n: real)
    requires IsSqrt(sqrt)
    ensures IsLength(axis, n)
  {
    var sum := 0.0;
    for i := 0 to AXIS_NUM
      invariant sum == SumSqTo(axis, i)
    {
      sum := sum + Sq(axis[i]);
    }
    SumSqNonNegative(axis, AXIS_NUM);
    n := sqrt(sum);
  }
}
