/** Saving and loading a coordinate manager as JSON; lengths are stored in mm. */
module CoordinateJson {
  import opened Common
  import opened Axes
  import opened SoftLimit
  import opened Coordinates

  datatype Json =
    | JNull | JBool(b: bool) | JNumber(r: real) | JString(s: string)
    | JArray(a: seq<Json>) | JObject(o: map<string, Json>)

  // ----- saving

  function Vector(v: Axis): Json {
    JArray(seq(AXIS_NUM, i requires 0 <= i < AXIS_NUM => JNumber(v[i] / BLU_PER_MM)))
  }

  function CoordToJson(c: Coord): Json {
    JObject(map["index" := JNumber(c.index as real), "offset" := Vector(c.offset)])
  }

  /** The map is written in whatever order its container enumerates the keys. */
  function ToJson(m: Manager, order: seq<nat>): Json
    requires forall k | k in order :: k in m.coords
  {
    JObject(map[
      "global_offset" := Vector(m.global),
      "coord_offsets" := JArray(seq(|order|, i requires 0 <= i < |order| => CoordToJson(m.coords[order[i]]))),
      "soft_limit" := JObject(map["pos" := Vector(m.limits.pos), "neg" := Vector(m.limits.neg)])])
  }

  // ----- the checks

  predicate HasIndex(o: map<string, Json>) {
    "index" in o && o["index"].JNumber? && o["index"].r >= 0.0 && o["index"].r == o["index"].r.Floor as real
  }

  predicate HasVector(o: map<string, Json>, key: string) {
    key in o && o[key].JArray? && |o[key].a| >= AXIS_NUM && forall x | x in o[key].a :: x.JNumber?
  }

  predicate IsCoord(j: Json) { j.JObject? && HasIndex(j.o) && HasVector(j.o, "offset") }

  /** The index as it is kept, in 32 bits. */
  function IndexOf(j: Json): nat
    requires IsCoord(j)
  {
    Word(j.o["index"].r.Floor)
  }

  ghost predicate WellFormed(j: Json) {
    && j.JObject?
    && HasVector(j.o, "global_offset")
    && "coord_offsets" in j.o && CoordList(j.o["coord_offsets"])
    && "soft_limit" in j.o && LimitsOk(j.o["soft_limit"])
  }

  ghost predicate CoordList(j: Json) {
    && j.JArray? && j.a != []
    && (forall x | x in j.a :: IsCoord(x))
    && (forall i, k | 0 <= i < k < |j.a| :: IndexOf(j.a[i]) != IndexOf(j.a[k]))
  }

  ghost predicate LimitsOk(j: Json) {
    && j.JObject? && HasVector(j.o, "pos") && HasVector(j.o, "neg")
    && forall i | 0 <= i < AXIS_NUM :: j.o["pos"].a[i].r >= j.o["neg"].a[i].r
  }

  /** `check_json`, with its set of indices seen so far. */
  method CheckJson(j: Json) returns (ok: bool)
    ensures ok <==> WellFormed(j)
  {
    if !j.JObject? || !HasVector(j.o, "global_offset") || "coord_offsets" !in j.o || !j.o["coord_offsets"].JArray? {
      return false;
    }
    ok := CheckCoords(j.o["coord_offsets"].a);
    if !ok || "soft_limit" !in j.o { return false; }
    var sl := j.o["soft_limit"];
    if !sl.JObject? || !HasVector(sl.o, "pos") || !HasVector(sl.o, "neg") { return false; }
    for i := 0 to AXIS_NUM
      invariant forall k | 0 <= k < i :: sl.o["pos"].a[k].r >= sl.o["neg"].a[k].r
    {
      if sl.o["pos"].a[i].r < sl.o["neg"].a[i].r { return false; }
    }
  }

  method CheckCoords(a: seq<Json>) returns (ok: bool)
    ensures ok <==> CoordList(JArray(a))
  {
    if a == [] { return false; }
    var seen: set<nat> := {};
    for i := 0 to |a|
      invariant forall k | 0 <= k < i :: IsCoord(a[k])
      invariant forall n :: n in seen <==> exists k | 0 <= k < i :: IndexOf(a[k]) == n
      invariant forall k, l | 0 <= k < l < i :: IndexOf(a[k]) != IndexOf(a[l])
    {
      if !IsCoord(a[i]) { return false; }
      if IndexOf(a[i]) in seen { return false; }
      seen := seen + {IndexOf(a[i])};
    }
    ok := true;
  }

  // ----- loading

  function AxisOf(j: Json): Axis
    requires j.JArray? && |j.a| >= AXIS_NUM && forall x | x in j.a :: x.JNumber?
  {
    seq(AXIS_NUM, i requires 0 <= i < AXIS_NUM => j.a[i].r * BLU_PER_MM)
  }

  function CoordOf(j: Json): Coord
    requires IsCoord(j)
  {
    Coord(IndexOf(j), AxisOf(j.o["offset"]))
  }

  /** The coordinates of a list, by index. */
  ghost function Collected(a: seq<Json>): map<nat, Coord>
    requires forall x | x in a :: IsCoord(x)
    decreases |a|
  {
    if a == [] then map[]
    else
      var n := |a| - 1;
      Collected(a[..n])[IndexOf(a[n]) := CoordOf(a[n])]
  }

  ghost function Loaded(j: Json): Manager
    requires WellFormed(j)
  {
    Manager(AxisOf(j.o["global_offset"]), Collected(j.o["coord_offsets"].a),
            Limits(AxisOf(j.o["soft_limit"].o["pos"]), AxisOf(j.o["soft_limit"].o["neg"])))
  }

  lemma {:induction false} CollectedKeys(a: seq<Json>, n: nat)
    requires (forall x | x in a :: IsCoord(x)) && n <= |a|
    ensures forall k :: k in Collected(a[..n]) <==> exists i | 0 <= i < n :: IndexOf(a[i]) == k
    ensures forall k | k in Collected(a[..n]) :: Collected(a[..n])[k].index == k
  {
    if n > 0 {
      CollectedKeys(a, n - 1);
      assert a[..n][..n - 1] == a[..n - 1] && a[..n][n - 1] == a[n - 1];
    }
  }

  /** `from_json` on a checked value always succeeds: no index is met twice and the limits are
      ordered in blu as they are in mm. */
  method FromJson(j: Json, cm: CoordinateManager) returns (ok: bool)
    requires WellFormed(j) && cm.Valid()
    modifies cm
    ensures ok && cm.Valid() && cm.Value() == Loaded(j)
  {
    var a := j.o["coord_offsets"].a;
    var coords: map<nat, Coord> := map[];
    for i := 0 to |a|
      invariant coords == Collected(a[..i]) && cm.Valid()
    {
      var c := CoordOf(a[i]);
      CollectedKeys(a, i);
      assert a[..i + 1][..i] == a[..i];
      if c.index in coords {
        assert false;
        return false;
      }
      coords := coords[c.index := c];
    }
    assert a[..|a|] == a;
    var sl := j.o["soft_limit"].o;
    cm.SetCoordinatesMap(map[]);
    cm.SetGlobalOffset(AxisOf(j.o["global_offset"]));
    cm.SetCoordinatesMap(coords);
    ok := cm.SetSoftLimits(Limits(AxisOf(sl["pos"]), AxisOf(sl["neg"])));
  }

  // ----- round trip

  /** A manager that can be stored: at least one coordinate system, each under its own 32-bit index,
      and ordered limits. */
  ghost predicate Storable(m: Manager) {
    && m.coords != map[] && Ordered(m.limits)
    && forall k | k in m.coords :: m.coords[k].index == k && k < WORD
  }

  /** An order in which the map can be enumerated. */
  ghost predicate Enumerates(order: seq<nat>, m: Manager) {
    && (forall k :: k in order <==> k in m.coords)
    && (forall i, k | 0 <= i < k < |order| :: order[i] != order[k])
  }

  lemma VectorBack(v: Axis)
    ensures AxisOf(Vector(v)) == v
  {
    forall i | 0 <= i < AXIS_NUM ensures AxisOf(Vector(v))[i] == v[i] {
      assert (v[i] / BLU_PER_MM) * BLU_PER_MM == v[i];
    }
  }

  lemma CoordBack(c: Coord)
    requires c.index < WORD
    ensures IsCoord(CoordToJson(c)) && CoordOf(CoordToJson(c)) == c
  {
    VectorBack(c.offset);
    assert (c.index as real).Floor == c.index;
  }

  ghost predicate OwnIndex(coords: map<nat, Coord>, k: nat) { k in coords && coords[k].index == k && k < WORD }

  /** `part` is `coords` cut down to the keys in `keys`. */
  ghost predicate CutDown(part: map<nat, Coord>, coords: map<nat, Coord>, keys: seq<nat>) {
    && (forall k | k in part :: k in keys && k in coords && part[k] == coords[k])
    && (forall k | k in keys :: k in part)
  }

  /** What the first `n` written coordinates add up to. */
  lemma {:induction false} CollectedBack(coords: map<nat, Coord>, order: seq<nat>, a: seq<Json>, n: nat)
    requires |a| == |order| && n <= |a|
    requires forall i | 0 <= i < |order| :: OwnIndex(coords, order[i]) && a[i] == CoordToJson(coords[order[i]])
    requires forall x | x in a :: IsCoord(x)
    ensures CutDown(Collected(a[..n]), coords, order[..n])
  {
    if n > 0 {
      CollectedBack(coords, order, a, n - 1);
      var k := order[n - 1];
      assert OwnIndex(coords, k);
      CoordBack(coords[k]);
      CollectedLast(a, n - 1);
      assert order[..n] == order[..n - 1] + [k];
      CutDownMore(Collected(a[..n - 1]), coords, order[..n - 1], k);
    }
  }

  lemma CutDownMore(part: map<nat, Coord>, coords: map<nat, Coord>, keys: seq<nat>, k: nat)
    requires CutDown(part, coords, keys) && k in coords
    ensures CutDown(part[k := coords[k]], coords, keys + [k])
  { }

  lemma CollectedLast(a: seq<Json>, n: nat)
    requires n < |a| && forall x | x in a :: IsCoord(x)
    ensures Collected(a[..n + 1]) == Collected(a[..n])[IndexOf(a[n]) := CoordOf(a[n])]
  {
    assert a[..n + 1][..n] == a[..n] && a[..n + 1][n] == a[n];
  }

  lemma SavedCoords(m: Manager, order: seq<nat>, a: seq<Json>)
    requires Storable(m) && Enumerates(order, m) && |a| == |order|
    requires forall i | 0 <= i < |order| :: order[i] in m.coords && a[i] == CoordToJson(m.coords[order[i]])
    ensures CoordList(JArray(a)) && Collected(a) == m.coords
  {
    forall i | 0 <= i < |a| ensures IsCoord(a[i]) && IndexOf(a[i]) == order[i] && OwnIndex(m.coords, order[i]) {
      CoordBack(m.coords[order[i]]);
    }
    CollectedBack(m.coords, order, a, |a|);
    assert a[..|a|] == a && order[..|order|] == order;
    AllOfIt(Collected(a), m, order);
  }

  lemma AllOfIt(part: map<nat, Coord>, m: Manager, order: seq<nat>)
    requires CutDown(part, m.coords, order) && Enumerates(order, m)
    ensures part == m.coords
  { }

  /** Whatever order the container enumerates its keys in, a stored manager passes the check and is
      restored exactly. */
  lemma RoundTrip(m: Manager, order: seq<nat>)
    requires Storable(m) && Enumerates(order, m)
    ensures WellFormed(ToJson(m, order)) && Loaded(ToJson(m, order)) == m
  {
    SavedCoords(m, order, ToJson(m, order).o["coord_offsets"].a);
    VectorBack(m.global);
    VectorBack(m.limits.pos);
    VectorBack(m.limits.neg);
  }

  /** What a file says: millimetres, under their names, and each coordinate system with its index. */
  lemma FileContent(m: Manager, order: seq<nat>, i: int, k: nat)
    requires Storable(m) && Enumerates(order, m) && 0 <= i < AXIS_NUM && k < |order|
    ensures var o := ToJson(m, order).o;
      && o["global_offset"].a[i].r * 1000.0 == m.global[i]
      && o["soft_limit"].o["pos"].a[i].r * 1000.0 == m.limits.pos[i]
      && o["soft_limit"].o["neg"].a[i].r * 1000.0 == m.limits.neg[i]
      && o["coord_offsets"].a[k].o["index"].r == order[k] as real
      && o["coord_offsets"].a[k].o["offset"].a[i].r * 1000.0 == m.coords[order[k]].offset[i]
  {
    assert order[k] in order;
  }

  /** And whatever is loaded can be stored again. */
  lemma LoadedIsStorable(j: Json)
    requires WellFormed(j)
    ensures Storable(Loaded(j))
  {
    var a := j.o["coord_offsets"].a;
    CollectedKeys(a, |a|);
    assert a[..|a|] == a;
    assert IndexOf(a[0]) in Collected(a);
    var sl := j.o["soft_limit"].o;
    forall i | 0 <= i < AXIS_NUM ensures AxisOf(sl["pos"])[i] >= AxisOf(sl["neg"])[i] { }
  }

  /** A manager without any coordinate system is written to a file that is refused. */
  lemma EmptyIsRefused(m: Manager)
    requires m.coords == map[]
    ensures !WellFormed(ToJson(m, []))
  { }
}
