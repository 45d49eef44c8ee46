/** `GCodeTaskConverter` and the task kinds: from the interpreter's JSON output to a program. */
module GCodeProgram {
  import opened Common

  datatype Node =
    | Undefined | G00(touch: bool) | G01 | CoordMode | CoordIndex(index: int) | EleparamSet(index: int)
    | FeedSpeed | Delay | CoordSetZero | Drill | G01Group | PauseNode | ProgramEnd

  predicate IsMotion(n: Node) { n.G00? || n.G01? || n.Delay? || n.PauseNode? || n.Drill? || n.G01Group? }

  /** Kinds the runner has a branch for in the build without the drill. */
  predicate Executable(n: Node) { !n.Undefined? && !n.Drill? }

  /** One element of the JSON array: not an object, an object whose fields do not have the shape
      its kind needs (a missing key, a wrong type, an unknown kind or mode, fewer than six
      coordinates), or a well-formed command. */
  datatype Entry = NotObject | Malformed | Command(node: Node)

  datatype Converted = Failed | Ignored | Made(node: Node)

  /** `_MakeGCodeTaskFromJsonObject`: a drill command is ignored where there is no drill. */
  function MakeTask(e: Entry): Converted {
    match e
    case Command(node) => if node.Undefined? then Failed else if node.Drill? then Ignored else Made(node)
    case _ => Failed
  }

  /** The well-formed commands of a program, in order, without the ignored ones. */
  ghost function Kept(es: seq<Entry>): seq<Node>
    decreases |es|
  {
    if es == [] then []
    else
      var n := |es| - 1;
      Kept(es[..n]) + (if es[n].Command? && Executable(es[n].node) then [es[n].node] else [])
  }

  predicate Fails(e: Entry) { !e.Command? || e.node.Undefined? }

  /** `MakeGCodeTaskListFromJson`.  Conversion succeeds exactly when the array is not empty and no
      element fails; then the list holds the kept commands in order.  `elements` is None when the
      value is not an array. */
  method MakeTaskList(elements: Option<seq<Entry>>) returns (r: Option<seq<Node>>)
    ensures r.Some? <==> elements.Some? && elements.value != [] && forall e | e in elements.value :: !Fails(e)
    ensures r.Some? ==> r.value == Kept(elements.value)
  {
    if elements.None? || elements.value == [] { return None; }
    var es := elements.value;
    var list := [];
    for i := 0 to |es|
      invariant list == Kept(es[..i])
      invariant forall j | 0 <= j < i :: !Fails(es[j])
    {
      var made := MakeTask(es[i]);
      assert es[..i + 1][..i] == es[..i];
      if made.Failed? {
        assert es[i] in es && Fails(es[i]);
        return None;
      }
      if made.Made? { list := list + [made.node]; }
    }
    assert es[..|es|] == es;
    r := Some(list);
  }

  /** A converted program holds only kinds the runner has a branch for.  It can be empty: exactly
      when every command is a drill command; the runner then reads the last element of an empty
      list. */
  lemma {:induction false} ConvertedPrograms(es: seq<Entry>)
    requires forall e | e in es :: !Fails(e)
    ensures forall n | n in Kept(es) :: Executable(n)
    ensures Kept(es) == [] <==> forall e | e in es :: e.Command? && e.node.Drill?
    decreases |es|
  {
    if es != [] {
      var k := |es| - 1;
      assert es == es[..k] + [es[k]];
      ConvertedPrograms(es[..k]);
    }
  }

  // ----- the check at start

  predicate IndexExists(n: Node, eleparams: set<int>, coords: set<int>) {
    (n.EleparamSet? ==> n.index in eleparams) && (n.CoordIndex? ==> n.index in coords)
  }

  datatype Checked = Passed | Refused | ReadsPastEnd

  /** `_check_gcode_list_at_first`: passed iff all indices exist and the last node is M02; on exactly
      the empty list it reads an element that does not exist. */
  method CheckListAtFirst(list: seq<Node>, eleparams: set<int>, coords: set<int>) returns (r: Checked)
    ensures r == ReadsPastEnd <==> list == []
    ensures list != [] ==> (r == Passed <==> Startable(list, eleparams, coords))
  {
    for i := 0 to |list|
      invariant forall j | 0 <= j < i :: IndexExists(list[j], eleparams, coords)
    {
      if list[i].EleparamSet? {
        if list[i].index !in eleparams {
          assert !IndexExists(list[i], eleparams, coords);
          return Refused;
        }
      } else if list[i].CoordIndex? {
        if list[i].index !in coords {
          assert !IndexExists(list[i], eleparams, coords);
          return Refused;
        }
      }
    }
    if list == [] { return ReadsPastEnd; }
    r := if list[|list| - 1].ProgramEnd? then Passed else Refused;
  }

  predicate Startable(list: seq<Node>, eleparams: set<int>, coords: set<int>)
    requires list != []
  {
    (forall n | n in list :: IndexExists(n, eleparams, coords)) && list[|list| - 1].ProgramEnd?
  }
}
