/**
 * The select tool: how a click or a dragged box changes the selection (replace, union or
 * toggle, chosen by the modifier keys), the attribute changes of the edit dialogs, and
 * their undo records, which keep the old values in a flat list, three per feature.
 */
module Select {
  import opened Selections
  import Network
  import VehicleLayer
  import Places
  import Moves

  /** The three selection modes. */
  datatype Mode = Set | Add | Invert

  /**
   * `setMode`: shift gives ADD, whether or not control is held too; control alone gives
   * INVERT; no modifier gives SET.
   */
  function ModeOf(shift: bool, control: bool): (m: Mode)
    ensures m == Add <==> shift
    ensures m == Invert <==> !shift && control
    ensures m == Set <==> !shift && !control
  {
    if shift then Add else if control then Invert else Set
  }

  function Members<F>(features: seq<F>): set<F> {
    set f | f in features
  }

  /** The selection that `updateSelection` leaves in each mode. */
  function Updated<F>(mode: Mode, s: set<F>, features: seq<F>): set<F> {
    match mode
    case Set => Members(features)
    case Add => s + Members(features)
    case Invert => ToggledAll(s, features)
  }

  /**
   * A click on nothing clears the selection in SET mode and leaves it alone with a modifier;
   * a click on one feature selects just it, adds it, or toggles it.
   */
  lemma ClickOutcome<F>(mode: Mode, s: set<F>, f: F)
    ensures Updated(mode, s, []) == if mode == Set then {} else s
    ensures Updated(mode, s, [f]) == match mode case Set => {f} case Add => s + {f} case Invert => Toggled(s, f)
  {
    assert Members([f]) == {f};
    assert [f][1..] == [];
    assert ToggledAll(s, [f]) == ToggledAll(Toggled(s, f), []) == Toggled(s, f);
  }

  /** Over distinct features, INVERT keeps the selected ones that were not touched and adds the others. */
  lemma InvertIsSymmetricDifference<F>(s: set<F>, features: seq<F>)
    requires forall i, j | 0 <= i < j < |features| :: features[i] != features[j]
    ensures Updated(Invert, s, features) == (s - Members(features)) + (Members(features) - s)
  {
    ToggledAllIsSymmetricDifference(s, features);
  }

  /**
   * Repeating an update: SET and ADD change nothing the second time, and INVERT over distinct
   * features gives the first selection back.
   */
  lemma UpdateTwice<F>(mode: Mode, s: set<F>, features: seq<F>)
    requires forall i, j | 0 <= i < j < |features| :: features[i] != features[j]
    ensures mode != Invert ==> Updated(mode, Updated(mode, s, features), features) == Updated(mode, s, features)
    ensures Updated(Invert, Updated(Invert, s, features), features) == s
  {
    var t := Updated(Invert, s, features);
    ToggledAllIsSymmetricDifference(s, features);
    ToggledAllIsSymmetricDifference(t, features);
  }

  class SelectTool<F(==)> {
    const selection: Selection<F>
    var mode: Mode

    /** The mode field starts at 0, which is SET. */
    constructor (selection: Selection<F>)
      ensures this.selection == selection && mode == Set
    {
      this.selection := selection;
      mode := Set;
    }

    /** `setMode(event)`, with the event's shift and control flags. */
    method SetMode(shift: bool, control: bool)
      modifies this`mode
      ensures mode == ModeOf(shift, control)
    {
      if shift {
        mode := Add;
      } else if control {
        mode := Invert;
      } else {
        mode := Set;
      }
    }

    /** `updateSelection`: `setAll`, `addAll` or `invertAll` of the features, by mode. */
    method UpdateSelection(features: seq<F>)
      modifies selection
      ensures selection.elements == Updated(mode, old(selection.elements), features)
    {
      match mode
      case Set =>
        selection.SetAll(features);
      case Add =>
        var _ := selection.AddAll(features);
      case Invert =>
        selection.InvertAll(features);
    }
  }

  /** `changeEdges`: every edge of the list gets the new speed, lanes and delay. */
  method ChangeEdges(edges: seq<Network.Edge>, speed: int, lanes: int, delay: int)
    modifies set e | e in edges
    ensures forall k | 0 <= k < |edges| :: edges[k].speed == speed && edges[k].lanes == lanes && edges[k].delay == delay
    ensures forall e | e in edges :: e.vertices == old(e.vertices) && e.vehicleCount == old(e.vehicleCount)
    ensures forall e | e in edges :: e.sourceNode == old(e.sourceNode) && e.targetNode == old(e.targetNode)
  {
    var i := 0;
    while i < |edges|
      invariant i <= |edges|
      invariant forall k | 0 <= k < i :: edges[k].speed == speed && edges[k].lanes == lanes && edges[k].delay == delay
      invariant forall e | e in edges :: e.vertices == old(e.vertices) && e.vehicleCount == old(e.vehicleCount)
      invariant forall e | e in edges :: e.sourceNode == old(e.sourceNode) && e.targetNode == old(e.targetNode)
    {
      edges[i].speed := speed;
      edges[i].lanes := lanes;
      edges[i].delay := delay;
      i := i + 1;
    }
  }

  /**
   * `changeVehicleGroups`: every group gets the new count and group name, and a copy of the
   * movements of its own, never shared with another group or with the dialog.
   */
  method ChangeVehicleGroups(groups: seq<VehicleLayer.VehicleGroup>, count: int, group: string, movements: Moves.Movements)
    modifies set g | g in groups
    ensures forall k | 0 <= k < |groups| :: groups[k].count == count && groups[k].group == group
    ensures forall k | 0 <= k < |groups| :: groups[k].movements != null && fresh(groups[k].movements)
                                            && groups[k].movements.entries == movements.entries
    ensures forall j, k | 0 <= j < |groups| && 0 <= k < |groups| && groups[j] != groups[k] ::
              groups[j].movements != groups[k].movements
    ensures forall g | g in groups :: g.point == old(g.point) && g.removed == old(g.removed)
  {
    var i := 0;
    while i < |groups|
      invariant i <= |groups|
      invariant forall k | 0 <= k < i :: groups[k].count == count && groups[k].group == group
      invariant forall k | 0 <= k < i :: groups[k].movements != null && fresh(groups[k].movements)
                                         && groups[k].movements.entries == movements.entries
      invariant forall j, k | 0 <= j < i && 0 <= k < i && groups[j] != groups[k] ::
                  groups[j].movements != groups[k].movements
      invariant forall g | g in groups :: g.point == old(g.point) && g.removed == old(g.removed)
    {
      var copy := new Moves.Movements.Copy(movements);
      groups[i].count := count;
      groups[i].group := group;
      groups[i].movements := copy;
      i := i + 1;
    }
  }

  /** The three values recorded for feature `k`. */
  function Triple<T>(values: seq<T>, k: nat): seq<T>
    requires 3 * k + 3 <= |values|
  {
    values[3 * k..3 * k + 3]
  }

  /** The loop of the `UndoEdges` constructor: speed, lanes and delay of each edge, in edge order. */
  method RecordEdges(edges: seq<Network.Edge>) returns (values: seq<int>)
    ensures |values| == 3 * |edges|
    ensures forall k | 0 <= k < |edges| :: Triple(values, k) == [edges[k].speed, edges[k].lanes, edges[k].delay]
  {
    values := [];
    var i := 0;
    while i < |edges|
      invariant i <= |edges| && |values| == 3 * i
      invariant forall k | 0 <= k < i :: Triple(values, k) == [edges[k].speed, edges[k].lanes, edges[k].delay]
    {
      var before := values;
      values := values + [edges[i].speed, edges[i].lanes, edges[i].delay];
      forall k | 0 <= k < i ensures Triple(values, k) == Triple(before, k) {
        assert values[..3 * i] == before;
      }
      i := i + 1;
    }
  }

  /** `UndoEdges`: the old speed, lanes and delay of the edges, and the new ones. */
  class UndoEdges {
    var edges: seq<Network.Edge>
    var values: seq<int>
    const speed: int
    const lanes: int
    const delay: int

    /** Three values per edge, and an edge listed twice has the same values both times. */
    ghost predicate Valid()
      reads this
    {
      && |values| == 3 * |edges|
      && forall j, k | 0 <= j < |edges| && 0 <= k < |edges| && edges[j] == edges[k] :: Triple(values, j) == Triple(values, k)
    }

    constructor (edges: seq<Network.Edge>, speed: int, lanes: int, delay: int)
      ensures Valid() && this.edges == edges
      ensures this.speed == speed && this.lanes == lanes && this.delay == delay
      ensures forall k | 0 <= k < |edges| :: Triple(values, k) == [edges[k].speed, edges[k].lanes, edges[k].delay]
    {
      var recorded := RecordEdges(edges);
      this.edges := edges;
      this.speed := speed;
      this.lanes := lanes;
      this.delay := delay;
      values := recorded;
    }

    /** `undo`: every edge gets back the values recorded for it. */
    method Undo()
      requires Valid()
      modifies set e | e in edges
      ensures forall k | 0 <= k < |edges| :: [edges[k].speed, edges[k].lanes, edges[k].delay] == Triple(values, k)
      ensures forall e | e in edges :: e.vertices == old(e.vertices) && e.vehicleCount == old(e.vehicleCount)
      ensures forall e | e in edges :: e.sourceNode == old(e.sourceNode) && e.targetNode == old(e.targetNode)
    {
      var i := 0;
      var j := 0;
      while j < |edges|
        invariant j <= |edges| && i == 3 * j
        invariant forall k | 0 <= k < j :: [edges[k].speed, edges[k].lanes, edges[k].delay] == Triple(values, k)
        invariant forall e | e in edges :: e.vertices == old(e.vertices) && e.vehicleCount == old(e.vehicleCount)
        invariant forall e | e in edges :: e.sourceNode == old(e.sourceNode) && e.targetNode == old(e.targetNode)
      {
        var edge := edges[j];
        edge.speed := values[i];
        edge.lanes := values[i + 1];
        edge.delay := values[i + 2];
        assert [edge.speed, edge.lanes, edge.delay] == Triple(values, j);
        i := i + 3;
        j := j + 1;
      }
    }

    /** `redo`: `changeEdges` with the new values. */
    method Redo()
      modifies set e | e in edges
      ensures forall k | 0 <= k < |edges| :: edges[k].speed == speed && edges[k].lanes == lanes && edges[k].delay == delay
      ensures forall e | e in edges :: e.vertices == old(e.vertices) && e.vehicleCount == old(e.vehicleCount)
      ensures forall e | e in edges :: e.sourceNode == old(e.sourceNode) && e.targetNode == old(e.targetNode)
    {
      ChangeEdges(edges, speed, lanes, delay);
    }

    /** `die`: both lists are emptied. */
    method Die()
      modifies this`edges, this`values
      ensures Valid() && edges == [] && values == []
    {
      edges := [];
      values := [];
    }
  }

  /** `UndoLocation`: a location's old and new name, label and origin flag. */
  class UndoLocation {
    const location: Places.Location
    const name: string
    const caption: string
    const origin: bool
    const oldName: string
    const oldCaption: string
    const oldOrigin: bool

    /** The old values are read from the location when the record is made. */
    constructor (location: Places.Location, name: string, caption: string, origin: bool)
      ensures this.location == location && this.name == name && this.caption == caption && this.origin == origin
      ensures oldName == location.name && oldCaption == location.caption && oldOrigin == location.origin
    {
      this.location := location;
      this.name := name;
      this.caption := caption;
      this.origin := origin;
      oldName := location.name;
      oldCaption := location.caption;
      oldOrigin := location.origin;
    }

    /** `undo`: the old name, label and origin flag; the point stays. */
    method Undo()
      modifies location
      ensures location.name == oldName && location.caption == oldCaption && location.origin == oldOrigin
      ensures location.point == old(location.point)
    {
      location.name := oldName;
      location.caption := oldCaption;
      location.origin := oldOrigin;
    }

    /** `redo`: the new name, label and origin flag; the point stays. */
    method Redo()
      modifies location
      ensures location.name == name && location.caption == caption && location.origin == origin
      ensures location.point == old(location.point)
    {
      location.name := name;
      location.caption := caption;
      location.origin := origin;
    }
  }

  /** An element of the untyped list of `UndoVehicleGroups`: a count, a group name or movements. */
  datatype Value = Count(n: int) | Name(s: string) | Journeys(m: Moves.Movements?)

  /** The loop of the `UndoVehicleGroups` constructor: count, group and movements of each group. */
  method RecordGroups(groups: seq<VehicleLayer.VehicleGroup>) returns (values: seq<Value>)
    ensures |values| == 3 * |groups|
    ensures forall k | 0 <= k < |groups| ::
      Triple(values, k) == [Count(groups[k].count), Name(groups[k].group), Journeys(groups[k].movements)]
  {
    values := [];
    var i := 0;
    while i < |groups|
      invariant i <= |groups| && |values| == 3 * i
      invariant forall k | 0 <= k < i ::
        Triple(values, k) == [Count(groups[k].count), Name(groups[k].group), Journeys(groups[k].movements)]
    {
      var before := values;
      values := values + [Count(groups[i].count), Name(groups[i].group), Journeys(groups[i].movements)];
      forall k | 0 <= k < i ensures Triple(values, k) == Triple(before, k) {
        assert values[..3 * i] == before;
      }
      i := i + 1;
    }
  }

  /** `UndoVehicleGroups`: the old count, group and movements of the groups, and the new ones. */
  class UndoVehicleGroups {
    var groups: seq<VehicleLayer.VehicleGroup>
    var values: seq<Value>
    const count: int
    const group: string
    const movements: Moves.Movements

    /** Three values per group of the right kinds, equal for a group listed twice. */
    ghost predicate Valid()
      reads this
    {
      && |values| == 3 * |groups|
      && (forall k | 0 <= k < |groups| :: values[3 * k].Count? && values[3 * k + 1].Name? && values[3 * k + 2].Journeys?)
      && forall j, k | 0 <= j < |groups| && 0 <= k < |groups| && groups[j] == groups[k] :: Triple(values, j) == Triple(values, k)
    }

    constructor (groups: seq<VehicleLayer.VehicleGroup>, count: int, group: string, movements: Moves.Movements)
      ensures Valid() && this.groups == groups
      ensures this.count == count && this.group == group && this.movements == movements
      ensures forall k | 0 <= k < |groups| ::
        Triple(values, k) == [Count(groups[k].count), Name(groups[k].group), Journeys(groups[k].movements)]
    {
      var recorded := RecordGroups(groups);
      this.groups := groups;
      this.count := count;
      this.group := group;
      this.movements := movements;
      values := recorded;
      new;
      forall k | 0 <= k < |groups| ensures values[3 * k].Count? && values[3 * k + 1].Name? && values[3 * k + 2].Journeys? {
        assert Triple(values, k)[0] == values[3 * k];
      }
    }

    /** `undo`: every group gets back its count, its group and the very movements object it had. */
    method Undo()
      requires Valid()
      modifies set g | g in groups
      ensures forall k | 0 <= k < |groups| ::
        [Count(groups[k].count), Name(groups[k].group), Journeys(groups[k].movements)] == Triple(values, k)
      ensures forall g | g in groups :: g.point == old(g.point) && g.removed == old(g.removed)
    {
      var i := 0;
      var j := 0;
      while j < |groups|
        invariant j <= |groups| && i == 3 * j
        invariant forall k | 0 <= k < j ::
          [Count(groups[k].count), Name(groups[k].group), Journeys(groups[k].movements)] == Triple(values, k)
        invariant forall g | g in groups :: g.point == old(g.point) && g.removed == old(g.removed)
      {
        var g := groups[j];
        g.count := values[i].n;
        g.group := values[i + 1].s;
        g.movements := values[i + 2].m;
        assert [Count(g.count), Name(g.group), Journeys(g.movements)] == Triple(values, j);
        i := i + 3;
        j := j + 1;
      }
    }

    /** `redo`: `changeVehicleGroups` with the new values, each group with its own copy. */
    method Redo()
      modifies set g | g in groups
      ensures forall k | 0 <= k < |groups| :: groups[k].count == count && groups[k].group == group
      ensures forall k | 0 <= k < |groups| :: groups[k].movements != null && fresh(groups[k].movements)
                                              && groups[k].movements.entries == movements.entries
      ensures forall j, k | 0 <= j < |groups| && 0 <= k < |groups| && groups[j] != groups[k] ::
                groups[j].movements != groups[k].movements
      ensures forall g | g in groups :: g.point == old(g.point) && g.removed == old(g.removed)
    {
      ChangeVehicleGroups(groups, count, group, movements);
    }

    /** `die`: both lists are emptied. */
    method Die()
      modifies this`groups, this`values
      ensures Valid() && groups == [] && values == []
    {
      groups := [];
      values := [];
    }
  }
}
