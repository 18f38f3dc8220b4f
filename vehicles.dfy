/**
 * The vehicles layer: the groups of vehicles that start at a point, each with its own
 * `removed` flag that mirrors its membership in the layer's list.
 */
module VehicleLayer {
  import opened Lists
  import opened Geom
  import opened Stats
  import opened Moves

  /**
   * `Vehicles.VehicleGroup`. Its `Indicators` object is created for the group alone and never
   * shared, so its five counters are kept on the group itself.
   */
  class VehicleGroup {
    const layer: Vehicles
    var point: Point
    var count: int
    var group: string
    var movements: Movements?
    var removed: bool
    var journeyCount: int
    var routedCount: int
    var unroutedCount: int
    var distance: real
    var time: real

    /** A new group is not in the layer yet: it starts removed. */
    constructor (layer: Vehicles, point: Point, count: int, group: string, movements: Movements?)
      ensures this.layer == layer && this.point == point && this.count == count
      ensures this.group == group && this.movements == movements
      ensures removed && Counters() == NoTally
    {
      this.layer := layer;
      this.point := point;
      this.count := count;
      this.group := group;
      this.movements := movements;
      removed := true;
      journeyCount, routedCount, unroutedCount := 0, 0, 0;
      distance, time := 0.0, 0.0;
    }

    /** The counters of the group's indicators. */
    function Counters(): Tally
      reads this
    {
      Tally(journeyCount, routedCount, unroutedCount, distance, time)
    }

    /** `Indicators.reset`: the five counters back to zero. */
    method ResetIndicators()
      modifies this`journeyCount, this`routedCount, this`unroutedCount, this`distance, this`time
      ensures Counters() == NoTally
    {
      journeyCount, routedCount, unroutedCount := 0, 0, 0;
      distance, time := 0.0, 0.0;
    }

    /** `Indicators.getJourneyAvgTime`: 0 when nothing was routed. */
    function JourneyAvgTime(): (r: real)
      reads this
      ensures routedCount == 0 ==> r == 0.0
      ensures routedCount != 0 ==> r * routedCount as real == time
    {
      AverageMeaning(time, routedCount);
      Average(time, routedCount)
    }

    /** `Indicators.getJourneyAvgDistance`: 0 when nothing was routed. */
    function JourneyAvgDistance(): (r: real)
      reads this
      ensures routedCount == 0 ==> r == 0.0
      ensures routedCount != 0 ==> r * routedCount as real == distance
    {
      AverageMeaning(distance, routedCount);
      Average(distance, routedCount)
    }

    predicate IsRemoved()
      reads this
    {
      removed
    }

    /** `add`: a removed group is appended to the layer's list; otherwise nothing changes. */
    method Add()
      requires layer.Valid() && this in layer.all
      modifies layer`features, this`removed
      ensures layer.Valid() && !removed
      ensures layer.features == if old(removed) then old(layer.features) + [this] else old(layer.features)
    {
      if removed {
        assert this !in layer.features;
        AppendDistinct(layer.features, this);
        layer.features := layer.features + [this];
        removed := false;
      }
    }

    /** `remove`: a group in the layer leaves its list; otherwise nothing changes. */
    method Remove()
      requires layer.Valid() && this in layer.all
      modifies layer`features, this`removed
      ensures layer.Valid() && removed
      ensures layer.features == if old(removed) then old(layer.features) else RemoveFirst(old(layer.features), this)
    {
      if !removed {
        RemoveFirstDistinct(layer.features, this);
        layer.features := RemoveFirst(layer.features, this);
        removed := true;
      }
    }

    /**
     * `duplicate`: a new, removed group of the same layer with the same point, count and
     * group, and a copy of the movements that is equal to them but a different object.
     */
    method Duplicate() returns (copy: VehicleGroup)
      requires layer.Valid()
      modifies layer`all
      ensures fresh(copy) && layer.Valid() && layer.all == old(layer.all) + {copy}
      ensures copy.layer == layer && copy.removed && copy !in layer.features
      ensures copy.point == point && copy.count == count && copy.group == group
      ensures movements == null ==> copy.movements == null
      ensures movements != null ==> copy.movements != null && fresh(copy.movements)
                                    && copy.movements.entries == movements.entries
    {
      var m: Movements? := null;
      if movements != null {
        m := new Movements.Copy(movements);
      }
      copy := new VehicleGroup(layer, point, count, group, m);
      layer.all := layer.all + {copy};
    }
  }

  class Vehicles {
    var features: seq<VehicleGroup>
    /** Every group created for this layer. */
    ghost var all: set<VehicleGroup>

    /** A group is in the list exactly when it is not removed, and at most once. */
    ghost predicate Valid()
      reads this, all
    {
      && (forall g | g in all :: g.layer == this && (g in features <==> !g.removed))
      && (forall g | g in features :: g in all)
      && Distinct(features)
    }

    constructor ()
      ensures Valid() && features == [] && all == {}
    {
      features := [];
      all := {};
    }

    /** `newVehicleGroup`: a new group of this layer, not in the list. */
    method NewVehicleGroup(point: Point, count: int, group: string, movements: Movements?) returns (g: VehicleGroup)
      requires Valid()
      modifies this`all
      ensures Valid() && fresh(g) && all == old(all) + {g}
      ensures g.layer == this && g.removed && g !in features
      ensures g.point == point && g.count == count && g.group == group && g.movements == movements
    {
      g := new VehicleGroup(this, point, count, group, movements);
      all := all + {g};
    }

    /** `getVehicleGroup(index)`: the group at that position of the list. */
    method GetVehicleGroup(index: nat) returns (g: VehicleGroup)
      requires index < |features|
      ensures g in features && g == features[index]
    {
      g := features[index];
    }

    /** `clear`: every group of the list is marked removed, then the list is emptied. */
    method Clear()
      requires Valid()
      modifies this`features, all`removed
      ensures Valid() && features == []
      ensures forall g | g in old(features) :: g.removed
      ensures forall g | g in all :: g.removed
    {
      var i := 0;
      while i < |features|
        invariant i <= |features| && features == old(features) && all == old(all)
        invariant Distinct(features) && forall g | g in features :: g in all
        invariant forall g | g in all :: g.layer == this && (g.removed <==> (g !in features || g in features[..i]))
      {
        var g := features[i];
        assert features[..i + 1] == features[..i] + [g];
        DistinctAt(features, i);
        g.removed := true;
        i := i + 1;
      }
      assert features[..i] == features;
      features := [];
    }
  }

  /** Adding a group twice is adding it once. */
  method AddTwice(g: VehicleGroup)
    requires g.layer.Valid() && g in g.layer.all
    modifies g.layer`features, g`removed
    ensures g.layer.Valid() && !g.removed
    ensures g.layer.features == if old(g.removed) then old(g.layer.features) + [g] else old(g.layer.features)
  {
    g.Add();
    g.Add();
  }

  /** Removing a group twice is removing it once. */
  method RemoveTwice(g: VehicleGroup)
    requires g.layer.Valid() && g in g.layer.all
    modifies g.layer`features, g`removed
    ensures g.layer.Valid() && g.removed
    ensures g.layer.features == if old(g.removed) then old(g.layer.features) else RemoveFirst(old(g.layer.features), g)
  {
    g.Remove();
    g.Remove();
  }

  /** A group that was removed, once added and removed again, leaves the list as it was. */
  method AddThenRemove(g: VehicleGroup)
    requires g.layer.Valid() && g in g.layer.all && g.removed
    modifies g.layer`features, g`removed
    ensures g.layer.Valid() && g.removed && g.layer.features == old(g.layer.features)
  {
    var before := g.layer.features;
    g.Add();
    RemoveAppended(before, g);
    g.Remove();
  }
}
