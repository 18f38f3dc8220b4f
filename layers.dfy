/**
 * A generic layer: background features of any geometry, each with a `removed` flag that
 * mirrors its membership in the layer's list.
 */
module GenericLayers {
  import opened Lists
  import opened Geom

  class GenericFeature {
    const layer: GenericLayer
    var geometry: Geometry
    var removed: bool

    /** A new feature is not in the layer yet: it starts removed. */
    constructor (layer: GenericLayer, geometry: Geometry)
      ensures this.layer == layer && this.geometry == geometry && removed
    {
      this.layer := layer;
      this.geometry := geometry;
      removed := true;
    }

    predicate IsRemoved()
      reads this
    {
      removed
    }

    /** `add`: a removed feature is appended to the layer's list; otherwise nothing changes. */
    method Add()
      requires layer.Valid() && this in layer.all
      modifies layer`features, this`removed
      ensures layer.Valid() && !removed
      ensures layer.features == if old(removed) then old(layer.features) + [this] else old(layer.features)
    {
      if removed {
        assert this !in layer.features;
        AppendDistinct(layer.features, this);
        layer.features := layer.features + [this];
        removed := false;
      }
    }

    /** `remove`: a feature in the layer leaves its list; otherwise nothing changes. */
    method Remove()
      requires layer.Valid() && this in layer.all
      modifies layer`features, this`removed
      ensures layer.Valid() && removed
      ensures layer.features == if old(removed) then old(layer.features) else RemoveFirst(old(layer.features), this)
    {
      if !removed {
        RemoveFirstDistinct(layer.features, this);
        layer.features := RemoveFirst(layer.features, this);
        removed := true;
      }
    }
  }

  class GenericLayer {
    /** `label` (a keyword here). */
    var caption: string
    var features: seq<GenericFeature>
    /** Every feature created for this layer. */
    ghost var all: set<GenericFeature>

    /** A feature is in the list exactly when it is not removed, and at most once. */
    ghost predicate Valid()
      reads this, all
    {
      && (forall f | f in all :: f.layer == this && (f in features <==> !f.removed))
      && (forall f | f in features :: f in all)
      && Distinct(features)
    }

    /** A new layer with its label and no features. */
    constructor (caption: string)
      ensures Valid() && this.caption == caption && features == [] && all == {}
    {
      this.caption := caption;
      features := [];
      all := {};
    }

    /** `newFeature`: a new feature of this layer, not in the list. */
    method NewFeature(geometry: Geometry) returns (f: GenericFeature)
      requires Valid()
      modifies this`all
      ensures Valid() && fresh(f) && all == old(all) + {f}
      ensures f.layer == this && f.geometry == geometry && f.removed && f !in features
    {
      f := new GenericFeature(this, geometry);
      all := all + {f};
    }

    /** `clear`: every feature of the list is marked removed, then the list is emptied. */
    method Clear()
      requires Valid()
      modifies this`features, all`removed
      ensures Valid() && features == []
      ensures forall f | f in old(features) :: f.removed
      ensures forall f | f in all :: f.removed
    {
      var i := 0;
      while i < |features|
        invariant i <= |features| && features == old(features) && all == old(all)
        invariant Distinct(features) && forall f | f in features :: f in all
        invariant forall f | f in all :: f.layer == this && (f.removed <==> (f !in features || f in features[..i]))
      {
        var f := features[i];
        assert features[..i + 1] == features[..i] + [f];
        DistinctAt(features, i);
        f.removed := true;
        i := i + 1;
      }
      assert features[..i] == features;
      features := [];
    }
  }

  /** Adding a feature twice is adding it once. */
  method AddTwice(f: GenericFeature)
    requires f.layer.Valid() && f in f.layer.all
    modifies f.layer`features, f`removed
    ensures f.layer.Valid() && !f.removed
    ensures f.layer.features == if old(f.removed) then old(f.layer.features) + [f] else old(f.layer.features)
  {
    f.Add();
    f.Add();
  }

  /** Removing a feature twice is removing it once. */
  method RemoveTwice(f: GenericFeature)
    requires f.layer.Valid() && f in f.layer.all
    modifies f.layer`features, f`removed
    ensures f.layer.Valid() && f.removed
    ensures f.layer.features == if old(f.removed) then old(f.layer.features) else RemoveFirst(old(f.layer.features), f)
  {
    f.Remove();
    f.Remove();
  }
}

/** The locations layer: named origin and destination points, looked up by name. */
module Places {
  import opened Lists
  import opened Geom

  /** `Location`: a named point that is either an origin or a destination of journeys. */
  class Location {
    var name: string
    /** `label` (a keyword here). */
    var caption: string
    var point: Point
    var origin: bool

    constructor (name: string, caption: string, point: Point, origin: bool)
      ensures this.name == name && this.caption == caption && this.point == point && this.origin == origin
    {
      this.name := name;
      this.caption := caption;
      this.point := point;
      this.origin := origin;
    }

    /** `isDestination`: every location that is not an origin. */
    predicate IsDestination()
      reads this
    {
      !origin
    }
  }

  class Locations {
    var features: seq<Location>

    constructor ()
      ensures features == []
    {
      features := [];
    }

    /**
     * `getLocation(name)`: the first location of the list with that name, and `null` exactly
     * when no location has it.
     */
    method GetLocation(name: string) returns (location: Location?)
      ensures location == null <==> forall l | l in features :: l.name != name
      ensures location != null ==> exists i | 0 <= i < |features| ::
        && features[i] == location && location.name == name
        && forall k | 0 <= k < i :: features[k].name != name
    {
      var i := 0;
      while i < |features|
        invariant i <= |features|
        invariant forall k | 0 <= k < i :: features[k].name != name
      {
        if features[i].name == name {
          return features[i];
        }
        i := i + 1;
      }
      return null;
    }

    /** `add`: the location is appended, even when it is already in the list. */
    method Add(location: Location)
      modifies this
      ensures features == old(features) + [location]
    {
      features := features + [location];
    }

    /** `remove`: the first occurrence leaves the list; the result says whether there was one. */
    method Remove(location: Location) returns (found: bool)
      modifies this
      ensures found == (location in old(features))
      ensures features == RemoveFirst(old(features), location)
    {
      found := location in features;
      features := RemoveFirst(features, location);
    }

    /** `clear`: no locations. */
    method Clear()
      modifies this
      ensures features == []
    {
      features := [];
    }
  }
}
