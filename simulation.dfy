/**
 * `Simulation`: the list of map layers, whose first three places hold the road graph, the
 * locations and the vehicles and whose later places hold generic layers; the journey groups
 * by name; and the simulation-wide indicators.
 */
module Sim {
  import Network
  import Places
  import VehicleLayer
  import GenericLayers
  import Summary
  import Groups

  /** A layer of the list, told apart by its kind. */
  datatype Layer =
    | RoadLayer(graph: Network.RoadGraph)
    | LocationsLayer(locations: Places.Locations)
    | VehiclesLayer(vehicles: VehicleLayer.Vehicles)
    | GenericLayer(layer: GenericLayers.GenericLayer)

  /** Only generic layers follow the first three places. */
  predicate GenericFrom(ls: seq<Layer>, from: nat) {
    forall i | from <= i < |ls| :: ls[i].GenericLayer?
  }

  class Simulation {
    var layers: seq<Layer>
    var groups: map<string, Groups.Group>
    const indicators: Summary.Indicators

    /** The fixed roles of places 0, 1 and 2, which no method of the class changes. */
    predicate Roles()
      reads this
    {
      && |layers| >= 3
      && layers[0].RoadLayer? && layers[1].LocationsLayer? && layers[2].VehiclesLayer?
      && GenericFrom(layers, 3)
    }

    /** A new simulation has an empty road graph, locations and vehicles, and nothing else. */
    constructor ()
      ensures Roles() && |layers| == 3 && groups == map[]
      ensures fresh(layers[0].graph) && layers[0].graph.Valid() && layers[0].graph.edges == []
      ensures fresh(layers[1].locations) && layers[1].locations.features == []
      ensures fresh(layers[2].vehicles) && layers[2].vehicles.Valid() && layers[2].vehicles.features == []
      ensures fresh(indicators)
    {
      var g := new Network.RoadGraph();
      var l := new Places.Locations();
      var v := new VehicleLayer.Vehicles();
      layers := [RoadLayer(g), LocationsLayer(l), VehiclesLayer(v)];
      groups := map[];
      indicators := new Summary.Indicators();
    }

    /** `getRoadGraph`: the layer at place 0. */
    function RoadGraph(): Network.RoadGraph
      requires Roles()
      reads this
    {
      layers[0].graph
    }

    /** `getLocations`: the layer at place 1. */
    function Locations(): Places.Locations
      requires Roles()
      reads this
    {
      layers[1].locations
    }

    /** `getVehicles`: the layer at place 2. */
    function Vehicles(): VehicleLayer.Vehicles
      requires Roles()
      reads this
    {
      layers[2].vehicles
    }

    /** `getLayerCount`: the number of layers, never fewer than the three fixed ones. */
    method GetLayerCount() returns (count: nat)
      requires Roles()
      ensures count == |layers| && count >= 3
    {
      count := |layers|;
    }

    /** `addGenericLayer`: the layer is appended after every other. */
    method AddGenericLayer(layer: GenericLayers.GenericLayer)
      requires Roles()
      modifies this`layers
      ensures Roles() && layers == old(layers) + [GenericLayer(layer)]
    {
      layers := layers + [GenericLayer(layer)];
    }

    /** `getGenericLayers`: the layers from place 3 on, in order. */
    method GetGenericLayers() returns (generic: seq<GenericLayers.GenericLayer>)
      requires Roles()
      ensures |generic| == |layers| - 3
      ensures forall k | 0 <= k < |generic| :: layers[k + 3] == GenericLayer(generic[k])
    {
      generic := [];
      var i := 3;
      while i < |layers|
        invariant 3 <= i <= |layers| && |generic| == i - 3
        invariant forall k | 0 <= k < |generic| :: layers[k + 3] == GenericLayer(generic[k])
      {
        generic := generic + [layers[i].layer];
        i := i + 1;
      }
    }

    /** `clearGenericLayers`: the last layer is dropped until only the three fixed ones are left. */
    method ClearGenericLayers()
      requires Roles()
      modifies this`layers
      ensures Roles() && layers == old(layers)[..3]
    {
      while |layers| > 3
        invariant 3 <= |layers| <= |old(layers)| && layers == old(layers)[..|layers|]
        decreases |layers|
      {
        layers := layers[..|layers| - 1];
      }
    }
  }

  /** A generic layer just added is the last of the generic layers. */
  method AddedIsLast(s: Simulation, layer: GenericLayers.GenericLayer) returns (generic: seq<GenericLayers.GenericLayer>)
    requires s.Roles()
    modifies s`layers
    ensures s.Roles() && |generic| == |old(s.layers)| - 2 && generic[|generic| - 1] == layer
  {
    s.AddGenericLayer(layer);
    generic := s.GetGenericLayers();
  }

  /** After `clearGenericLayers` there are no generic layers. */
  method ClearedHasNone(s: Simulation) returns (generic: seq<GenericLayers.GenericLayer>)
    requires s.Roles()
    modifies s`layers
    ensures s.Roles() && generic == [] && |s.layers| == 3
  {
    s.ClearGenericLayers();
    generic := s.GetGenericLayers();
  }
}
