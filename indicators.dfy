/**
 * `Indicators`: the simulation-wide totals over the vehicle groups, the busiest edge's
 * vehicle count and the averages per routed journey.
 */
module Summary {
  import opened Stats
  import VehicleLayer
  import Network

  /** `update(vehicleGroup)` on a value: a group's tally counts only when it has journeys. */
  function Counted(acc: Tally, t: Tally): Tally {
    if t.journeys > 0 then Plus(acc, t) else acc
  }

  /** The totals that `update(vehicleGroup)` over the groups in order leaves after a `reset`. */
  function Summed(ts: seq<Tally>): Tally {
    if ts == [] then NoTally else Counted(Summed(ts[..|ts| - 1]), ts[|ts| - 1])
  }

  /** The maximum that `update(edge)` over the edges in order leaves, starting from `m`. */
  function Peak(m: int, cs: seq<int>): int {
    if cs == [] then m
    else
      var p := Peak(m, cs[..|cs| - 1]);
      if cs[|cs| - 1] > p then cs[|cs| - 1] else p
  }

  /** The tallies of a list of groups. */
  function GroupTallies(gs: seq<VehicleLayer.VehicleGroup>): (r: seq<Tally>)
    reads set g | g in gs
    ensures |r| == |gs| && forall k | 0 <= k < |gs| :: r[k] == gs[k].Counters()
  {
    if gs == [] then [] else GroupTallies(gs[..|gs| - 1]) + [gs[|gs| - 1].Counters()]
  }

  /** The vehicle counts of a list of edges. */
  function EdgeCounts(es: seq<Network.Edge>): (r: seq<int>)
    reads set e | e in es
    ensures |r| == |es| && forall k | 0 <= k < |es| :: r[k] == es[k].vehicleCount
  {
    if es == [] then [] else EdgeCounts(es[..|es| - 1]) + [es[|es| - 1].vehicleCount]
  }

  /** When every group's journeys are routed or unrouted, so are the totals' journeys. */
  lemma {:induction false} SummedBalanced(ts: seq<Tally>)
    requires forall k | 0 <= k < |ts| :: Balanced(ts[k])
    ensures Balanced(Summed(ts))
  {
    if ts != [] {
      SummedBalanced(ts[..|ts| - 1]);
      PlusBalanced(Summed(ts[..|ts| - 1]), ts[|ts| - 1]);
    }
  }

  /** Groups without journeys add nothing, and journeys of the others add up. */
  lemma {:induction false} SummedJourneys(ts: seq<Tally>)
    ensures Summed(ts).journeys >= 0
    ensures (forall k | 0 <= k < |ts| :: ts[k].journeys <= 0) ==> Summed(ts) == NoTally
  {
    if ts != [] {
      SummedJourneys(ts[..|ts| - 1]);
    }
  }

  /** The peak is the start or one of the counts, and no count is above it. */
  lemma {:induction false} PeakBounds(m: int, cs: seq<int>)
    ensures Peak(m, cs) >= m
    ensures forall k | 0 <= k < |cs| :: Peak(m, cs) >= cs[k]
    ensures Peak(m, cs) == m || exists k | 0 <= k < |cs| :: Peak(m, cs) == cs[k]
  {
    if cs != [] {
      var init := cs[..|cs| - 1];
      PeakBounds(m, init);
      forall k | 0 <= k < |cs| ensures Peak(m, cs) >= cs[k] {
        if k < |init| { assert cs[k] == init[k]; }
      }
      if Peak(m, cs) != m && Peak(m, cs) != cs[|cs| - 1] {
        var k :| 0 <= k < |init| && Peak(m, init) == init[k];
        assert cs[k] == init[k];
      }
    }
  }

  class Indicators {
    var totalTime: real
    var totalDistance: real
    var totalJourneyCount: int
    var totalRoutedCount: int
    var totalUnroutedCount: int
    var journeyAvgTime: real
    var journeyAvgDistance: real
    var maxVehiclesPerEdge: int

    /** Every field starts at zero. */
    constructor ()
      ensures Totals() == NoTally && maxVehiclesPerEdge == 0
      ensures journeyAvgTime == 0.0 && journeyAvgDistance == 0.0
    {
      totalTime, totalDistance := 0.0, 0.0;
      totalJourneyCount, totalRoutedCount, totalUnroutedCount := 0, 0, 0;
      journeyAvgTime, journeyAvgDistance := 0.0, 0.0;
      maxVehiclesPerEdge := 0;
    }

    /** The five running totals. */
    function Totals(): Tally
      reads this`totalJourneyCount, this`totalRoutedCount, this`totalUnroutedCount
      reads this`totalDistance, this`totalTime
    {
      Tally(totalJourneyCount, totalRoutedCount, totalUnroutedCount, totalDistance, totalTime)
    }

    /** `reset` zeroes the five totals and keeps the maximum and the averages. */
    method Reset()
      modifies this
      ensures Totals() == NoTally
      ensures maxVehiclesPerEdge == old(maxVehiclesPerEdge)
      ensures journeyAvgTime == old(journeyAvgTime) && journeyAvgDistance == old(journeyAvgDistance)
    {
      totalJourneyCount, totalRoutedCount, totalUnroutedCount := 0, 0, 0;
      totalTime, totalDistance := 0.0, 0.0;
    }

    /** `update(vehicleGroup)`: a group with journeys adds its five counters; any other adds nothing. */
    method UpdateGroup(g: VehicleLayer.VehicleGroup)
      modifies this
      ensures g.journeyCount > 0 ==> Totals() == Plus(old(Totals()), g.Counters())
      ensures g.journeyCount <= 0 ==> Totals() == old(Totals())
      ensures maxVehiclesPerEdge == old(maxVehiclesPerEdge)
      ensures journeyAvgTime == old(journeyAvgTime) && journeyAvgDistance == old(journeyAvgDistance)
    {
      if g.journeyCount > 0 {
        totalJourneyCount := totalJourneyCount + g.journeyCount;
        totalRoutedCount := totalRoutedCount + g.routedCount;
        totalUnroutedCount := totalUnroutedCount + g.unroutedCount;
        totalTime := totalTime + g.time;
        totalDistance := totalDistance + g.distance;
      }
    }

    /** `update(edge)`: the maximum becomes the larger of itself and the edge's count. */
    method UpdateEdge(e: Network.Edge)
      modifies this`maxVehiclesPerEdge
      ensures maxVehiclesPerEdge >= old(maxVehiclesPerEdge) && maxVehiclesPerEdge >= e.vehicleCount
      ensures maxVehiclesPerEdge == old(maxVehiclesPerEdge) || maxVehiclesPerEdge == e.vehicleCount
    {
      if e.vehicleCount > maxVehiclesPerEdge {
        maxVehiclesPerEdge := e.vehicleCount;
      }
    }

    /** `updateAverages`: total per routed journey, and 0 when nothing was routed. */
    method UpdateAverages()
      modifies this`journeyAvgTime, this`journeyAvgDistance
      ensures journeyAvgTime == Average(totalTime, totalRoutedCount)
      ensures journeyAvgDistance == Average(totalDistance, totalRoutedCount)
      ensures Totals() == old(Totals()) && maxVehiclesPerEdge == old(maxVehiclesPerEdge)
    {
      if totalRoutedCount == 0 {
        journeyAvgTime := 0.0;
        journeyAvgDistance := 0.0;
      } else {
        journeyAvgTime := totalTime / totalRoutedCount as real;
        journeyAvgDistance := totalDistance / totalRoutedCount as real;
      }
    }

    /**
     * `evaluate(simulation)` over the vehicle layer's groups and the road graph's edges: the
     * totals are those of the groups with journeys, and the maximum, which `reset` keeps, is
     * raised to the busiest edge's count.
     */
    method Evaluate(groups: seq<VehicleLayer.VehicleGroup>, edges: seq<Network.Edge>)
      modifies this
      ensures Totals() == Summed(old(GroupTallies(groups)))
      ensures maxVehiclesPerEdge == Peak(old(maxVehiclesPerEdge), old(EdgeCounts(edges)))
      ensures journeyAvgTime == Average(totalTime, totalRoutedCount)
      ensures journeyAvgDistance == Average(totalDistance, totalRoutedCount)
    {
      ghost var counts := EdgeCounts(edges);
      Reset();
      UpdateGroups(groups);
      assert EdgeCounts(edges) == counts;
      UpdateEdges(edges);
      UpdateAverages();
    }

    /** The first loop of `evaluate`. */
    method UpdateGroups(groups: seq<VehicleLayer.VehicleGroup>)
      requires Totals() == NoTally
      modifies this
      ensures Totals() == Summed(old(GroupTallies(groups)))
      ensures maxVehiclesPerEdge == old(maxVehiclesPerEdge)
    {
      ghost var ts := GroupTallies(groups);
      var i := 0;
      while i < |groups|
        invariant i <= |groups|
        invariant Totals() == Summed(ts[..i])
        invariant maxVehiclesPerEdge == old(maxVehiclesPerEdge)
      {
        assert ts[..i + 1][..i] == ts[..i];
        assert groups[i].Counters() == ts[i];
        UpdateGroup(groups[i]);
        i := i + 1;
      }
      assert ts[..i] == ts;
    }

    /** The second loop of `evaluate`. */
    method UpdateEdges(edges: seq<Network.Edge>)
      modifies this`maxVehiclesPerEdge
      ensures maxVehiclesPerEdge == Peak(old(maxVehiclesPerEdge), old(EdgeCounts(edges)))
      ensures Totals() == old(Totals())
    {
      ghost var cs := EdgeCounts(edges);
      var j := 0;
      while j < |edges|
        invariant j <= |edges|
        invariant maxVehiclesPerEdge == Peak(old(maxVehiclesPerEdge), cs[..j])
        invariant Totals() == old(Totals())
      {
        assert cs[..j + 1][..j] == cs[..j];
        assert edges[j].vehicleCount == cs[j];
        UpdateEdge(edges[j]);
        j := j + 1;
      }
      assert cs[..j] == cs;
    }
  }
}
