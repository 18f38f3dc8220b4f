/**
 * The counters a vehicle group's indicators keep while vehicles are routed, and the guarded
 * averages over them. Distances (metres) and times (hours) are exact reals.
 */
module Stats {

  /** Journey, routed and unrouted counts with the total distance and time of the routed ones. */
  datatype Tally = Tally(journeys: int, routed: int, unrouted: int, distance: real, time: real)

  /** The counters after `reset`. */
  const NoTally := Tally(0, 0, 0, 0.0, 0.0)

  /** Two tallies added field by field, as `Indicators.update(vehicleGroup)` adds them. */
  function Plus(a: Tally, b: Tally): Tally {
    Tally(a.journeys + b.journeys, a.routed + b.routed, a.unrouted + b.unrouted,
          a.distance + b.distance, a.time + b.time)
  }

  /** Every journey was either routed or not. */
  predicate Balanced(t: Tally) {
    t.journeys == t.routed + t.unrouted
  }

  /** Adding balanced tallies keeps the balance. */
  lemma PlusBalanced(a: Tally, b: Tally)
    requires Balanced(a) && Balanced(b)
    ensures Balanced(Plus(a, b))
  {
  }

  /** `total / count`, as a function of its own. */
  function Quotient(total: real, count: real): real
    requires count != 0.0
  {
    total / count
  }

  /** A total divided by a count, and 0 when the count is 0. */
  function Average(total: real, count: int): real {
    if count == 0 then 0.0 else Quotient(total, count as real)
  }

  /** The averages never divide by zero: 0 for no count, and otherwise times the count the total. */
  lemma AverageMeaning(total: real, count: int)
    ensures count == 0 ==> Average(total, count) == 0.0
    ensures count != 0 ==> Average(total, count) * count as real == total
  {
  }

  /** The five counters of `VehicleGroup.Indicators`. */
  class GroupIndicators {
    var journeyCount: int
    var routedCount: int
    var unroutedCount: int
    var distance: real
    var time: real

    /** A new indicators object starts at zero, as Java's fields do. */
    constructor ()
      ensures Counters() == NoTally
    {
      journeyCount, routedCount, unroutedCount := 0, 0, 0;
      distance, time := 0.0, 0.0;
    }

    function Counters(): Tally
      reads this
    {
      Tally(journeyCount, routedCount, unroutedCount, distance, time)
    }

    /** `reset`: all five counters back to zero. */
    method Reset()
      modifies this
      ensures Counters() == NoTally
    {
      journeyCount, routedCount, unroutedCount := 0, 0, 0;
      distance, time := 0.0, 0.0;
    }

    /** `getJourneyAvgTime`: the time per routed journey, 0 when nothing was routed. */
    function JourneyAvgTime(): (r: real)
      reads this
      ensures routedCount == 0 ==> r == 0.0
      ensures routedCount != 0 ==> r * routedCount as real == time
    {
      AverageMeaning(time, routedCount);
      Average(time, routedCount)
    }

    /** `getJourneyAvgDistance`: the distance per routed journey, 0 when nothing was routed. */
    function JourneyAvgDistance(): (r: real)
      reads this
      ensures routedCount == 0 ==> r == 0.0
      ensures routedCount != 0 ==> r * routedCount as real == distance
    {
      AverageMeaning(distance, routedCount);
      Average(distance, routedCount)
    }
  }
}
