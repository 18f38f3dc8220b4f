/**
 * The stand-alone `VehicleGroup` feature: a point with a vehicle count and a group name, whose
 * indicators object is created the first time it is asked for.
 */
module LoneGroup {
  import opened Geom
  import opened Stats

  class VehicleGroup {
    var point: Point
    var count: int
    var group: string
    /** `null` until `getIndicators` is first called. */
    var indicators: GroupIndicators?

    /** The constructor stores the point, the count and the group as given. */
    constructor (point: Point, count: int, group: string)
      ensures this.point == point && this.count == count && this.group == group
      ensures indicators == null
    {
      this.point := point;
      this.count := count;
      this.group := group;
      indicators := null;
    }

    /**
     * `getIndicators`: the first call creates a zeroed indicators object; every later call
     * returns that same object and allocates nothing.
     */
    method GetIndicators() returns (ind: GroupIndicators)
      modifies this`indicators
      ensures old(indicators) != null ==> ind == old(indicators)
      ensures old(indicators) == null ==> fresh(ind) && ind.Counters() == NoTally
      ensures indicators == ind
    {
      if indicators == null {
        indicators := new GroupIndicators();
      }
      ind := indicators;
    }

    /** Two calls in a row give the same object. */
    method GetIndicatorsTwice() returns (first: GroupIndicators, second: GroupIndicators)
      modifies this`indicators
      ensures first == second && indicators == first
      ensures old(indicators) != null ==> first == old(indicators)
    {
      first := GetIndicators();
      second := GetIndicators();
    }
  }
}
