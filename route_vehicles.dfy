/**
 * The routing pass of `RouteVehiclesTool.Router.run`: every vehicle group's journeys are
 * routed from the group's point to their destination locations, and the counts are added to
 * the group's indicators, to the edges the routes cross and to the simulation's totals.
 *
 * The route finder is a parameter `plan`: for an origin and a destination point it gives the
 * route `getRoute` returns (`None` for `null`) as its edges in section order, its length and
 * its travel time. The `abort` flag, which another thread sets, is a parameter too:
 * `abort(i, 0)` is the flag as the outer loop reads it before group `i`, and `abort(i, k + 1)`
 * as the inner loop reads it before journey `k` of that group.
 */
module Pass {
  import opened Lists
  import opened Geom
  import opened Wrappers
  import opened Stats
  import opened Groups
  import opened VehicleLayer
  import Distribution
  import Network
  import Places
  import Summary

  type Edge = Network.Edge

  /** A route: the edges of its sections in order (none for an empty route), its length and time. */
  datatype Trip = Trip(edges: seq<Edge>, distance: real, time: real)

  type Planner = (Point, Point) -> Option<Trip>

  /** What the pass reads of a location. */
  datatype Place = Place(name: string, point: Point, origin: bool)

  /** What the pass reads of a vehicle group. */
  datatype Start = Start(point: Point, count: int, group: string)

  /**
   * What one journey does: nothing for a journey to an origin; a `NullPointerException` when
   * its location is unknown (`Missing`) or when no route is found at all (`NoRoute`, after its
   * count has been added to the journeys); otherwise an unrouted or a routed journey.
   */
  datatype Outcome =
    | Skipped
    | Missing
    | NoRoute(n: int)
    | Unrouted(n: int)
    | Routed(n: int, trip: Trip)

  /** How the pass ended. */
  datatype End = Completed | Aborted | Failed

  /** Everything the pass reads: groups, journey groups by name, locations, router and flag. */
  datatype Setup = Setup(starts: seq<Start>, groups: map<string, Group>, places: seq<Place>,
                         plan: Planner, abort: (nat, nat) -> bool)

  const IntMin: int := -0x8000_0000
  const IntMax: int := 0x7fff_ffff

  /**
   * Java's `(int)` cast of a `double`: towards zero, and saturated at the ends of the `int`
   * range.
   */
  function IntCast(x: real): (r: int)
    ensures IntMin <= r <= IntMax
    ensures 0.0 <= x < IntMax as real + 1.0 ==> r as real <= x < r as real + 1.0
    ensures IntMin as real - 1.0 < x <= 0.0 ==> r as real - 1.0 < x <= r as real
    ensures x >= IntMax as real + 1.0 ==> r == IntMax
    ensures x <= IntMin as real - 1.0 ==> r == IntMin
  {
    if x >= 0.0 then
      if x.Floor > IntMax then IntMax else x.Floor
    else
      var t := -((-x).Floor);
      if t < IntMin then IntMin else t
  }

  /** `(int)(vehicleCount * journey.getFactor())`. */
  function JourneyCount(count: int, factor: real): int {
    IntCast(Distribution.RealShare(count, factor))
  }

  /** `x * n`, as a function of its own. */
  function Scaled(x: real, n: int): real {
    x * n as real
  }

  /** `getLocation(name)` on the values: the first place with that name. */
  function Lookup(ps: seq<Place>, name: string): Option<Place> {
    if ps == [] then None
    else if ps[0].name == name then Some(ps[0])
    else Lookup(ps[1..], name)
  }

  /** The outcomes that end the thread. */
  predicate Fatal(o: Outcome) {
    o.Missing? || o.NoRoute?
  }

  /** One journey of a group that starts at `s`. */
  function JourneyOutcome(j: Journey, s: Start, ps: seq<Place>, plan: Planner): Outcome {
    match Lookup(ps, j.locationName)
    case None => Missing
    case Some(p) =>
      if p.origin then Skipped
      else
        var n := JourneyCount(s.count, j.factor);
        match plan(s.point, p.point)
        case None => NoRoute(n)
        case Some(t) => if t.edges == [] then Unrouted(n) else Routed(n, t)
  }

  /** The outcome every journey of the list would have, in order. */
  function Each(js: seq<Journey>, s: Start, ps: seq<Place>, plan: Planner): (r: seq<Outcome>)
    ensures |r| == |js| && forall k | 0 <= k < |js| :: r[k] == JourneyOutcome(js[k], s, ps, plan)
  {
    seq(|js|, k requires 0 <= k < |js| => JourneyOutcome(js[k], s, ps, plan))
  }

  /**
   * The outcomes the inner loop of group `i` reaches from journey `k` on: it stops at the end
   * of the list, when it reads the flag set, or after a fatal outcome, which can only come last.
   */
  function Reached(each: seq<Outcome>, k: nat, abort: (nat, nat) -> bool, i: nat): (r: seq<Outcome>)
    requires k <= |each|
    ensures |r| <= |each| - k
    ensures forall m | 0 <= m < |r| - 1 :: !Fatal(r[m])
    decreases |each| - k
  {
    if k == |each| || abort(i, k + 1) then []
    else if Fatal(each[k]) then [each[k]]
    else
      var rest := Reached(each, k + 1, abort, i);
      assert forall m | 1 <= m < |rest| + 1 :: ([each[k]] + rest)[m] == rest[m - 1];
      [each[k]] + rest
  }

  /** `groups.get(groupName).getJourneys()`, and no journeys for an unknown group. */
  function JourneysOf(groups: map<string, Group>, name: string): seq<Journey> {
    if name in groups then groups[name].journeys else []
  }

  /** The outcomes of group `i`. */
  function GroupOutcomes(x: Setup, i: nat): seq<Outcome>
    requires i < |x.starts|
  {
    Reached(Each(JourneysOf(x.groups, x.starts[i].group), x.starts[i], x.places, x.plan), 0, x.abort, i)
  }

  /** The inner loop of group `i`, from journey `k` on, ends with a fatal outcome. */
  predicate Failing(each: seq<Outcome>, k: nat, abort: (nat, nat) -> bool, i: nat)
    requires k <= |each|
    ensures var r := Reached(each, k, abort, i); Failing(each, k, abort, i) <==> r != [] && Fatal(r[|r| - 1])
    decreases |each| - k
  {
    if k == |each| || abort(i, k + 1) then false
    else if Fatal(each[k]) then true
    else
      var rest := Reached(each, k + 1, abort, i);
      assert Reached(each, k, abort, i) == [each[k]] + rest;
      Failing(each, k + 1, abort, i)
  }

  /** Group `i` ended the thread. */
  predicate Fails(x: Setup, i: nat)
    requires i < |x.starts|
  {
    Failing(Each(JourneysOf(x.groups, x.starts[i].group), x.starts[i], x.places, x.plan), 0, x.abort, i)
  }

  /** What an outcome adds to the group's counters. */
  function Apply(t: Tally, o: Outcome): Tally {
    match o
    case Skipped => t
    case Missing => t
    case NoRoute(n) => t.(journeys := t.journeys + n)
    case Unrouted(n) => t.(journeys := t.journeys + n, unrouted := t.unrouted + n)
    case Routed(n, trip) =>
      Tally(t.journeys + n, t.routed + n, t.unrouted,
            t.distance + Scaled(trip.distance, n), t.time + Scaled(trip.time, n))
  }

  /** The outcomes applied in order. */
  function ApplyAll(t: Tally, os: seq<Outcome>): Tally
    decreases |os|
  {
    if os == [] then t else ApplyAll(Apply(t, os[0]), os[1..])
  }

  /** Group `i`'s counters after its journeys. */
  function GroupTally(x: Setup, i: nat): Tally
    requires i < |x.starts|
  {
    ApplyAll(NoTally, GroupOutcomes(x, i))
  }

  /** What the section loop adds to edge `e` for a route over `es` taken by `n` vehicles. */
  function EdgeLoad(e: Edge, es: seq<Edge>, n: int): int {
    if es == [] then 0 else EdgeLoad(e, es[..|es| - 1], n) + if es[|es| - 1] == e then n else 0
  }

  /** What an outcome adds to edge `e`. */
  function OutcomeLoad(e: Edge, o: Outcome): int {
    if o.Routed? then EdgeLoad(e, o.trip.edges, o.n) else 0
  }

  /** What a list of outcomes adds to edge `e`. */
  function Load(e: Edge, os: seq<Outcome>): int
    decreases |os|
  {
    if os == [] then 0 else OutcomeLoad(e, os[0]) + Load(e, os[1..])
  }

  /** The value of `vehicleGroupIndex` at the end, looking from group `i` on. */
  function Stop(x: Setup, i: nat): (r: nat)
    requires i <= |x.starts|
    ensures i <= r <= |x.starts|
    decreases |x.starts| - i
  {
    if i == |x.starts| || x.abort(i, 0) || Fails(x, i) then i else Stop(x, i + 1)
  }

  /** How a pass that stopped at `stop` ended. */
  function EndAt(x: Setup, stop: nat): End {
    if stop >= |x.starts| then Completed else if x.abort(stop, 0) then Aborted else Failed
  }

  /** The groups whose journeys were looked at: those before the stop, and the failed one. */
  function Touched(x: Setup): (r: nat)
    ensures r <= |x.starts|
  {
    var stop := Stop(x, 0);
    if EndAt(x, stop) == Failed then stop + 1 else stop
  }

  /** What the first `n` groups add to edge `e`. */
  function PassLoad(x: Setup, e: Edge, n: nat): int
    requires n <= |x.starts|
  {
    if n == 0 then 0 else PassLoad(x, e, n - 1) + Load(e, GroupOutcomes(x, n - 1))
  }

  /** The counters of the first `n` groups. */
  function CompletedTallies(x: Setup, n: nat): (r: seq<Tally>)
    requires n <= |x.starts|
    ensures |r| == n && forall k | 0 <= k < n :: r[k] == GroupTally(x, k)
  {
    if n == 0 then [] else CompletedTallies(x, n - 1) + [GroupTally(x, n - 1)]
  }

  /** Every route the router gives runs over edges of the list. */
  ghost predicate PlanStays(plan: Planner, edges: seq<Edge>) {
    forall p, q | plan(p, q).Some? :: forall e | e in plan(p, q).value.edges :: e in edges
  }

  /** The maximum covers every edge that carries vehicles. */
  predicate Covers(max: int, edges: seq<Edge>)
    reads edges`vehicleCount
  {
    forall e | e in edges :: e.vehicleCount == 0 || e.vehicleCount <= max
  }

  /** `ss` is what the pass reads of the vehicle groups `gs`. */
  predicate StartsMirror(ss: seq<Start>, gs: seq<VehicleGroup>)
    reads gs`point, gs`count, gs`group
  {
    |ss| == |gs| && forall k | 0 <= k < |gs| :: ss[k] == Start(gs[k].point, gs[k].count, gs[k].group)
  }

  /** `ps` is what the pass reads of the locations `ls`. */
  predicate PlacesMirror(ps: seq<Place>, ls: seq<Places.Location>)
    reads ls`name, ls`point, ls`origin
  {
    |ps| == |ls| && forall k | 0 <= k < |ls| :: ps[k] == Place(ls[k].name, ls[k].point, ls[k].origin)
  }

  /** `x` is what the pass reads of the groups, the journey groups, the locations, router and flag. */
  ghost predicate Snapshot(x: Setup, gs: seq<VehicleGroup>, ls: seq<Places.Location>,
                           groups: map<string, Group>, plan: Planner, abort: (nat, nat) -> bool)
    reads gs`point, gs`count, gs`group, ls`name, ls`point, ls`origin
  {
    && StartsMirror(x.starts, gs) && PlacesMirror(x.places, ls)
    && x.groups == groups && x.plan == plan && x.abort == abort
  }

  /** What the pass reads of the vehicle groups. */
  function StartsOf(gs: seq<VehicleGroup>): (r: seq<Start>)
    reads gs`point, gs`count, gs`group
    ensures StartsMirror(r, gs)
  {
    if gs == [] then []
    else
      var g := gs[|gs| - 1];
      StartsOf(gs[..|gs| - 1]) + [Start(g.point, g.count, g.group)]
  }

  /** What the pass reads of the locations. */
  function PlacesOf(ls: seq<Places.Location>): (r: seq<Place>)
    reads ls`name, ls`point, ls`origin
    ensures PlacesMirror(r, ls)
  {
    if ls == [] then []
    else
      var l := ls[|ls| - 1];
      PlacesOf(ls[..|ls| - 1]) + [Place(l.name, l.point, l.origin)]
  }

  // ---- Properties of the pass ----

  /** No place has the name exactly when the lookup finds nothing. */
  lemma {:induction false} NoPlace(ps: seq<Place>, name: string)
    ensures Lookup(ps, name).None? <==> forall k | 0 <= k < |ps| :: ps[k].name != name
  {
    if ps != [] {
      NoPlace(ps[1..], name);
      assert forall k | 1 <= k < |ps| :: ps[1..][k - 1] == ps[k];
    }
  }

  /** The place at the first index with a name is the one looked up. */
  lemma {:induction false} FirstPlace(ps: seq<Place>, name: string, i: nat)
    requires i < |ps| && ps[i].name == name && forall k | 0 <= k < i :: ps[k].name != name
    ensures Lookup(ps, name) == Some(ps[i])
  {
    if i > 0 {
      FirstPlace(ps[1..], name, i - 1);
    }
  }

  /** The section loop adds `n` to an edge once for every section over it. */
  lemma {:induction false} EdgeLoadCounts(e: Edge, es: seq<Edge>, n: int)
    ensures EdgeLoad(e, es, n) == n * multiset(es)[e]
  {
    if es != [] {
      var init := es[..|es| - 1];
      EdgeLoadCounts(e, init, n);
      var b := if es[|es| - 1] == e then 1 else 0;
      var before: multiset<Edge> := multiset(init);
      LastCount(es, e);
      Distributes(n, before[e], b);
    }
  }

  /** The last element of a list adds one to its own count and nothing to any other. */
  lemma LastCount(es: seq<Edge>, e: Edge)
    requires es != []
    ensures multiset(es)[e] == multiset(es[..|es| - 1])[e] + if es[|es| - 1] == e then 1 else 0
  {
    assert es == es[..|es| - 1] + [es[|es| - 1]];
  }

  lemma Distributes(n: int, c: int, b: int)
    ensures n * (c + b) == n * c + n * b
  {
  }

  /** An edge that no routed journey crosses carries nothing. */
  lemma {:induction false} LoadOffRoute(e: Edge, os: seq<Outcome>)
    requires forall k | 0 <= k < |os| && os[k].Routed? :: e !in os[k].trip.edges
    ensures Load(e, os) == 0
    decreases |os|
  {
    if os != [] {
      assert forall k | 1 <= k < |os| :: os[1..][k - 1] == os[k];
      LoadOffRoute(e, os[1..]);
      var o := os[0];
      if o.Routed? {
        EdgeLoadCounts(e, o.trip.edges, o.n);
      }
    }
  }

  /** Without a fatal outcome, every journey counted is either routed or unrouted. */
  lemma {:induction false} ApplyAllBalanced(t: Tally, os: seq<Outcome>)
    requires Balanced(t) && forall k | 0 <= k < |os| :: !Fatal(os[k])
    ensures Balanced(ApplyAll(t, os))
    decreases |os|
  {
    if os != [] {
      assert forall k | 1 <= k < |os| :: os[1..][k - 1] == os[k];
      ApplyAllBalanced(Apply(t, os[0]), os[1..]);
    }
  }

  /** The groups before the stop neither read the flag set nor failed. */
  lemma {:induction false} BeforeStop(x: Setup, i: nat, k: nat)
    requires i <= k && i <= |x.starts| && k < Stop(x, i)
    ensures !x.abort(k, 0) && !Fails(x, k)
    decreases |x.starts| - i
  {
    if i < k {
      BeforeStop(x, i + 1, k);
    }
  }

  /** A group that did not fail is balanced. */
  lemma GroupBalanced(x: Setup, i: nat)
    requires i < |x.starts| && !Fails(x, i)
    ensures Balanced(GroupTally(x, i))
  {
    var os := GroupOutcomes(x, i);
    assert forall k | 0 <= k < |os| :: !Fatal(os[k]) by {
      forall k | 0 <= k < |os| ensures !Fatal(os[k]) {
        if k == |os| - 1 {
          assert !Fails(x, i);
        }
      }
    }
    ApplyAllBalanced(NoTally, os);
  }

  /** The groups before the stop are balanced. */
  lemma CompletedBalanced(x: Setup, k: nat)
    requires k < Stop(x, 0)
    ensures Balanced(GroupTally(x, k))
  {
    BeforeStop(x, 0, k);
    GroupBalanced(x, k);
  }

  /**
   * The simulation's totals after a pass are balanced, whether or not it was cut short: the
   * group that threw is not counted into them.
   */
  lemma TotalsBalanced(x: Setup)
    ensures Balanced(Summary.Summed(CompletedTallies(x, Stop(x, 0))))
  {
    var ts := CompletedTallies(x, Stop(x, 0));
    forall k | 0 <= k < |ts| ensures Balanced(ts[k]) {
      CompletedBalanced(x, k);
    }
    Summary.SummedBalanced(ts);
  }

  /**
   * After a pass that was not cut short by an exception, every group's journeys are routed
   * or unrouted.
   */
  lemma PassBalanced(x: Setup)
    requires EndAt(x, Stop(x, 0)) != Failed
    ensures forall k | 0 <= k < Touched(x) :: Balanced(GroupTally(x, k))
  {
    var stop := Stop(x, 0);
    assert Touched(x) == stop;
    forall k | 0 <= k < stop ensures Balanced(GroupTally(x, k)) {
      CompletedBalanced(x, k);
    }
  }

  /** A group whose name has no journey group routes nothing. */
  lemma UnknownGroup(x: Setup, i: nat, e: Edge)
    requires i < |x.starts| && x.starts[i].group !in x.groups
    ensures GroupTally(x, i) == NoTally && Load(e, GroupOutcomes(x, i)) == 0 && !Fails(x, i)
  {
    assert GroupOutcomes(x, i) == [];
  }

  // ---- The pass ----

  /** `edge.getIndicators().reset()` for every edge. */
  method ResetEdges(edges: seq<Edge>)
    modifies edges`vehicleCount
    ensures forall e | e in edges :: e.vehicleCount == 0
  {
    var i := 0;
    while i < |edges|
      invariant i <= |edges|
      invariant forall k | 0 <= k < i :: edges[k].vehicleCount == 0
    {
      edges[i].ResetIndicators();
      i := i + 1;
    }
  }

  /** `vehicleGroup.getIndicators().reset()` for every group. */
  method ResetGroups(gs: seq<VehicleGroup>)
    modifies gs`journeyCount, gs`routedCount, gs`unroutedCount, gs`distance, gs`time
    ensures forall g | g in gs :: g.Counters() == NoTally
  {
    var i := 0;
    while i < |gs|
      invariant i <= |gs|
      invariant forall k | 0 <= k < i :: gs[k].Counters() == NoTally
    {
      gs[i].ResetIndicators();
      i := i + 1;
    }
  }

  /** The section loop: each section's edge takes the journey's vehicles, then `update(edge)`. */
  method LoadTrip(trip: seq<Edge>, n: int, ind: Summary.Indicators, edges: seq<Edge>)
    requires forall e | e in trip :: e in edges
    requires Covers(ind.maxVehiclesPerEdge, edges)
    modifies edges`vehicleCount, ind`maxVehiclesPerEdge
    ensures forall e | e in edges :: e.vehicleCount == old(e.vehicleCount) + EdgeLoad(e, trip, n)
    ensures Covers(ind.maxVehiclesPerEdge, edges) && ind.maxVehiclesPerEdge >= old(ind.maxVehiclesPerEdge)
  {
    var k := 0;
    while k < |trip|
      invariant k <= |trip|
      invariant forall e | e in edges :: e.vehicleCount == old(e.vehicleCount) + EdgeLoad(e, trip[..k], n)
      invariant Covers(ind.maxVehiclesPerEdge, edges) && ind.maxVehiclesPerEdge >= old(ind.maxVehiclesPerEdge)
    {
      var e := trip[k];
      assert e in trip && e in edges;
      assert trip[..k + 1][..k] == trip[..k];
      e.vehicleCount := e.vehicleCount + n;
      ind.UpdateEdge(e);
      k := k + 1;
    }
    assert trip[..k] == trip;
  }

  /** `locations.getLocation(journey.getLocationName())`, related to `Lookup` on the places `ps`. */
  method FindPlace(j: Journey, locations: Places.Locations, ghost ps: seq<Place>) returns (location: Places.Location?)
    requires PlacesMirror(ps, locations.features)
    ensures location == null <==> Lookup(ps, j.locationName).None?
    ensures location != null ==> Lookup(ps, j.locationName) == Some(Place(location.name, location.point, location.origin))
  {
    location := locations.GetLocation(j.locationName);
    NoPlace(ps, j.locationName);
    if location != null {
      ghost var i :| 0 <= i < |locations.features| && locations.features[i] == location && location.name == j.locationName
                     && forall k | 0 <= k < i :: locations.features[k].name != j.locationName;
      FirstPlace(ps, j.locationName, i);
    } else {
      assert forall k | 0 <= k < |ps| :: ps[k].name == locations.features[k].name;
    }
  }

  /** One journey of the inner loop, for a group that starts at `s` and the places `ps`. */
  method RouteJourney(j: Journey, g: VehicleGroup, locations: Places.Locations, plan: Planner,
                      ind: Summary.Indicators, edges: seq<Edge>, ghost s: Start, ghost ps: seq<Place>) returns (o: Outcome)
    requires s == Start(g.point, g.count, g.group) && PlacesMirror(ps, locations.features)
    requires PlanStays(plan, edges) && Covers(ind.maxVehiclesPerEdge, edges)
    modifies g`journeyCount, g`routedCount, g`unroutedCount, g`distance, g`time
    modifies edges`vehicleCount, ind`maxVehiclesPerEdge
    ensures o == JourneyOutcome(j, s, ps, plan)
    ensures g.Counters() == Apply(old(g.Counters()), o)
    ensures forall e | e in edges :: e.vehicleCount == old(e.vehicleCount) + OutcomeLoad(e, o)
    ensures Covers(ind.maxVehiclesPerEdge, edges) && ind.maxVehiclesPerEdge >= old(ind.maxVehiclesPerEdge)
  {
    var location := FindPlace(j, locations, ps);
    if location == null {
      return Missing;
    }
    if location.origin {
      return Skipped;
    }
    var n := JourneyCount(g.count, j.factor);
    var route := plan(g.point, location.point);
    g.journeyCount := g.journeyCount + n;
    if route.None? {
      return NoRoute(n);
    }
    var trip := route.value;
    if trip.edges == [] {
      g.unroutedCount := g.unroutedCount + n;
      o := Unrouted(n);
    } else {
      g.routedCount := g.routedCount + n;
      g.distance := g.distance + Scaled(trip.distance, n);
      g.time := g.time + Scaled(trip.time, n);
      LoadTrip(trip.edges, n, ind, edges);
      o := Routed(n, trip);
    }
  }

  /** One turn of the inner loop: journey `k` is routed and its outcome is the next one. */
  method Advance(k: nat, g: VehicleGroup, journeys: seq<Journey>, locations: Places.Locations,
                 plan: Planner, ind: Summary.Indicators, edges: seq<Edge>,
                 ghost s: Start, ghost ps: seq<Place>, ghost each: seq<Outcome>) returns (o: Outcome)
    requires k < |journeys| && each == Each(journeys, s, ps, plan)
    requires s == Start(g.point, g.count, g.group) && PlacesMirror(ps, locations.features)
    requires PlanStays(plan, edges) && Covers(ind.maxVehiclesPerEdge, edges)
    modifies g`journeyCount, g`routedCount, g`unroutedCount, g`distance, g`time
    modifies edges`vehicleCount, ind`maxVehiclesPerEdge
    ensures o == each[k] && g.Counters() == Apply(old(g.Counters()), o)
    ensures forall e | e in edges :: e.vehicleCount == old(e.vehicleCount) + OutcomeLoad(e, o)
    ensures Covers(ind.maxVehiclesPerEdge, edges) && ind.maxVehiclesPerEdge >= old(ind.maxVehiclesPerEdge)
  {
    o := RouteJourney(journeys[k], g, locations, plan, ind, edges, s, ps);
  }

  /**
   * The inner loop over the journeys of group `i`, which starts at `s`, with the places `ps`;
   * the result says whether a journey ended the thread.
   */
  method RouteGroup(i: nat, g: VehicleGroup, journeys: seq<Journey>, locations: Places.Locations,
                    plan: Planner, abort: (nat, nat) -> bool, ind: Summary.Indicators, edges: seq<Edge>,
                    ghost s: Start, ghost ps: seq<Place>) returns (failed: bool)
    requires s == Start(g.point, g.count, g.group) && PlacesMirror(ps, locations.features)
    requires g.Counters() == NoTally
    requires PlanStays(plan, edges) && Covers(ind.maxVehiclesPerEdge, edges)
    modifies g`journeyCount, g`routedCount, g`unroutedCount, g`distance, g`time
    modifies edges`vehicleCount, ind`maxVehiclesPerEdge
    ensures var each := Each(journeys, s, ps, plan);
      && failed == Failing(each, 0, abort, i)
      && g.Counters() == ApplyAll(NoTally, Reached(each, 0, abort, i))
      && forall e | e in edges :: e.vehicleCount == old(e.vehicleCount) + Load(e, Reached(each, 0, abort, i))
    ensures Covers(ind.maxVehiclesPerEdge, edges) && ind.maxVehiclesPerEdge >= old(ind.maxVehiclesPerEdge)
  {
    ghost var each := Each(journeys, s, ps, plan);
    ghost var all := Reached(each, 0, abort, i);
    var k := 0;
    while k < |journeys| && !abort(i, k + 1)
      invariant k <= |journeys|
      invariant s == Start(g.point, g.count, g.group) && PlacesMirror(ps, locations.features)
      invariant Failing(each, k, abort, i) == Failing(each, 0, abort, i)
      invariant ApplyAll(g.Counters(), Reached(each, k, abort, i)) == ApplyAll(NoTally, all)
      invariant forall e | e in edges ::
        e.vehicleCount + Load(e, Reached(each, k, abort, i)) == old(e.vehicleCount) + Load(e, all)
      invariant Covers(ind.maxVehiclesPerEdge, edges) && ind.maxVehiclesPerEdge >= old(ind.maxVehiclesPerEdge)
    {
      var o := Advance(k, g, journeys, locations, plan, ind, edges, s, ps, each);
      ghost var rest := Reached(each, k + 1, abort, i);
      if Fatal(o) {
        assert Reached(each, k, abort, i) == [o];
        assert [o][1..] == [];
        return true;
      }
      assert Reached(each, k, abort, i) == [o] + rest;
      assert ([o] + rest)[1..] == rest;
      k := k + 1;
    }
    assert Reached(each, k, abort, i) == [];
    failed := false;
  }

  /** The groups' counters once the groups before `touched` routed their journeys. */
  ghost predicate GroupsAt(x: Setup, touched: nat, gs: seq<VehicleGroup>)
    reads gs
  {
    && touched <= |x.starts| == |gs|
    && forall k | 0 <= k < |gs| :: gs[k].Counters() == if k < touched then GroupTally(x, k) else NoTally
  }

  /** The edges' counters once the groups before `touched` routed their journeys. */
  ghost predicate EdgesAt(x: Setup, touched: nat, edges: seq<Edge>)
    reads edges`vehicleCount
  {
    && touched <= |x.starts|
    && forall e | e in edges :: e.vehicleCount == PassLoad(x, e, touched)
  }

  /** The totals and averages once the groups before `done` were counted. */
  ghost predicate TotalsAt(x: Setup, done: nat, ind: Summary.Indicators)
    reads ind`totalTime, ind`totalDistance, ind`totalJourneyCount, ind`totalRoutedCount
    reads ind`totalUnroutedCount, ind`journeyAvgTime, ind`journeyAvgDistance
  {
    && done <= |x.starts|
    && ind.Totals() == Summary.Summed(CompletedTallies(x, done))
    && (done > 0 ==> (&& ind.journeyAvgTime == Average(ind.totalTime, ind.totalRoutedCount)
                      && ind.journeyAvgDistance == Average(ind.totalDistance, ind.totalRoutedCount)))
  }

  /** Where the pass goes after group `i`, which it reached. */
  lemma StopStep(x: Setup, i: nat)
    requires i < |x.starts| && !x.abort(i, 0) && Stop(x, i) == Stop(x, 0)
    ensures Fails(x, i) ==> Stop(x, 0) == i && EndAt(x, i) == Failed && Touched(x) == i + 1
    ensures !Fails(x, i) ==> Stop(x, i + 1) == Stop(x, 0)
  {
  }

  /**
   * `Router.run`: indicators, edge counters and group counters are reset; then each group in
   * turn routes its journeys, counts into the totals and refreshes the averages, until the
   * groups run out, the flag is read set, or a journey throws. `stop` is the final
   * `vehicleGroupIndex`.
   */
  method Run(ind: Summary.Indicators, edges: seq<Edge>, gs: seq<VehicleGroup>, locations: Places.Locations,
             groups: map<string, Group>, plan: Planner, abort: (nat, nat) -> bool) returns (stop: nat, end: End)
    requires PlanStays(plan, edges) && Distinct(gs)
    modifies ind, edges`vehicleCount
    modifies gs`journeyCount, gs`routedCount, gs`unroutedCount, gs`distance, gs`time
    ensures var x := Setup(old(StartsOf(gs)), groups, old(PlacesOf(locations.features)), plan, abort);
      && stop == Stop(x, 0) && end == EndAt(x, stop)
      && GroupsAt(x, Touched(x), gs) && EdgesAt(x, Touched(x), edges) && TotalsAt(x, stop, ind)
    ensures Covers(ind.maxVehiclesPerEdge, edges) && ind.maxVehiclesPerEdge >= old(ind.maxVehiclesPerEdge)
  {
    ghost var x := Setup(StartsOf(gs), groups, PlacesOf(locations.features), plan, abort);
    Prepare(ind, edges, gs, locations, x, locations.features);
    stop, end := RouteGroups(ind, edges, gs, locations, groups, plan, abort, x, locations.features);
  }

  /** The three resets that open `Router.run`: the pass starts from no counts at all. */
  method Prepare(ind: Summary.Indicators, edges: seq<Edge>, gs: seq<VehicleGroup>, locations: Places.Locations,
                 ghost x: Setup, ghost ls: seq<Places.Location>)
    requires locations.features == ls && Snapshot(x, gs, ls, x.groups, x.plan, x.abort)
    modifies ind, edges`vehicleCount
    modifies gs`journeyCount, gs`routedCount, gs`unroutedCount, gs`distance, gs`time
    ensures locations.features == ls && Snapshot(x, gs, ls, x.groups, x.plan, x.abort)
    ensures GroupsAt(x, 0, gs) && EdgesAt(x, 0, edges) && TotalsAt(x, 0, ind)
    ensures Covers(ind.maxVehiclesPerEdge, edges) && ind.maxVehiclesPerEdge == old(ind.maxVehiclesPerEdge)
  {
    ind.Reset();
    ResetEdges(edges);
    ResetGroups(gs);
  }

  /** The outer loop of `Router.run`, over the groups of `x` from the reset counters on. */
  method RouteGroups(ind: Summary.Indicators, edges: seq<Edge>, gs: seq<VehicleGroup>, locations: Places.Locations,
                     groups: map<string, Group>, plan: Planner, abort: (nat, nat) -> bool, ghost x: Setup,
                     ghost ls: seq<Places.Location>)
    returns (stop: nat, end: End)
    requires PlanStays(plan, edges) && Distinct(gs)
    requires locations.features == ls && Snapshot(x, gs, ls, groups, plan, abort)
    requires GroupsAt(x, 0, gs) && EdgesAt(x, 0, edges) && TotalsAt(x, 0, ind)
    requires Covers(ind.maxVehiclesPerEdge, edges)
    modifies ind, edges`vehicleCount
    modifies gs`journeyCount, gs`routedCount, gs`unroutedCount, gs`distance, gs`time
    ensures stop == Stop(x, 0) && end == EndAt(x, stop)
    ensures GroupsAt(x, Touched(x), gs) && EdgesAt(x, Touched(x), edges) && TotalsAt(x, stop, ind)
    ensures Covers(ind.maxVehiclesPerEdge, edges) && ind.maxVehiclesPerEdge >= old(ind.maxVehiclesPerEdge)
  {
    var i := 0;
    while i < |gs| && !abort(i, 0)
      invariant i <= |gs| && Stop(x, i) == Stop(x, 0)
      invariant locations.features == ls && Snapshot(x, gs, ls, groups, plan, abort)
      invariant GroupsAt(x, i, gs) && EdgesAt(x, i, edges) && TotalsAt(x, i, ind)
      invariant Covers(ind.maxVehiclesPerEdge, edges) && ind.maxVehiclesPerEdge >= old(ind.maxVehiclesPerEdge)
    {
      var failed := Turn(i, ind, edges, gs, locations, groups, plan, abort, x, ls);
      StopStep(x, i);
      if failed {
        return i, Failed;
      }
      i := i + 1;
    }
    stop := i;
    end := if i == |gs| then Completed else Aborted;
  }

  /** One turn of the outer loop: group `i` routes its journeys and, unless one threw, is counted. */
  method Turn(i: nat, ind: Summary.Indicators, edges: seq<Edge>, gs: seq<VehicleGroup>, locations: Places.Locations,
              groups: map<string, Group>, plan: Planner, abort: (nat, nat) -> bool, ghost x: Setup,
              ghost ls: seq<Places.Location>)
    returns (failed: bool)
    requires i < |gs| && Distinct(gs) && PlanStays(plan, edges) && locations.features == ls && Snapshot(x, gs, ls, groups, plan, abort)
    requires GroupsAt(x, i, gs) && EdgesAt(x, i, edges) && TotalsAt(x, i, ind)
    requires Covers(ind.maxVehiclesPerEdge, edges)
    modifies ind, edges`vehicleCount
    modifies gs`journeyCount, gs`routedCount, gs`unroutedCount, gs`distance, gs`time
    ensures failed == Fails(x, i) && GroupsAt(x, i + 1, gs) && EdgesAt(x, i + 1, edges)
    ensures TotalsAt(x, if failed then i else i + 1, ind)
    ensures Covers(ind.maxVehiclesPerEdge, edges) && ind.maxVehiclesPerEdge >= old(ind.maxVehiclesPerEdge)
    ensures locations.features == ls && Snapshot(x, gs, ls, groups, plan, abort)
  {
    failed := RouteKept(i, ind, edges, gs, locations, groups, plan, abort, x, ls);
    if !failed {
      CountTurn(i, ind, edges, gs, locations, groups, plan, abort, x, ls);
    }
  }

  /** Group `i`, which routed its journeys without an exception, is counted into the totals. */
  method CountTurn(i: nat, ind: Summary.Indicators, edges: seq<Edge>, gs: seq<VehicleGroup>,
                   locations: Places.Locations, groups: map<string, Group>, plan: Planner,
                   abort: (nat, nat) -> bool, ghost x: Setup, ghost ls: seq<Places.Location>)
    requires i < |gs| && GroupsAt(x, i + 1, gs) && TotalsAt(x, i, ind)
    requires EdgesAt(x, i + 1, edges) && Covers(ind.maxVehiclesPerEdge, edges)
    requires locations.features == ls && Snapshot(x, gs, ls, groups, plan, abort)
    modifies ind
    ensures TotalsAt(x, i + 1, ind) && ind.maxVehiclesPerEdge == old(ind.maxVehiclesPerEdge)
    ensures GroupsAt(x, i + 1, gs) && EdgesAt(x, i + 1, edges) && Covers(ind.maxVehiclesPerEdge, edges)
    ensures locations.features == ls && Snapshot(x, gs, ls, groups, plan, abort)
  {
    ghost var ts := CompletedTallies(x, i);
    assert gs[i].Counters() == GroupTally(x, i);
    CountStage(gs[i], ind, ts);
  }

  /** `RouteStage`, which leaves the totals and the averages as they were. */
  method RouteKept(i: nat, ind: Summary.Indicators, edges: seq<Edge>, gs: seq<VehicleGroup>,
                   locations: Places.Locations, groups: map<string, Group>, plan: Planner,
                   abort: (nat, nat) -> bool, ghost x: Setup, ghost ls: seq<Places.Location>)
    returns (failed: bool)
    requires i < |gs| && Distinct(gs) && PlanStays(plan, edges)
    requires locations.features == ls && Snapshot(x, gs, ls, groups, plan, abort)
    requires GroupsAt(x, i, gs) && EdgesAt(x, i, edges) && Covers(ind.maxVehiclesPerEdge, edges)
    requires TotalsAt(x, i, ind)
    modifies edges`vehicleCount, ind`maxVehiclesPerEdge
    modifies gs`journeyCount, gs`routedCount, gs`unroutedCount, gs`distance, gs`time
    ensures failed == Fails(x, i) && GroupsAt(x, i + 1, gs) && EdgesAt(x, i + 1, edges)
    ensures Covers(ind.maxVehiclesPerEdge, edges) && ind.maxVehiclesPerEdge >= old(ind.maxVehiclesPerEdge)
    ensures locations.features == ls && Snapshot(x, gs, ls, groups, plan, abort) && TotalsAt(x, i, ind)
  {
    failed := RouteRead(i, ind, edges, gs, locations, groups, plan, abort, x, ls);
  }

  /** `RouteStage`, which leaves what the pass reads of groups and locations as it was. */
  method RouteRead(i: nat, ind: Summary.Indicators, edges: seq<Edge>, gs: seq<VehicleGroup>,
                   locations: Places.Locations, groups: map<string, Group>, plan: Planner,
                   abort: (nat, nat) -> bool, ghost x: Setup, ghost ls: seq<Places.Location>)
    returns (failed: bool)
    requires i < |gs| && Distinct(gs) && PlanStays(plan, edges)
    requires locations.features == ls && Snapshot(x, gs, ls, groups, plan, abort)
    requires GroupsAt(x, i, gs) && EdgesAt(x, i, edges) && Covers(ind.maxVehiclesPerEdge, edges)
    modifies edges`vehicleCount, ind`maxVehiclesPerEdge
    modifies gs`journeyCount, gs`routedCount, gs`unroutedCount, gs`distance, gs`time
    ensures failed == Fails(x, i) && GroupsAt(x, i + 1, gs) && EdgesAt(x, i + 1, edges)
    ensures Covers(ind.maxVehiclesPerEdge, edges) && ind.maxVehiclesPerEdge >= old(ind.maxVehiclesPerEdge)
    ensures locations.features == ls && Snapshot(x, gs, ls, groups, plan, abort)
  {
    failed := RouteStage(i, ind, edges, gs, locations, groups, plan, abort, x, ls);
  }

  /** The first half of a turn of the outer loop: group `i` routes its journeys. */
  method RouteStage(i: nat, ind: Summary.Indicators, edges: seq<Edge>, gs: seq<VehicleGroup>,
                    locations: Places.Locations, groups: map<string, Group>, plan: Planner,
                    abort: (nat, nat) -> bool, ghost x: Setup, ghost ls: seq<Places.Location>)
    returns (failed: bool)
    requires i < |gs| == |x.starts| && Distinct(gs) && PlanStays(plan, edges)
    requires x.starts[i] == Start(gs[i].point, gs[i].count, gs[i].group)
    requires PlacesMirror(x.places, locations.features)
    requires x.groups == groups && x.plan == plan && x.abort == abort
    requires GroupsAt(x, i, gs) && EdgesAt(x, i, edges) && Covers(ind.maxVehiclesPerEdge, edges)
    modifies edges`vehicleCount, ind`maxVehiclesPerEdge
    modifies gs`journeyCount, gs`routedCount, gs`unroutedCount, gs`distance, gs`time
    ensures failed == Fails(x, i) && GroupsAt(x, i + 1, gs) && EdgesAt(x, i + 1, edges)
    ensures Covers(ind.maxVehiclesPerEdge, edges) && ind.maxVehiclesPerEdge >= old(ind.maxVehiclesPerEdge)
  {
    var g := gs[i];
    var journeys := if g.group in groups then groups[g.group].journeys else [];
    ghost var each := Each(journeys, x.starts[i], x.places, plan);
    assert GroupOutcomes(x, i) == Reached(each, 0, abort, i);
    assert Fails(x, i) == Failing(each, 0, abort, i);
    DistinctAt(gs, i);
    failed := RouteGroup(i, g, journeys, locations, plan, abort, ind, edges, x.starts[i], x.places);
    forall k | 0 <= k < |gs| && k != i ensures gs[k].Counters() == old(gs[k].Counters()) {
      assert gs[k] != g;
    }
    forall e | e in edges ensures e.vehicleCount == PassLoad(x, e, i + 1) {
      assert e.vehicleCount == old(e.vehicleCount) + Load(e, GroupOutcomes(x, i));
    }
  }

  /**
   * The second half of a turn of the outer loop: group `g` is counted into the totals, which
   * were those of the tallies `ts`, and the averages are refreshed.
   */
  method CountStage(g: VehicleGroup, ind: Summary.Indicators, ghost ts: seq<Tally>)
    requires ind.Totals() == Summary.Summed(ts)
    modifies ind
    ensures ind.Totals() == Summary.Summed(ts + [g.Counters()])
    ensures ind.journeyAvgTime == Average(ind.totalTime, ind.totalRoutedCount)
    ensures ind.journeyAvgDistance == Average(ind.totalDistance, ind.totalRoutedCount)
    ensures ind.maxVehiclesPerEdge == old(ind.maxVehiclesPerEdge)
  {
    assert (ts + [g.Counters()])[..|ts|] == ts;
    ind.UpdateGroup(g);
    ind.UpdateAverages();
  }
}
