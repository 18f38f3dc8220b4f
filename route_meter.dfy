/**
 * `RouteMeter`: travel times in hours from lengths in metres, speeds in km/h and delays in
 * seconds, computed on doubles (modelled as exact reals with IEEE infinities and NaN).
 */
module Meter {
  import opened Geom
  import opened XReals
  import opened Routes
  import Network

  /** `getTime(distance, speed)`: `distance / (1000 * speed)`. */
  function Time(distance: real, speed: real): (t: XReal)
    ensures speed != 0.0 ==> t.Fin? && t.r * (1000.0 * speed) == distance
    ensures speed != 0.0 && distance == 0.0 ==> t == Fin(0.0)
    ensures distance > 0.0 && speed > 0.0 ==> t.Fin? && t.r > 0.0
    ensures speed == 0.0 ==> (t.NaN? <==> distance == 0.0) && (t.PosInf? <==> distance > 0.0)
  {
    Div(distance, 1000.0 * speed)
  }

  /** The fixed delay in hours, `delay / 3600.0`. */
  function DelayTime(delay: int): real {
    delay as real / 3600.0
  }

  /** `getTime(edge)`: the time to cover the edge's polyline at its speed, plus its delay. */
  function EdgeTime(edge: Network.Edge, length: LengthOf): (t: XReal)
    reads edge
  {
    Add(Time(length(edge.vertices), edge.speed as real), Fin(DelayTime(edge.delay)))
  }

  /** `getTime(section)`: the section's own length at its edge's speed, plus the edge's whole delay. */
  function SectionTime(section: Section, length: LengthOf): (t: XReal)
    reads section.edge
  {
    Add(Time(length(section.vertices), section.edge.speed as real), Fin(DelayTime(section.edge.delay)))
  }

  /** An edge with a positive speed and no negative delay takes a finite, non-negative time. */
  lemma EdgeTimeBounds(edge: Network.Edge, length: LengthOf)
    requires edge.speed > 0 && edge.delay >= 0
    ensures EdgeTime(edge, length).Fin? && EdgeTime(edge, length).r >= 0.0
    ensures length(edge.vertices) > 0.0 ==> EdgeTime(edge, length).r > 0.0
  {
  }

  /** A section on an edge with a positive speed and no negative delay takes a finite, non-negative time. */
  lemma SectionTimeBounds(section: Section, length: LengthOf)
    requires section.edge.speed > 0 && section.edge.delay >= 0
    ensures SectionTime(section, length).Fin? && SectionTime(section, length).r >= 0.0
  {
  }

  /** A section that covers its whole edge takes the edge's own time. */
  lemma WholeSectionTime(edge: Network.Edge, length: LengthOf)
    ensures SectionTime(Section(edge.vertices, edge), length) == EdgeTime(edge, length)
  {
  }

  /**
   * Two sections of one edge differ in time only by the time to cover their difference in
   * length: a partial section is charged the edge's full delay.
   */
  lemma PartialSectionKeepsDelay(s1: Section, s2: Section, length: LengthOf)
    requires s1.edge == s2.edge && s1.edge.speed > 0
    ensures SectionTime(s1, length).Fin? && SectionTime(s2, length).Fin?
    ensures SectionTime(s1, length).r - SectionTime(s2, length).r
         == (length(s1.vertices) - length(s2.vertices)) / (1000.0 * s1.edge.speed as real)
  {
    var k := 1000.0 * s1.edge.speed as real;
    var t1 := Time(length(s1.vertices), s1.edge.speed as real);
    var t2 := Time(length(s2.vertices), s1.edge.speed as real);
    assert t1.r * k - t2.r * k == length(s1.vertices) - length(s2.vertices);
    assert (t1.r - t2.r) * k == length(s1.vertices) - length(s2.vertices);
  }

  /** The section times summed in order, starting from 0. */
  function SumTimes(ss: seq<Section>, length: LengthOf): XReal
    reads EdgesOf(ss)
  {
    if ss == [] then Fin(0.0)
    else Add(SumTimes(ss[..|ss| - 1], length), SectionTime(ss[|ss| - 1], length))
  }

  /** `getTime(route)`: infinite for an empty route, otherwise the sum of the section times. */
  function RouteTime(ss: seq<Section>, length: LengthOf): (t: XReal)
    reads EdgesOf(ss)
    ensures ss == [] ==> t == PosInf
  {
    if ss == [] then PosInf else SumTimes(ss, length)
  }

  /** Every section lies on an edge with a positive speed and a non-negative delay. */
  predicate Drivable(ss: seq<Section>)
    reads EdgesOf(ss)
  {
    forall k | 0 <= k < |ss| :: ss[k].edge.speed > 0 && ss[k].edge.delay >= 0
  }

  /** On drivable edges the summed time is a finite, non-negative number. */
  lemma {:induction false} SumTimesBounds(ss: seq<Section>, length: LengthOf)
    requires Drivable(ss)
    ensures SumTimes(ss, length).Fin? && SumTimes(ss, length).r >= 0.0
  {
    if ss != [] {
      var init := ss[..|ss| - 1];
      assert EdgesOf(init) <= EdgesOf(ss) by {
        forall s | s in init ensures s in ss { }
      }
      assert Drivable(init) by {
        forall k | 0 <= k < |init| ensures init[k].edge.speed > 0 && init[k].edge.delay >= 0 {
          assert init[k] == ss[k];
        }
      }
      SumTimesBounds(init, length);
      SectionTimeBounds(ss[|ss| - 1], length);
    }
  }

  /** On drivable edges, appending a section to a non-empty route never makes it quicker. */
  lemma AppendNeverQuicker(ss: seq<Section>, s: Section, length: LengthOf)
    requires ss != [] && Drivable(ss + [s])
    ensures Le(RouteTime(ss, length), RouteTime(ss + [s], length))
    ensures RouteTime(ss + [s], length).Fin?
  {
    var all := ss + [s];
    assert all[..|all| - 1] == ss;
    assert Drivable(ss) by {
      forall k | 0 <= k < |ss| ensures ss[k].edge.speed > 0 && ss[k].edge.delay >= 0 {
        assert ss[k] == all[k];
      }
    }
    SumTimesBounds(ss, length);
    assert all[|all| - 1] == s;
    SectionTimeBounds(s, length);
    var a := SumTimes(ss, length);
    var t := SectionTime(s, length);
    assert RouteTime(all, length) == Add(a, t) == Fin(a.r + t.r);
  }

  /** `getTime(route)`: the loop over the sections. */
  method GetTime(route: Routes.Route, length: LengthOf) returns (time: XReal)
    ensures time == RouteTime(route.sections, length)
  {
    if route.IsEmpty() {
      time := PosInf;
    } else {
      time := Fin(0.0);
      var i := 0;
      while i < |route.sections|
        invariant 0 <= i <= |route.sections|
        invariant time == SumTimes(route.sections[..i], length)
      {
        var ss := route.sections[..i + 1];
        assert ss[..|ss| - 1] == route.sections[..i];
        time := Add(time, SectionTime(route.sections[i], length));
        i := i + 1;
      }
      assert route.sections[..i] == route.sections;
    }
  }

  /** `getLength(route)`: the route's own length. */
  method GetLength(route: Routes.Route, length: LengthOf) returns (total: XReal)
    ensures total == RouteLength(route.sections, length)
  {
    total := route.GetLength(length);
  }
}
