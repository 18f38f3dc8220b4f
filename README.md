# trafsim core in Dafny

This project models the core of trafsim, a traffic simulator for road networks. The core is the routing and demand engine and the small data structures around it. Each Java file is one Dafny module, and the form follows the source: classes with `modifies` frames where the Java updates fields in place, loops with invariants where it loops, and datatypes and functions where it only computes.

- **Road graph** (`Network`, road_graph.dfy): directed edges are polylines. Nodes are created and deleted implicitly, one per distinct end point, and kept in a `map<Point, Node>` index. `linkNodes` and `unlinkNodes` keep the index, the nodes' in/out lists and the edge list consistent (`RoadGraph.Valid`). Every edge operation preserves that consistency: `add`, `remove`, `reverse`, `setGeometry`, `clear` and `snapToGrid`.
- **Router** (`Routing`, route_finder.dfy): the origin/destination state machine of `RouteFinder`. `findRoutesFrom` is label-correcting relaxation over a last-in-first-out work list, with whole-unit edge times. At termination the labels form a relaxation fixpoint, and every reached node's predecessor chain leads back to the origin with matching times. `getRoute` has a same-edge shortcut and a predecessor walk.
- **Routes and travel times** (`Routes`, route.dfy; `Meter`, route_meter.dfy): the section slices of `Route` and its gathered line string. The travel-time formulas of `RouteMeter` are over exact reals extended with the IEEE infinities and NaN (`XReals`).
- **Demand** (`Groups` and `Distribution`, distributor.dfy; `Moves`, movements.dfy): `Distributor.getMovements` is floor allocation plus a remainder-weighted random top-up. `Math.random` is a draw oracle in [0, 1). Under its preconditions the result conserves the vehicle count.
- **Statistics**: the simulation-wide `Indicators` (`Summary`); the per-group counters and averages of `Vehicles` and `VehicleGroup` (`Stats`, `VehicleLayer`, `LoneGroup`); and the accumulation loop of the routing pass in `RouteVehiclesTool.Router.run` (`Pass`).
- **Containers**: the layers with a `removed` flag (`VehicleLayer`, `GenericLayers`, `Places`, `Sim`); the selection set (`Selections`); the select tool's modes, attribute changes and undo records (`Select`); bounding boxes (`Boxes`); and hit-testing with the distance abstracted (`Finding`).
- **Vertex editing** (`Vertices`, `VertexEditing`): inserting and removing vertices, and splitting and joining edges. This covers both the undoable action tool and the older in-place tool.
- **Text** (`Dialog`, `Xml`): the movements text of the vehicle group dialog, with its round trip; and the tag and attribute discipline of `XMLWriter`.

Points are exact real triples compared by equality. Lengths, distances, bounding boxes, grid rounding, route finding inside the routing pass and random draws are parameters (oracles). Only the facts the source relies on are known about them, such as non-negative lengths and draws in [0, 1).

## Model

| member | source | states |
|---|---|---|
| Boxes.WithPoint | src/main/java/org/santfeliu/trafsim/Box.java:62-72 | `extend(point)` on a box with no NaN bound keeps every bound non-NaN, contains the point, is no longer undefined, and still contains every point it contained |
| Boxes.WithBox | src/main/java/org/santfeliu/trafsim/Box.java:74-84 | `extend(box)` of two boxes with no NaN bound gives a box that contains both |
| Boxes.EmptyIsUndefined | src/main/java/org/santfeliu/trafsim/Box.java:86-95 | the bounds `reset` gives are undefined and contain no point |
| Boxes.ContainsOverlaps | src/main/java/org/santfeliu/trafsim/Box.java:147-180 | a box contains a box that is not undefined only if it overlaps it |
| Boxes.OverlapsSymmetric | src/main/java/org/santfeliu/trafsim/Box.java:147-159 | `overlaps` gives the same answer with the two boxes swapped |
| Boxes.ContainsPoints | src/main/java/org/santfeliu/trafsim/Box.java:161-180 | a box that contains a box contains every point of it |
| Boxes.MoveBack | src/main/java/org/santfeliu/trafsim/Box.java:97-122 | `move(v)` then `move(-v)` restores all six bounds; `move` keeps the width and the height |
| Boxes.ScaledWidth | src/main/java/org/santfeliu/trafsim/Box.java:124-134 | scaling a box with finite x bounds by a positive factor multiplies its width by the factor |
| Boxes.Box.constructor | src/main/java/org/santfeliu/trafsim/Box.java:45-48 | the no-argument box has the reset bounds and is undefined |
| Boxes.Box.Of | src/main/java/org/santfeliu/trafsim/Box.java:50-60 | the six-argument box holds exactly the given bounds |
| Boxes.Box.Reset | src/main/java/org/santfeliu/trafsim/Box.java:86-95 | every minimum becomes +infinity and every maximum -infinity, so the box is undefined |
| Boxes.Box.ExtendPoint | src/main/java/org/santfeliu/trafsim/Box.java:62-72 | the new bounds are `WithPoint` of the old ones and the point |
| Boxes.Box.Extend | src/main/java/org/santfeliu/trafsim/Box.java:74-84 | the new bounds are `WithBox` of the old ones and the other box's |
| Boxes.Box.Move | src/main/java/org/santfeliu/trafsim/Box.java:112-122 | every bound is shifted by its axis' component of the vector |
| Boxes.Box.Scale | src/main/java/org/santfeliu/trafsim/Box.java:124-134 | every bound is multiplied by the factor |
| Boxes.Box.Set | src/main/java/org/santfeliu/trafsim/Box.java:136-145 | the box takes all six bounds of the other box |
| Network.Node.constructor | src/main/java/org/santfeliu/trafsim/RoadGraph.java:62-65 | a new node holds the point and has empty in- and out-lists |
| Network.Node.AddOutEdge | src/main/java/org/santfeliu/trafsim/RoadGraph.java:276-279 | the edge joins the end of the out-list exactly when it is not already in it |
| Network.Node.AddInEdge | src/main/java/org/santfeliu/trafsim/RoadGraph.java:291-294 | the edge joins the end of the in-list exactly when it is not already in it |
| Network.Node.IsConnectedTo | src/main/java/org/santfeliu/trafsim/RoadGraph.java:82-92 | true exactly when some out-edge of the node has the given node as its target |
| Network.CapacityInRange | src/main/java/org/santfeliu/trafsim/RoadGraph.java:326-330 | while `lanes * 1000 * speed` fits in an `int`, the capacity is that product over 390 and is not negative |
| Network.Wrap32 | src/main/java/org/santfeliu/trafsim/RoadGraph.java:326-330 | the 32-bit wrap-around of `int` arithmetic lands in the `int` range and leaves in-range values alone |
| Network.Edge.constructor | src/main/java/org/santfeliu/trafsim/RoadGraph.java:112-117 | a new edge holds the line string, speed and lanes it is given, is unlinked and has a zero vehicle count; it also holds the given delay, a field the model adds (see Left out) |
| Network.Edge.ResetIndicators | src/main/java/org/santfeliu/trafsim/RoadGraph.java:332-335 | `Indicators.reset` sets the vehicle count to 0 |
| Network.Edge.LinkNodes | src/main/java/org/santfeliu/trafsim/RoadGraph.java:263-295 | an edge with no vertices changes nothing; otherwise its source and target become the index's nodes at its first and last vertex (new ones made when missing) and it joins their out- and in-lists once |
| Network.Edge.Relink | src/main/java/org/santfeliu/trafsim/RoadGraph.java:263-295 | `linkNodes` on a loose listed edge leaves the graph consistent with the edge linked, or unchanged when the edge has no vertices |
| Network.Edge.UnlinkNodes | src/main/java/org/santfeliu/trafsim/RoadGraph.java:297-317 | both links are cleared; one occurrence of the edge leaves its source's out-list and its target's in-list, and an endpoint left with no edges leaves the index |
| Network.Edge.DetachSource | src/main/java/org/santfeliu/trafsim/RoadGraph.java:299-307 | the source half of `unlinkNodes`: the edge leaves the source's out-list and the source leaves the index when it has no edges left |
| Network.Edge.DetachTarget | src/main/java/org/santfeliu/trafsim/RoadGraph.java:308-316 | the target half of `unlinkNodes`, the same on the target's in-list |
| Network.Edge.Unlink | src/main/java/org/santfeliu/trafsim/RoadGraph.java:297-317 | on a listed edge of a consistent graph, `unlinkNodes` leaves every other edge anchored and in its nodes' lists, and the graph consistent apart from this edge |
| Network.Edge.Add | src/main/java/org/santfeliu/trafsim/RoadGraph.java:199-206 | an unlinked edge with vertices ends up linked at the nodes of its end points, in their lists and last in the edge list; a linked edge or one without vertices changes nothing; the graph stays consistent |
| Network.Edge.AddAsWritten | src/main/java/org/santfeliu/trafsim/RoadGraph.java:199-206 | as written, `add` of an edge without vertices puts it in the edge list although it is still unlinked, which breaks the graph's consistency |
| Network.Edge.Remove | src/main/java/org/santfeliu/trafsim/RoadGraph.java:209-216 | afterwards the edge is unlinked, in no node list and not in the edge list; a linked edge loses one occurrence from the edge list; an unlinked edge changes nothing |
| Network.Edge.AddThenRemove | src/main/java/org/santfeliu/trafsim/RoadGraph.java:199-216 | `add` then `remove` of an unlinked edge with vertices restores the node index and the edge list |
| Network.Edge.Retouch | src/main/java/org/santfeliu/trafsim/RoadGraph.java:180-188 | new vertices for an unlinked edge keep the graph consistent |
| Network.Edge.Reverse | src/main/java/org/santfeliu/trafsim/RoadGraph.java:154-166 | the vertex order is reversed; a linked edge stays linked, now from the node at its old end point to the node at its old start point |
| Network.Edge.ReverseTwice | src/main/java/org/santfeliu/trafsim/RoadGraph.java:154-166 | `reverse` twice restores the vertex order and the end nodes' points, so `reverse` is its own undo |
| Network.Edge.SetGeometry | src/main/java/org/santfeliu/trafsim/RoadGraph.java:175-190 | a geometry that is not a line string changes nothing; a line string replaces the vertices, relinks a linked edge at its new end points, and unlinks an edge given no vertices and takes it out of the edge list |
| Network.Edge.SetGeometryAsWritten | src/main/java/org/santfeliu/trafsim/RoadGraph.java:175-190 | as written, a linked edge given an empty line string stays in the edge list while `isRemoved` holds |
| Network.Edge.Round | src/main/java/org/santfeliu/trafsim/RoadGraph.java:396-400 | `snapToGrid` rounds the start point and then the end point of the vertex list |
| Network.Edge.DropLinks | src/main/java/org/santfeliu/trafsim/RoadGraph.java:401-405 | a dropped edge, as corrected, has its links cleared so `isRemoved` holds |
| Network.Snapped | src/main/java/org/santfeliu/trafsim/RoadGraph.java:396-400 | the rounded list keeps its size and inner vertices and rounds its two end points; a one-vertex list's point is rounded twice |
| Network.SingleVertexDropped | src/main/java/org/santfeliu/trafsim/RoadGraph.java:401-405 | `snapToGrid` always drops an edge with one vertex |
| Network.DropIf | src/main/java/org/santfeliu/trafsim/RoadGraph.java:302-305 | `nodes.remove` takes out exactly the entry at the point and keeps the others |
| Network.RoadGraph.constructor | src/main/java/org/santfeliu/trafsim/RoadGraph.java:52-53 | a new road graph has no nodes and no edges and is consistent |
| Network.RoadGraph.LinkedIffListed | src/main/java/org/santfeliu/trafsim/RoadGraph.java:218-261 | in a consistent graph an edge is linked, and not `isRemoved`, exactly when it is in the edge list |
| Network.RoadGraph.Junctions | src/main/java/org/santfeliu/trafsim/RoadGraph.java:263-295 | no duplicate junctions: two listed edges share a node exactly when the points where they meet are equal, and each point has one node |
| Network.RoadGraph.ValidIsClosed | src/main/java/org/santfeliu/trafsim/RoadGraph.java:263-295 | in a consistent graph every listed edge joins two indexed nodes and every out-edge of an indexed node is a listed edge starting there |
| Network.RoadGraph.NodeAt | src/main/java/org/santfeliu/trafsim/RoadGraph.java:267-275 | looks up the node at the point, or makes a new one with empty lists and stores it there |
| Network.RoadGraph.NewEdge | src/main/java/org/santfeliu/trafsim/RoadGraph.java:339-342 | `newEdge` gives a fresh, unlinked edge of this graph with the given vertices, speed and lanes, and the given value of the added delay field (see Left out) |
| Network.RoadGraph.Clear | src/main/java/org/santfeliu/trafsim/RoadGraph.java:377-386 | the index and the edge list are emptied and every former edge is unlinked, its vertices untouched |
| Network.RoadGraph.SnapToGrid | src/main/java/org/santfeliu/trafsim/RoadGraph.java:388-407 | as corrected: the edge list becomes the former edges, in order, whose rounded end points differ; each former edge has its end points rounded and is linked exactly when kept |
| Network.RoadGraph.SnapOne | src/main/java/org/santfeliu/trafsim/RoadGraph.java:394-406 | one turn of the loop: rounds the edge, then links and lists it again exactly when its rounded end points differ |
| Network.RoadGraph.SnapOneAsWritten | src/main/java/org/santfeliu/trafsim/RoadGraph.java:394-406 | as written, an edge whose rounded end points coincide is left out of the edge list while still linked, so `isRemoved` is false |
| Network.RoadGraph.SnapDone | src/main/java/org/santfeliu/trafsim/RoadGraph.java:388-407 | when the loop ends the graph is consistent and holds exactly the kept edges in order |
| Network.IndexRestored | src/main/java/org/santfeliu/trafsim/RoadGraph.java:263-317 | linking at two points and then dropping the entries made for them gives the index back |
| Routing.SnapshotWired | src/main/java/org/santfeliu/trafsim/RouteFinder.java:183-200 | the view a search reads of a consistent graph holds the indexed nodes, and every out-edge in it leaves its node and reaches an indexed node |
| Routing.SnapshotPaths | src/main/java/org/santfeliu/trafsim/RouteFinder.java:192-210 | from an indexed node, the walks of the view are exactly the walks of the road graph |
| Routing.EdgeGeometries | src/main/java/org/santfeliu/trafsim/RouteFinder.java:63 | the road graph as a `Finder` layer: each listed edge with its line string |
| Routing.ForwardIsStrictOrder | src/main/java/org/santfeliu/trafsim/RouteFinder.java:220-236 | for two places on one edge at most one is before the other, an earlier segment index comes first, and neither is before the other exactly when both lie on the same segment at the same distance from its first vertex |
| Routing.RelaxKeepsTree | src/main/java/org/santfeliu/trafsim/RouteFinder.java:202-207 | lowering a target's label via an improving out-edge keeps every label sound: the origin at 0, every other reached node reached by an edge from an earlier reached node in no less time |
| Routing.RelaxKeepsFixed | src/main/java/org/santfeliu/trafsim/RouteFinder.java:197-209 | after a relaxation every node outside the work list stays relaxed, and the node being expanded has one more out-edge relaxed |
| Routing.RelaxLowersMeasure | src/main/java/org/santfeliu/trafsim/RouteFinder.java:203-207 | a relaxation lowers the termination measure (unreached nodes, then the sum of finite labels) and no label rises |
| Routing.Started | src/main/java/org/santfeliu/trafsim/RouteFinder.java:182-190 | the first state: every node unreached, the origin at time 0 and alone in the work list |
| Routing.Pop | src/main/java/org/santfeliu/trafsim/RouteFinder.java:194-195 | taking the last node of the work list starts the relaxation of its out-edges |
| Routing.RelaxStep | src/main/java/org/santfeliu/trafsim/RouteFinder.java:199-208 | one turn of the inner loop either finds the edge already relaxed, or lowers the target's label, lists it again, keeps the invariant and lowers the measure |
| Routing.NoQuickerPath | src/main/java/org/santfeliu/trafsim/RouteFinder.java:192-210 | at the fixed point every node a walk reaches from a reached node is reached, no later than the walk's time allows: `minTime(v) <= minTime(u) + time(walk)` |
| Routing.Tight | src/main/java/org/santfeliu/trafsim/RouteFinder.java:203-207 | at the fixed point the edge a node was reached by leaves a reached node and its time is exactly that node's time plus the edge's |
| Routing.ReachedByTightPath | src/main/java/org/santfeliu/trafsim/RouteFinder.java:124-133 | following the `previous` edges back from a reached node ends at the origin, along a walk whose time is the node's `minTime` |
| Routing.WholeSections | src/main/java/org/santfeliu/trafsim/RouteFinder.java:130-133 | the whole-edge sections of a sequence of edges, one per edge, each holding its edge's vertex list |
| Routing.RouteFinder.constructor | src/main/java/org/santfeliu/trafsim/RouteFinder.java:54-58 | a new finder has no labels, no origin or destination and two distinct empty picks |
| Routing.RouteFinder.PickEdge | src/main/java/org/santfeliu/trafsim/RouteFinder.java:62-63 | `pick.clear()` then `Finder.findByPoint` over the listed edges; a found edge's end nodes are indexed, and the graph is left as it was |
| Routing.RouteFinder.SetOriginAt | src/main/java/org/santfeliu/trafsim/RouteFinder.java:60-68 | on a hit the search runs from the picked edge's target node; on a miss the origin and the labels stay as they were |
| Routing.RouteFinder.SetOrigin | src/main/java/org/santfeliu/trafsim/RouteFinder.java:70-74 | the start pick is cleared and the search runs from the given node |
| Routing.RouteFinder.SetDestinationAt | src/main/java/org/santfeliu/trafsim/RouteFinder.java:76-85 | the destination becomes the picked edge's source node, or null when nothing is picked |
| Routing.RouteFinder.SetDestination | src/main/java/org/santfeliu/trafsim/RouteFinder.java:87-91 | the end pick is cleared and the destination is the given node |
| Routing.RouteFinder.Clear | src/main/java/org/santfeliu/trafsim/RouteFinder.java:93-99 | both picks are cleared and both end nodes unset |
| Routing.RouteFinder.FindRoutesFrom | src/main/java/org/santfeliu/trafsim/RouteFinder.java:179-211 | afterwards every node is labelled, the origin at 0, every label is the time of a walk, and no out-edge of a reached node improves its target |
| Routing.RouteFinder.Search | src/main/java/org/santfeliu/trafsim/RouteFinder.java:182-210 | the labels the loops compute are the search's fixed point over the graph as read |
| Routing.RouteFinder.Unvisited | src/main/java/org/santfeliu/trafsim/RouteFinder.java:183-186 | every indexed node gets a label with no time and no edge |
| Routing.RouteFinder.Propagate | src/main/java/org/santfeliu/trafsim/RouteFinder.java:192-210 | the work-list loop ends at the fixed point, with no label above its start value |
| Routing.RouteFinder.RelaxFrom | src/main/java/org/santfeliu/trafsim/RouteFinder.java:197-209 | the out-edge loop relaxes every out-edge of the popped node, lowering the measure whenever it changes a label |
| Routing.RouteFinder.GetRoute | src/main/java/org/santfeliu/trafsim/RouteFinder.java:101-141 | null exactly when an end node is unset; one partial section when both picks lie forward on one edge; empty when the destination was not reached; otherwise the initial section, whole edges along a walk from the origin to the destination of least time, and the ending section |
| Routing.RouteFinder.AddQuickest | src/main/java/org/santfeliu/trafsim/RouteFinder.java:117-139 | the reached branch of `getRoute` appends the initial section, the whole edges of the quickest walk and the ending section |
| Routing.RouteFinder.FinishRoute | src/main/java/org/santfeliu/trafsim/RouteFinder.java:130-138 | the whole edges in walk order are appended, then the ending section when the end pick holds an edge |
| Routing.RouteFinder.AddWholeSections | src/main/java/org/santfeliu/trafsim/RouteFinder.java:130-133 | the backwards `for` loop appends one whole section per found edge, in the order of the walk |
| Routing.RouteFinder.Predecessors | src/main/java/org/santfeliu/trafsim/RouteFinder.java:124-129 | the `previous` edges from the destination back to the origin, read in reverse, form a walk whose time is the destination's label |
| Routing.RouteFinder.Quickest | src/main/java/org/santfeliu/trafsim/RouteFinder.java:179-211 | no walk from the origin reaches the destination in less time than the label |
| Routing.RouteFinder.ShortestTimes | src/main/java/org/santfeliu/trafsim/RouteFinder.java:192-210 | every node a walk from the origin reaches is labelled, with a time no later than the walk's |
| Routing.RouteFinder.ReachedByPath | src/main/java/org/santfeliu/trafsim/RouteFinder.java:124-133 | every reached node's label is the time of some walk from the origin |
| Routes.InitialPart | src/main/java/org/santfeliu/trafsim/Route.java:65-74 | the initial section starts at the given point and then holds the start edge's vertices after segment `index`, in order |
| Routes.EndingPart | src/main/java/org/santfeliu/trafsim/Route.java:76-85 | the ending section holds the end edge's vertices up to segment `index`, in order, and ends at the given point |
| Routes.PartialPart | src/main/java/org/santfeliu/trafsim/Route.java:95-106 | a section inside one edge starts at the first point, ends at the second, and holds the edge's vertices between the two segments in order |
| Routes.PartialIsInitialThenEnding | src/main/java/org/santfeliu/trafsim/Route.java:65-106 | the stretch between two points of one edge is the initial cut at the first point followed by the ending cut at the second |
| Routes.EndingThenInitial | src/main/java/org/santfeliu/trafsim/Route.java:65-85 | cutting an edge at a point, the ending part and the initial part meet at that point and together give the edge's polyline with the point inserted |
| Routes.SumLengths | src/main/java/org/santfeliu/trafsim/Route.java:150-166 | the section lengths summed in order are never negative |
| Routes.RouteLength | src/main/java/org/santfeliu/trafsim/Route.java:150-166 | a route's length is infinite exactly when it has no sections, and is otherwise a finite non-negative sum |
| Routes.SumLengthsAppend | src/main/java/org/santfeliu/trafsim/Route.java:150-166 | the length of two section lists joined is the sum of their lengths |
| Routes.GatheredSize | src/main/java/org/santfeliu/trafsim/Route.java:168-179 | before the final section, the gathered line string has one vertex fewer per section than the sections hold together |
| Routes.LineStringSize | src/main/java/org/santfeliu/trafsim/Route.java:168-179 | a route of non-empty sections never drops a vertex from an empty list, and its line string keeps every vertex but the one shared at each joint |
| Routes.LineStringEnd | src/main/java/org/santfeliu/trafsim/Route.java:168-179 | the final section is kept whole, so the line string ends at the last vertex of the last section |
| Routes.Route.constructor | src/main/java/org/santfeliu/trafsim/Route.java:47-50 | a new route has no sections |
| Routes.Route.AddInitialSection | src/main/java/org/santfeliu/trafsim/Route.java:65-74 | appends and returns the initial section of the start edge, leaving the earlier sections as they were |
| Routes.Route.AddEndingSection | src/main/java/org/santfeliu/trafsim/Route.java:76-85 | appends and returns the ending section of the end edge, leaving the earlier sections as they were |
| Routes.Route.AddSection | src/main/java/org/santfeliu/trafsim/Route.java:87-93 | appends and returns a section holding the whole edge's line string |
| Routes.Route.AddPartialSection | src/main/java/org/santfeliu/trafsim/Route.java:95-106 | appends and returns the stretch of one edge between two points |
| Routes.Route.Origin | src/main/java/org/santfeliu/trafsim/Route.java:52-56 | absent exactly for an empty route, otherwise the first vertex of the first section |
| Routes.Route.Destination | src/main/java/org/santfeliu/trafsim/Route.java:58-63 | absent exactly for an empty route, otherwise the last vertex of the last section |
| Routes.Route.GetLength | src/main/java/org/santfeliu/trafsim/Route.java:150-166 | the loop computes the route length: infinite with no sections, the in-order sum otherwise |
| Routes.Route.GetLineString | src/main/java/org/santfeliu/trafsim/Route.java:168-179 | the loop gathers each section's vertices and drops the joint vertex after every section but the last |
| Meter.Time | src/main/java/org/santfeliu/trafsim/RouteMeter.java:59-62 | at a non-zero speed the time is finite and covers the distance at that speed in km/h (zero for no distance, positive for a positive distance at a positive speed); at speed 0 it is NaN for no distance and infinite otherwise |
| Meter.EdgeTimeBounds | src/main/java/org/santfeliu/trafsim/RouteMeter.java:69-73 | an edge with a positive speed and no negative delay takes a finite, non-negative time, positive when its polyline has length |
| Meter.SectionTimeBounds | src/main/java/org/santfeliu/trafsim/RouteMeter.java:80-84 | a section on an edge with a positive speed and no negative delay takes a finite, non-negative time |
| Meter.WholeSectionTime | src/main/java/org/santfeliu/trafsim/RouteMeter.java:69-84 | a section covering its whole edge takes exactly the edge's time |
| Meter.PartialSectionKeepsDelay | src/main/java/org/santfeliu/trafsim/RouteMeter.java:80-84 | two sections of one edge differ in time only by their length difference at the edge's speed: a partial section is charged the whole delay |
| Meter.RouteTime | src/main/java/org/santfeliu/trafsim/RouteMeter.java:91-107 | an empty route takes infinite time |
| Meter.SumTimesBounds | src/main/java/org/santfeliu/trafsim/RouteMeter.java:91-107 | a route over drivable edges takes a finite, non-negative time |
| Meter.AppendNeverQuicker | src/main/java/org/santfeliu/trafsim/RouteMeter.java:91-107 | on drivable edges, appending a section to a non-empty route never makes it quicker and leaves its time finite |
| Meter.GetTime | src/main/java/org/santfeliu/trafsim/RouteMeter.java:91-107 | the loop over the sections computes the route time: infinite when empty, the in-order sum otherwise |
| Meter.GetLength | src/main/java/org/santfeliu/trafsim/RouteMeter.java:48-51 | the route meter's length is the route's own length |
| Distribution.Share | src/main/java/org/santfeliu/trafsim/Distributor.java:56-68 | a journey gets a movement exactly when the total is non-zero and its normalised factor is positive (with a zero total and a zero factor, the quotient is NaN and no movement is made); the movement keeps the journey's location, takes the floor of the real share, and keeps a remainder in [0, 1) that makes up the rest of the share |
| Distribution.Chosen | src/main/java/org/santfeliu/trafsim/Distributor.java:77-88 | the inner search finds no movement or the first one from the start whose remainder window holds the draw |
| Distribution.DrawHits | src/main/java/org/santfeliu/trafsim/Distributor.java:80-85 | a draw that falls in a movement's window gives that movement one more vehicle, zeroes its remainder and takes the remainder off the running total |
| Distribution.SharesFacts | src/main/java/org/santfeliu/trafsim/Distributor.java:56-69 | the first loop gives only journeys' shares, in order, each remainder in [0, 1), and distinct journey names give distinct movement names |
| Distribution.SharesAddUp | src/main/java/org/santfeliu/trafsim/Distributor.java:56-69 | with no negative factor and a positive total, the floors plus the remainders add up to the count scaled by the factors' share of the total |
| Distribution.SharesLeaveRemainders | src/main/java/org/santfeliu/trafsim/Distributor.java:71-72 | when every factor is non-negative and they sum to a positive total, the remainders add up to the vehicles left unassigned |
| Distribution.PendingBounds | src/main/java/org/santfeliu/trafsim/Distributor.java:65 | remainders in [0, 1) sum to no more than the number of open movements, and to something positive while one is open |
| Distribution.ChosenFinds | src/main/java/org/santfeliu/trafsim/Distributor.java:75-88 | a draw below the sum of the remainders always lands in some movement's window |
| Distribution.DrawEvolves | src/main/java/org/santfeliu/trafsim/Distributor.java:80-85 | a draw bumps only a movement whose remainder is still positive, so no movement is bumped twice |
| Distribution.DrawsEvolve | src/main/java/org/santfeliu/trafsim/Distributor.java:73-89 | over all draws, whatever they are, each movement ends with its first-loop count or one more, under its own name |
| Distribution.DrawHitsOne | src/main/java/org/santfeliu/trafsim/Distributor.java:73-89 | while draws are owed and the draw is in [0, 1), it hits a movement, which takes exactly one more vehicle, and the running remainder stays the sum of the open remainders |
| Distribution.DrawsHandOut | src/main/java/org/santfeliu/trafsim/Distributor.java:73-89 | the owed draws hand out exactly as many vehicles as there are draws |
| Distribution.DrawsKeepOpen | src/main/java/org/santfeliu/trafsim/Distributor.java:73-89 | each owed draw closes exactly one open movement, keeping the draw-loop state sound |
| Distribution.KeptTotal | src/main/java/org/santfeliu/trafsim/Distributor.java:92 | dropping the movements with no vehicles keeps the total |
| Distribution.KeptFrom | src/main/java/org/santfeliu/trafsim/Distributor.java:92 | every movement kept is one of the list's and has vehicles |
| Distribution.KeptDistinct | src/main/java/org/santfeliu/trafsim/Distributor.java:92 | dropping the movements with no vehicles keeps the location names distinct |
| Distribution.KeptFacts | src/main/java/org/santfeliu/trafsim/Distributor.java:92 | the removal keeps the total and distinct names and keeps only movements with vehicles |
| Distribution.ToMapKeys | src/main/java/org/santfeliu/trafsim/Distributor.java:94-98 | a location is a key of the result exactly when some movement is for it, and its value is the count of such a movement |
| Distribution.ToMapTotal | src/main/java/org/santfeliu/trafsim/Distributor.java:94-98 | with distinct locations, the values of the result sum to the movements' counts |
| Distribution.DistributionConserves | src/main/java/org/santfeliu/trafsim/Distributor.java:43-101 | with no negative factor, a positive total, distinct location names and draws in [0, 1), the result's counts sum to exactly the vehicle count |
| Distribution.EvolvedFair | src/main/java/org/santfeliu/trafsim/Distributor.java:56-92 | every non-empty movement after the draws holds the floor of its journey's real share or one more |
| Distribution.EvolvedDistinct | src/main/java/org/santfeliu/trafsim/Distributor.java:73-89 | the draws never rename a movement, so distinct names stay distinct |
| Distribution.DistributionShares | src/main/java/org/santfeliu/trafsim/Distributor.java:43-101 | whatever the factors and the draws, every location in the result has a non-zero count that is the floor of some positive share of it or one more |
| Distribution.NothingToDistribute | src/main/java/org/santfeliu/trafsim/Distributor.java:43-101 | a vehicle count of zero gives an empty result |
| Distribution.NoFactorsNoMovements | src/main/java/org/santfeliu/trafsim/Distributor.java:47-101 | a group without journeys, or with only zero factors, has a zero total, and whatever the count and the draws its result is empty, because every `0.0 / 0.0` is NaN |
| Distribution.ZeroShares | src/main/java/org/santfeliu/trafsim/Distributor.java:56-69 | with no vehicles the first loop gives every movement a count of zero |
| Distribution.KeptNone | src/main/java/org/santfeliu/trafsim/Distributor.java:92 | movements that all have no vehicles are all dropped |
| Distribution.ExampleShares | src/main/java/org/santfeliu/trafsim/Distributor.java:116-125 | the example's factors sum to 1 and its first loop gives A 6, B 4 and C 1 vehicles with remainders 0, 0.8 and 0.2 |
| Distribution.ExampleDraw | src/main/java/org/santfeliu/trafsim/Distributor.java:116-125 | the example's single draw bumps B or C |
| Distribution.MainExample | src/main/java/org/santfeliu/trafsim/Distributor.java:116-125 | the example splits 12 vehicles as A 6, B 5, C 1 or as A 6, B 4, C 2 |
| Distribution.GetMovements | src/main/java/org/santfeliu/trafsim/Distributor.java:43-101 | the method's loops compute the distribution above, into a new movements map; they accept a group whose factors sum to zero when every factor is zero |
| Distribution.SumFactors | src/main/java/org/santfeliu/trafsim/Distributor.java:47-52 | the first loop sums the journeys' factors |
| Distribution.Allot | src/main/java/org/santfeliu/trafsim/Distributor.java:54-69 | the second loop makes the journeys' shares in order and counts the vehicles it assigns |
| Distribution.DrawAll | src/main/java/org/santfeliu/trafsim/Distributor.java:70-89 | the draw loop runs once per unassigned vehicle, none when none is left over, starting from a running remainder equal to that number |
| Distribution.Collect | src/main/java/org/santfeliu/trafsim/Distributor.java:94-98 | the last loop puts the movements into a new map in order |
| Distribution.DrawOne | src/main/java/org/santfeliu/trafsim/Distributor.java:75-88 | one iteration of the draw loop, with its inner search, is one draw |
| Moves.TotalRemove | src/main/java/org/santfeliu/trafsim/VehicleGroupDialog.java:283 | the vehicle count of the movements can be summed by taking any one location out first |
| Moves.TotalPut | src/main/java/org/santfeliu/trafsim/Distributor.java:97 | putting a count under a new location adds it to the vehicle count; putting it under a known one replaces that location's share |
| Moves.TotalOfPositives | src/main/java/org/santfeliu/trafsim/VehicleGroupDialog.java:283 | movements whose counts are all positive hold at least one vehicle per location |
| Moves.Movements.constructor | src/main/java/org/santfeliu/trafsim/Distributor.java:94 | new movements hold no location |
| Moves.Movements.Copy | src/main/java/org/santfeliu/trafsim/Vehicles.java:189 | a copy holds the same counts as its original |
| Moves.Movements.Put | src/main/java/org/santfeliu/trafsim/Distributor.java:97 | a put sets one location's count, overwriting an earlier one, and leaves the others |
| Moves.Movements.GetVehicleCount | src/main/java/org/santfeliu/trafsim/VehicleGroupDialog.java:283 | the vehicle count is the sum of the counts of all locations |
| Summary.SummedBalanced | src/main/java/org/santfeliu/trafsim/Indicators.java:73-84 | when each group's journeys are all either routed or unrouted, so are the totals' journeys |
| Summary.SummedJourneys | src/main/java/org/santfeliu/trafsim/Indicators.java:73-84 | the summed journey count is never negative, and groups that have no journeys leave the totals at zero |
| Summary.PeakBounds | src/main/java/org/santfeliu/trafsim/Indicators.java:86-93 | the maximum vehicles per edge is at least its start and every edge's count, and is the start or one of the counts |
| Summary.Indicators.constructor | src/main/java/org/santfeliu/trafsim/Indicators.java:41-48 | every total, the maximum and both averages start at zero |
| Summary.Indicators.Reset | src/main/java/org/santfeliu/trafsim/Indicators.java:64-71 | zeroes the five totals and keeps the maximum and the two averages |
| Summary.Indicators.UpdateGroup | src/main/java/org/santfeliu/trafsim/Indicators.java:73-84 | a group with journeys adds its five counters to the totals; a group without leaves them; nothing else changes |
| Summary.Indicators.UpdateEdge | src/main/java/org/santfeliu/trafsim/Indicators.java:86-93 | the maximum becomes the larger of itself and the edge's vehicle count |
| Summary.Indicators.UpdateAverages | src/main/java/org/santfeliu/trafsim/Indicators.java:95-107 | each average is its total per routed journey, and 0 when nothing was routed; the totals are kept |
| Summary.Indicators.Evaluate | src/main/java/org/santfeliu/trafsim/Indicators.java:50-62 | the totals are those of the groups with journeys, the maximum is raised to the busiest edge's count, and the averages follow the totals |
| Summary.Indicators.UpdateGroups | src/main/java/org/santfeliu/trafsim/Indicators.java:53-56 | the first loop of `evaluate` sums the groups' counters from zero |
| Summary.Indicators.UpdateEdges | src/main/java/org/santfeliu/trafsim/Indicators.java:57-60 | the second loop of `evaluate` raises the maximum over the edges, in order |
| Stats.PlusBalanced | src/main/java/org/santfeliu/trafsim/Indicators.java:73-84 | adding two tallies whose journeys are each routed or unrouted keeps that balance |
| Stats.AverageMeaning | src/main/java/org/santfeliu/trafsim/Indicators.java:95-107 | an average never divides by zero: it is 0 for no routed journey, and otherwise times the count gives the total |
| Stats.GroupIndicators.constructor | src/main/java/org/santfeliu/trafsim/VehicleGroup.java:104-111 | new indicators start with all five counters at zero |
| Stats.GroupIndicators.Reset | src/main/java/org/santfeliu/trafsim/VehicleGroup.java:112-119 | all five counters go back to zero |
| Stats.GroupIndicators.JourneyAvgTime | src/main/java/org/santfeliu/trafsim/VehicleGroup.java:121-125 | 0 when nothing was routed, otherwise the time per routed journey |
| Stats.GroupIndicators.JourneyAvgDistance | src/main/java/org/santfeliu/trafsim/VehicleGroup.java:127-131 | 0 when nothing was routed, otherwise the distance per routed journey |
| LoneGroup.VehicleGroup.constructor | src/main/java/org/santfeliu/trafsim/VehicleGroup.java:48-53 | stores the point, the count and the group name as given, with no indicators yet |
| LoneGroup.VehicleGroup.GetIndicators | src/main/java/org/santfeliu/trafsim/VehicleGroup.java:98-102 | the first call creates zeroed indicators and keeps them; every later call returns that same object |
| LoneGroup.VehicleGroup.GetIndicatorsTwice | src/main/java/org/santfeliu/trafsim/VehicleGroup.java:98-102 | two calls in a row return the same object |
| VehicleLayer.VehicleGroup.constructor | src/main/java/org/santfeliu/trafsim/Vehicles.java:90-97 | a new group keeps its layer, point, count, group name and movements, starts removed and with zero counters |
| VehicleLayer.VehicleGroup.ResetIndicators | src/main/java/org/santfeliu/trafsim/Vehicles.java:213-220 | the five counters go back to zero |
| VehicleLayer.VehicleGroup.JourneyAvgTime | src/main/java/org/santfeliu/trafsim/Vehicles.java:222-226 | 0 when nothing was routed, otherwise the time per routed journey |
| VehicleLayer.VehicleGroup.JourneyAvgDistance | src/main/java/org/santfeliu/trafsim/Vehicles.java:228-232 | 0 when nothing was routed, otherwise the distance per routed journey |
| VehicleLayer.VehicleGroup.Add | src/main/java/org/santfeliu/trafsim/Vehicles.java:160-168 | a removed group is appended to its layer's list and is no longer removed; a group already listed changes nothing; the layer stays consistent |
| VehicleLayer.VehicleGroup.Remove | src/main/java/org/santfeliu/trafsim/Vehicles.java:170-178 | a listed group leaves its layer's list and is marked removed; a removed group changes nothing; the layer stays consistent |
| VehicleLayer.VehicleGroup.Duplicate | src/main/java/org/santfeliu/trafsim/Vehicles.java:186-190 | a new, removed, unlisted group of the same layer with the same point, count and group name, and movements that are a new object with the same counts, or none when there were none |
| VehicleLayer.Vehicles.constructor | src/main/java/org/santfeliu/trafsim/Vehicles.java:44-46 | a new layer lists no group |
| VehicleLayer.Vehicles.NewVehicleGroup | src/main/java/org/santfeliu/trafsim/Vehicles.java:65-69 | a new group of this layer with the given fields, removed and not in the list |
| VehicleLayer.Vehicles.GetVehicleGroup | src/main/java/org/santfeliu/trafsim/Vehicles.java:54-57 | the group at that position of the list |
| VehicleLayer.Vehicles.Clear | src/main/java/org/santfeliu/trafsim/Vehicles.java:71-79 | every listed group is marked removed and the list is emptied |
| VehicleLayer.AddTwice | src/main/java/org/santfeliu/trafsim/Vehicles.java:160-168 | adding a group twice is adding it once |
| VehicleLayer.RemoveTwice | src/main/java/org/santfeliu/trafsim/Vehicles.java:170-178 | removing a group twice is removing it once |
| VehicleLayer.AddThenRemove | src/main/java/org/santfeliu/trafsim/Vehicles.java:160-178 | a removed group added and then removed again leaves the layer's list as it was |
| Finding.Pick.constructor | src/main/java/org/santfeliu/trafsim/tool/SelectTool.java:71 | a new pick holds no feature and any distance improves on it |
| Finding.Pick.Clear | src/main/java/org/santfeliu/trafsim/tool/SelectTool.java:120 | clearing drops the feature and resets the distance to infinity, keeping the other fields |
| Finding.SegmentCandidates | src/main/java/org/santfeliu/trafsim/Finder.java:74-88 | one candidate per segment of the line string, in order, each for that feature and carrying its segment index |
| Finding.AllFromLayerAppend | src/main/java/org/santfeliu/trafsim/Finder.java:54-94 | candidates that all come from the layer still do when joined |
| Finding.CandidatesFromLayer | src/main/java/org/santfeliu/trafsim/Finder.java:54-94 | every candidate `findByPoint` measures is a point feature or a segment of a line-string feature of the layer, and polygons give none |
| Finding.CandidatesStep | src/main/java/org/santfeliu/trafsim/Finder.java:54-94 | the candidates of one more feature come from the layer when the earlier ones do |
| Finding.FeatureCandidatesFromLayer | src/main/java/org/santfeliu/trafsim/Finder.java:56-93 | the candidates of one feature come from the layer |
| Finding.ScanSnoc | src/main/java/org/santfeliu/trafsim/Finder.java:54-94 | measuring one more candidate is offering it to the pick left by the earlier ones |
| Finding.ScanAppend | src/main/java/org/santfeliu/trafsim/Finder.java:54-94 | measuring two lists of candidates is measuring the first and then the second |
| Finding.Winner | src/main/java/org/santfeliu/trafsim/Finder.java:62-68 | the winning candidate is one of the list, or none |
| Finding.ScanPicksFirstNearest | src/main/java/org/santfeliu/trafsim/Finder.java:49-96 | without an adopted candidate the pick is unchanged; otherwise it holds the winning candidate, which is within the tolerance, nearer than the pick was, no farther than any candidate within the tolerance and strictly nearer than every earlier one (the first of equally near candidates wins) |
| Finding.ScanFromLayer | src/main/java/org/santfeliu/trafsim/Finder.java:49-96 | a pick that starts empty ends empty or holding a point or line-string feature of the layer, with a segment index of that line string |
| Finding.FindByPoint | src/main/java/org/santfeliu/trafsim/Finder.java:49-96 | the pick ends as the selection rule over all the candidates leaves it, and the result says whether it holds a feature |
| Finding.ScanNextFeature | src/main/java/org/santfeliu/trafsim/Finder.java:54-94 | scanning one more feature is scanning the earlier ones and then that feature's candidates |
| Finding.OfferFeature | src/main/java/org/santfeliu/trafsim/Finder.java:56-93 | one feature of the loop: its position, each of its segments, or nothing for a polygon |
| Finding.OfferPoint | src/main/java/org/santfeliu/trafsim/Finder.java:57-69 | the point branch offers the feature's position at its distance |
| Finding.Consider | src/main/java/org/santfeliu/trafsim/Finder.java:62-68 | a candidate within the tolerance and strictly nearer than the pick becomes the pick; a segment candidate also sets the segment index |
| Finding.OfferLine | src/main/java/org/santfeliu/trafsim/Finder.java:70-89 | the line-string branch offers one candidate per segment in order, none for fewer than two vertices |
| Finding.OfferSegment | src/main/java/org/santfeliu/trafsim/Finder.java:74-88 | one iteration of the segment loop offers segment `i` after segments 0 to `i - 1` |
| Finding.FindByBox | src/main/java/org/santfeliu/trafsim/Finder.java:98-112 | adds to the selection exactly the features whose bounding box the box contains, removes nothing, and reports whether one qualified |
| GenericLayers.GenericFeature.constructor | src/main/java/org/santfeliu/trafsim/GenericLayer.java:108-112 | a new feature of the layer keeps its geometry and starts removed |
| GenericLayers.GenericFeature.Add | src/main/java/org/santfeliu/trafsim/GenericLayer.java:133-140 | a removed feature is appended to its layer's list and is no longer removed; a listed one changes nothing; the layer stays consistent |
| GenericLayers.GenericFeature.Remove | src/main/java/org/santfeliu/trafsim/GenericLayer.java:143-150 | a listed feature leaves its layer's list and is marked removed; a removed one changes nothing; the layer stays consistent |
| GenericLayers.GenericLayer.constructor | src/main/java/org/santfeliu/trafsim/GenericLayer.java:50-54 | a new layer keeps its label and lists no feature |
| GenericLayers.GenericLayer.NewFeature | src/main/java/org/santfeliu/trafsim/GenericLayer.java:56-59 | a new feature of this layer with the given geometry, removed and not in the list |
| GenericLayers.GenericLayer.Clear | src/main/java/org/santfeliu/trafsim/GenericLayer.java:87-95 | every listed feature is marked removed and the list is emptied |
| GenericLayers.AddTwice | src/main/java/org/santfeliu/trafsim/GenericLayer.java:133-140 | adding a feature twice is adding it once |
| GenericLayers.RemoveTwice | src/main/java/org/santfeliu/trafsim/GenericLayer.java:143-150 | removing a feature twice is removing it once |
| Places.Location.constructor | src/main/java/org/santfeliu/trafsim/Location.java:48-54 | a new location keeps its name, label, point and origin flag |
| Places.Locations.constructor | src/main/java/org/santfeliu/trafsim/Locations.java:41-44 | a new location layer is empty |
| Places.Locations.GetLocation | src/main/java/org/santfeliu/trafsim/Locations.java:51-60 | the first location with that name, and none exactly when no location has it |
| Places.Locations.Add | src/main/java/org/santfeliu/trafsim/Locations.java:63-66 | the location is appended, even when it is already listed |
| Places.Locations.Remove | src/main/java/org/santfeliu/trafsim/Locations.java:69-76 | the first occurrence leaves the list, and the result says whether there was one |
| Places.Locations.Clear | src/main/java/org/santfeliu/trafsim/Locations.java:79-82 | no location is left |
| Sim.Simulation.constructor | src/main/java/org/santfeliu/trafsim/Simulation.java:53-61 | a new simulation has exactly the road graph, the locations and the vehicles layers, each new and empty, in that order, and no groups |
| Sim.Simulation.GetLayerCount | src/main/java/org/santfeliu/trafsim/Simulation.java:113-116 | the number of layers, never fewer than the three fixed ones |
| Sim.Simulation.AddGenericLayer | src/main/java/org/santfeliu/trafsim/Simulation.java:128-131 | the layer is appended after every other and the fixed roles are kept |
| Sim.Simulation.GetGenericLayers | src/main/java/org/santfeliu/trafsim/Simulation.java:133-141 | the generic layers from place 3 on, in order |
| Sim.Simulation.ClearGenericLayers | src/main/java/org/santfeliu/trafsim/Simulation.java:143-149 | only the three fixed layers are left |
| Sim.AddedIsLast | src/main/java/org/santfeliu/trafsim/Simulation.java:128-141 | a generic layer just added is the last of the generic layers |
| Sim.ClearedHasNone | src/main/java/org/santfeliu/trafsim/Simulation.java:133-149 | after clearing there is no generic layer left |
| Selections.Selection.constructor | src/main/java/org/santfeliu/trafsim/MapViewer.java:793-794 | a new selection is empty |
| Selections.Selection.Set | src/main/java/org/santfeliu/trafsim/MapViewer.java:795-800 | the selection becomes exactly the one feature |
| Selections.Selection.SetAll | src/main/java/org/santfeliu/trafsim/MapViewer.java:802-807 | the selection becomes exactly the given features |
| Selections.Selection.Invert | src/main/java/org/santfeliu/trafsim/MapViewer.java:809-820 | the membership of that one feature is toggled and no other changes |
| Selections.Selection.InvertAll | src/main/java/org/santfeliu/trafsim/MapViewer.java:822-839 | each feature of a copy of the collection is toggled in turn |
| Selections.Selection.Add | src/main/java/org/santfeliu/trafsim/MapViewer.java:841-847 | set insertion, reporting whether the feature was new |
| Selections.Selection.Remove | src/main/java/org/santfeliu/trafsim/MapViewer.java:849-855 | set removal, reporting whether the feature was there |
| Selections.Selection.AddAll | src/main/java/org/santfeliu/trafsim/MapViewer.java:857-862 | union, reporting whether the selection changed |
| Selections.Selection.RemoveAll | src/main/java/org/santfeliu/trafsim/MapViewer.java:864-870 | difference, reporting whether the selection changed |
| Selections.Selection.RetainAll | src/main/java/org/santfeliu/trafsim/MapViewer.java:872-878 | intersection, reporting whether the selection changed |
| Selections.Selection.Clear | src/main/java/org/santfeliu/trafsim/MapViewer.java:880-885 | the selection becomes empty |
| Selections.Toggled | src/main/java/org/santfeliu/trafsim/MapViewer.java:809-820 | toggling puts the feature in exactly when it was not there and leaves every other feature as it was |
| Selections.ToggleTwice | src/main/java/org/santfeliu/trafsim/MapViewer.java:809-820 | toggling the same feature twice gives the selection back |
| Selections.ToggledAllSnoc | src/main/java/org/santfeliu/trafsim/MapViewer.java:822-839 | toggling one more feature after a list is toggling it after the list's result |
| Selections.ToggledAllIsSymmetricDifference | src/main/java/org/santfeliu/trafsim/MapViewer.java:822-839 | over distinct features, toggling each in turn gives the symmetric difference of the selection and the features |
| Select.ModeOf | src/main/java/org/santfeliu/trafsim/action/SelectTool.java:300-314 | shift gives ADD whether or not control is held; control alone gives INVERT; no modifier gives SET |
| Select.ClickOutcome | src/main/java/org/santfeliu/trafsim/action/SelectTool.java:316-333 | a click on nothing clears the selection in SET mode and leaves it otherwise; a click on one feature selects just it, adds it or toggles it |
| Select.InvertIsSymmetricDifference | src/main/java/org/santfeliu/trafsim/action/SelectTool.java:316-333 | over distinct features, INVERT gives the symmetric difference of the selection and the features |
| Select.UpdateTwice | src/main/java/org/santfeliu/trafsim/action/SelectTool.java:316-333 | repeating SET or ADD changes nothing; repeating INVERT over distinct features gives the first selection back |
| Select.SelectTool.constructor | src/main/java/org/santfeliu/trafsim/action/SelectTool.java:75-86 | a new tool is in SET mode on the viewer's selection |
| Select.SelectTool.SetMode | src/main/java/org/santfeliu/trafsim/action/SelectTool.java:300-314 | the mode becomes the one the modifier keys select |
| Select.SelectTool.UpdateSelection | src/main/java/org/santfeliu/trafsim/action/SelectTool.java:316-333 | the selection becomes the features, gains them, or has each toggled, by mode |
| Select.ChangeEdges | src/main/java/org/santfeliu/trafsim/action/SelectTool.java:335-345 | every listed edge gets the new speed, lanes and delay; its polyline, vehicle count and nodes stay |
| Select.ChangeVehicleGroups | src/main/java/org/santfeliu/trafsim/action/SelectTool.java:347-358 | every listed group gets the new count and group name and a fresh copy of the movements of its own, never shared with another group; its point and layer membership stay |
| Select.RecordEdges | src/main/java/org/santfeliu/trafsim/action/SelectTool.java:374-380 | the record holds speed, lanes and delay of each edge, three values per edge in edge order |
| Select.UndoEdges.constructor | src/main/java/org/santfeliu/trafsim/action/SelectTool.java:368-381 | the record keeps the edges, the new values and each edge's old speed, lanes and delay |
| Select.UndoEdges.Undo | src/main/java/org/santfeliu/trafsim/action/SelectTool.java:384-396 | every edge gets back the speed, lanes and delay recorded for it; its vertices, vehicle count and end nodes stay as they were |
| Select.UndoEdges.Redo | src/main/java/org/santfeliu/trafsim/action/SelectTool.java:399-402 | every edge gets the new speed, lanes and delay again; its vertices, vehicle count and end nodes stay as they were |
| Select.UndoEdges.Die | src/main/java/org/santfeliu/trafsim/action/SelectTool.java:405-409 | both lists of the record are emptied |
| Select.UndoLocation.constructor | src/main/java/org/santfeliu/trafsim/action/SelectTool.java:422-432 | the record keeps the new name, label and origin flag and reads the old ones from the location |
| Select.UndoLocation.Undo | src/main/java/org/santfeliu/trafsim/action/SelectTool.java:435-442 | the location gets back its old name, label and origin flag; its point stays |
| Select.UndoLocation.Redo | src/main/java/org/santfeliu/trafsim/action/SelectTool.java:445-452 | the location gets the new name, label and origin flag; its point stays |
| Select.RecordGroups | src/main/java/org/santfeliu/trafsim/action/SelectTool.java:469-476 | the record holds count, group name and movements of each group, three values per group in order |
| Select.UndoVehicleGroups.constructor | src/main/java/org/santfeliu/trafsim/action/SelectTool.java:463-477 | the record keeps the groups, the new values and each group's old count, group name and movements object |
| Select.UndoVehicleGroups.Undo | src/main/java/org/santfeliu/trafsim/action/SelectTool.java:480-492 | every group gets back its count, group name and the very movements object it had; its point and removed flag stay |
| Select.UndoVehicleGroups.Redo | src/main/java/org/santfeliu/trafsim/action/SelectTool.java:495-498 | every group gets the new count and group name and a fresh copy of the movements, no two groups sharing one; its point and removed flag stay |
| Select.UndoVehicleGroups.Die | src/main/java/org/santfeliu/trafsim/action/SelectTool.java:501-505 | both lists of the record are emptied |
| Dialog.LineEnd | src/main/java/org/santfeliu/trafsim/VehicleGroupDialog.java:128-149 | a line runs to the first line break at or after its start, or to the end of the text |
| Dialog.Lines | src/main/java/org/santfeliu/trafsim/VehicleGroupDialog.java:125-150 | the lines `readLine` returns hold no line break |
| Dialog.TokenEnd | src/main/java/org/santfeliu/trafsim/VehicleGroupDialog.java:131 | a token runs to the first space, tab or semicolon, or to the end of the line |
| Dialog.Tokens | src/main/java/org/santfeliu/trafsim/VehicleGroupDialog.java:131-137 | the tokens are non-empty and hold no space, tab or semicolon |
| Dialog.Decimal | src/main/java/org/santfeliu/trafsim/VehicleGroupDialog.java:113 | the text of a natural number is a non-empty run of decimal digits |
| Dialog.VehicleGroupDialog.constructor | src/main/java/org/santfeliu/trafsim/VehicleGroupDialog.java:55-59 | a new dialog has empty fields, no movements and is not accepted |
| Dialog.VehicleGroupDialog.FormatMovements | src/main/java/org/santfeliu/trafsim/VehicleGroupDialog.java:102-117 | with movements, the text area holds their formatted text; without, it is left as it was |
| Dialog.VehicleGroupDialog.ParseMovements | src/main/java/org/santfeliu/trafsim/VehicleGroupDialog.java:119-161 | new movements are read from the text area |
| Dialog.VehicleGroupDialog.Accept | src/main/java/org/santfeliu/trafsim/VehicleGroupDialog.java:271-290 | the vehicle count is the typed count, or 0 when it is not a number, raised to the movements' vehicle count; the movements are parsed anew and the dialog is accepted |
| Dialog.Format | src/main/java/org/santfeliu/trafsim/VehicleGroupDialog.java:106-115 | the names are sorted and one line is written per name |
| Dialog.FormatNames | src/main/java/org/santfeliu/trafsim/VehicleGroupDialog.java:109-114 | the loop writes one `name<TAB>count` line with its line feed per name, in order |
| Dialog.EntriesSnoc | src/main/java/org/santfeliu/trafsim/VehicleGroupDialog.java:109-114 | one more name gives one more entry line |
| Dialog.ConcatSnoc | src/main/java/org/santfeliu/trafsim/VehicleGroupDialog.java:113 | appending a line appends it and its line feed |
| Dialog.SortNames | src/main/java/org/santfeliu/trafsim/VehicleGroupDialog.java:107-108 | the names of the movements, sorted |
| Dialog.Least | src/main/java/org/santfeliu/trafsim/VehicleGroupDialog.java:108 | the least of a non-empty set of names comes before every other one |
| Dialog.LessIrreflexive | src/main/java/org/santfeliu/trafsim/VehicleGroupDialog.java:108 | no name comes before itself |
| Dialog.LessTransitive | src/main/java/org/santfeliu/trafsim/VehicleGroupDialog.java:108 | the order of names is transitive |
| Dialog.LessTotal | src/main/java/org/santfeliu/trafsim/VehicleGroupDialog.java:108 | of two different names one comes before the other |
| Dialog.LessAsymmetric | src/main/java/org/santfeliu/trafsim/VehicleGroupDialog.java:108 | two names never each come before the other |
| Dialog.MinimumExists | src/main/java/org/santfeliu/trafsim/VehicleGroupDialog.java:108 | every non-empty set of names has a least one |
| Dialog.OrderedHead | src/main/java/org/santfeliu/trafsim/VehicleGroupDialog.java:108 | the sorted names start with the least one |
| Dialog.OrderedMembers | src/main/java/org/santfeliu/trafsim/VehicleGroupDialog.java:107-108 | the sorted names are exactly the movements' names |
| Dialog.IncreasingCons | src/main/java/org/santfeliu/trafsim/VehicleGroupDialog.java:108 | a name below every name of an increasing list can go in front of it |
| Dialog.OrderedSorted | src/main/java/org/santfeliu/trafsim/VehicleGroupDialog.java:108 | the sorted names are in strictly increasing order |
| Dialog.OrderedDistinct | src/main/java/org/santfeliu/trafsim/VehicleGroupDialog.java:107-108 | each name is sorted in once |
| Dialog.DecimalValue | src/main/java/org/santfeliu/trafsim/VehicleGroupDialog.java:113 | the digits written for a number stand for that number |
| Dialog.ParseIntText | src/main/java/org/santfeliu/trafsim/VehicleGroupDialog.java:113 | `Integer.parseInt` reads back the text `append(int)` writes for any 32-bit number |
| Dialog.ParsedEmpty | src/main/java/org/santfeliu/trafsim/VehicleGroupDialog.java:119-161 | an empty text gives no movements |
| Dialog.ParseAllPrintable | src/main/java/org/santfeliu/trafsim/VehicleGroupDialog.java:129-150 | every name read is a non-empty token without delimiters or line breaks, and every count is positive and fits in 32 bits |
| Dialog.ParsedPrintable | src/main/java/org/santfeliu/trafsim/VehicleGroupDialog.java:119-161 | what `parseMovements` reads can be formatted and read back |
| Dialog.TokensNoBreak | src/main/java/org/santfeliu/trafsim/VehicleGroupDialog.java:131 | the tokens of a line without breaks have none either |
| Dialog.FirstTwoTokens | src/main/java/org/santfeliu/trafsim/VehicleGroupDialog.java:132-138 | a line counts only through its first two tokens |
| Dialog.LaterLineWins | src/main/java/org/santfeliu/trafsim/VehicleGroupDialog.java:141 | a later line for the same name replaces the count of an earlier one |
| Dialog.TokensOfRun | src/main/java/org/santfeliu/trafsim/VehicleGroupDialog.java:131 | a run without delimiters followed by a delimiter is the first token |
| Dialog.TokensOfLast | src/main/java/org/santfeliu/trafsim/VehicleGroupDialog.java:131 | a run without delimiters is a single token |
| Dialog.PairTokens | src/main/java/org/santfeliu/trafsim/VehicleGroupDialog.java:112-113 | the tokens of a written line are the name and the count's text |
| Dialog.IntTextPlain | src/main/java/org/santfeliu/trafsim/VehicleGroupDialog.java:113 | the text of a number holds no line break and no delimiter |
| Dialog.LinesOfFirst | src/main/java/org/santfeliu/trafsim/VehicleGroupDialog.java:113 | a line without breaks followed by a line feed is read as the first line |
| Dialog.EntryNoBreak | src/main/java/org/santfeliu/trafsim/VehicleGroupDialog.java:112-113 | a written line has no break when its name has none |
| Dialog.LinesOfConcat | src/main/java/org/santfeliu/trafsim/VehicleGroupDialog.java:113 | `readLine` gives back lines without breaks that were each written with a line feed |
| Dialog.EntriesNoBreak | src/main/java/org/santfeliu/trafsim/VehicleGroupDialog.java:109-114 | the written lines of names without breaks have no breaks |
| Dialog.ParseEntry | src/main/java/org/santfeliu/trafsim/VehicleGroupDialog.java:131-142 | reading a written line sets the name's count |
| Dialog.ParseEntries | src/main/java/org/santfeliu/trafsim/VehicleGroupDialog.java:129-150 | reading the written lines gives each name its count |
| Dialog.ParseEntriesStep | src/main/java/org/santfeliu/trafsim/VehicleGroupDialog.java:141 | the last name read joins the movements read so far |
| Dialog.RoundTrip | src/main/java/org/santfeliu/trafsim/VehicleGroupDialog.java:102-161 | `parseMovements` reads back exactly what `formatMovements` wrote, for names that are non-empty and free of spaces, tabs, semicolons and line breaks, with positive 32-bit counts |
| Dialog.AgreesAll | src/main/java/org/santfeliu/trafsim/VehicleGroupDialog.java:119-161 | movements that agree with a map on all its names are that map |
| Dialog.FormattedLines | src/main/java/org/santfeliu/trafsim/VehicleGroupDialog.java:102-117 | the text is one `name<TAB>count` line per movement, with the names in increasing order |
| Dialog.AcceptedBounds | src/main/java/org/santfeliu/trafsim/VehicleGroupDialog.java:271-290 | the accepted count is the larger of the typed count (0 when not a number) and the movements' vehicle count, so never below the number of destinations |
| Pass.IntCast | src/main/java/org/santfeliu/trafsim/action/RouteVehiclesTool.java:187 | Java's `(int)` of a double: toward zero within the `int` range, saturated at its ends |
| Pass.Reached | src/main/java/org/santfeliu/trafsim/action/RouteVehiclesTool.java:177-210 | the inner loop reaches at most the remaining journeys, and only its last outcome can be one that throws |
| Pass.Failing | src/main/java/org/santfeliu/trafsim/action/RouteVehiclesTool.java:177-210 | a group's inner loop ends the thread exactly when its last reached outcome throws |
| Pass.Stop | src/main/java/org/santfeliu/trafsim/action/RouteVehiclesTool.java:164-221 | the final group index lies between the first group looked at and the number of groups |
| Pass.Touched | src/main/java/org/santfeliu/trafsim/action/RouteVehiclesTool.java:164-221 | the groups looked at are never more than the groups |
| Pass.NoPlace | src/main/java/org/santfeliu/trafsim/action/RouteVehiclesTool.java:181 | `getLocation` finds nothing exactly when no location has the name |
| Pass.FirstPlace | src/main/java/org/santfeliu/trafsim/action/RouteVehiclesTool.java:181 | `getLocation` finds the first location with the name |
| Pass.EdgeLoadCounts | src/main/java/org/santfeliu/trafsim/action/RouteVehiclesTool.java:201-207 | a route's vehicles are added to an edge once for every section over it |
| Pass.LoadOffRoute | src/main/java/org/santfeliu/trafsim/action/RouteVehiclesTool.java:201-207 | an edge that no routed journey crosses carries nothing |
| Pass.ApplyAllBalanced | src/main/java/org/santfeliu/trafsim/action/RouteVehiclesTool.java:187-198 | without a journey that throws, every journey counted is routed or unrouted |
| Pass.BeforeStop | src/main/java/org/santfeliu/trafsim/action/RouteVehiclesTool.java:164-221 | the groups before the final index neither read the abort flag set nor threw |
| Pass.GroupBalanced | src/main/java/org/santfeliu/trafsim/action/RouteVehiclesTool.java:172-211 | a group whose journeys did not throw has every journey routed or unrouted |
| Pass.CompletedBalanced | src/main/java/org/santfeliu/trafsim/action/RouteVehiclesTool.java:164-221 | the groups before the final index are balanced |
| Pass.TotalsBalanced | src/main/java/org/santfeliu/trafsim/action/RouteVehiclesTool.java:219-220 | the simulation's totals after a pass are balanced, cut short or not, since a group that threw is not counted into them |
| Pass.PassBalanced | src/main/java/org/santfeliu/trafsim/action/RouteVehiclesTool.java:164-221 | after a pass that no exception cut short, every group looked at is balanced |
| Pass.UnknownGroup | src/main/java/org/santfeliu/trafsim/action/RouteVehiclesTool.java:172-173 | a group whose name has no journey group routes nothing and adds nothing |
| Pass.ResetEdges | src/main/java/org/santfeliu/trafsim/action/RouteVehiclesTool.java:148-151 | every edge's vehicle count goes back to zero |
| Pass.ResetGroups | src/main/java/org/santfeliu/trafsim/action/RouteVehiclesTool.java:153-156 | every group's counters go back to zero |
| Pass.LoadTrip | src/main/java/org/santfeliu/trafsim/action/RouteVehiclesTool.java:201-207 | each section's edge takes the journey's vehicles and the maximum per edge keeps covering every edge |
| Pass.FindPlace | src/main/java/org/santfeliu/trafsim/action/RouteVehiclesTool.java:181 | the location found is the one the lookup over the locations gives, and none exactly when it gives none |
| Pass.RouteJourney | src/main/java/org/santfeliu/trafsim/action/RouteVehiclesTool.java:179-209 | one journey has the outcome `JourneyOutcome` describes, adds it to the group's counters and its route's vehicles to the edges |
| Pass.Advance | src/main/java/org/santfeliu/trafsim/action/RouteVehiclesTool.java:177-210 | one turn of the inner loop has the next journey's outcome |
| Pass.RouteGroup | src/main/java/org/santfeliu/trafsim/action/RouteVehiclesTool.java:172-211 | the inner loop leaves the group's counters and the edges' counts as the reached outcomes describe, and reports whether one threw |
| Pass.StopStep | src/main/java/org/santfeliu/trafsim/action/RouteVehiclesTool.java:164-221 | after group `i` the pass goes on to the next group, or stops there when the group threw |
| Pass.Run | src/main/java/org/santfeliu/trafsim/action/RouteVehiclesTool.java:141-224 | after the resets, each group in turn routes its journeys, is counted into the totals and refreshes the averages, until the groups run out, the abort flag is read set or a journey throws; the result gives the final index and how the pass ended |
| Pass.Prepare | src/main/java/org/santfeliu/trafsim/action/RouteVehiclesTool.java:143-156 | the three resets leave the pass with no counts at all |
| Pass.RouteGroups | src/main/java/org/santfeliu/trafsim/action/RouteVehiclesTool.java:161-221 | the outer loop from the reset counters ends at the final index with the counters of the groups looked at |
| Pass.Turn | src/main/java/org/santfeliu/trafsim/action/RouteVehiclesTool.java:165-220 | one turn of the outer loop routes group `i` and counts it unless it threw |
| Pass.CountTurn | src/main/java/org/santfeliu/trafsim/action/RouteVehiclesTool.java:219-220 | a group routed without an exception is counted into the totals |
| Pass.RouteKept | src/main/java/org/santfeliu/trafsim/action/RouteVehiclesTool.java:166-211 | routing a group leaves the totals and the averages as they were |
| Pass.RouteRead | src/main/java/org/santfeliu/trafsim/action/RouteVehiclesTool.java:166-211 | routing a group leaves what the pass reads of groups and locations as it was |
| Pass.RouteStage | src/main/java/org/santfeliu/trafsim/action/RouteVehiclesTool.java:166-211 | routing group `i` leaves the counters of the first `i + 1` groups and the edges as the pass describes |
| Pass.CountStage | src/main/java/org/santfeliu/trafsim/action/RouteVehiclesTool.java:219-220 | a group's counters are added to the totals and the averages follow the new totals |
| Vertices.SplitVertices | src/main/java/org/santfeliu/trafsim/action/EditVerticesTool.java:377-393 | the two copy loops of `splitEdge` give the vertices up to the segment's start then the point, and the point then the rest |
| Vertices.InsertedShape | src/main/java/org/santfeliu/trafsim/action/EditVerticesTool.java:314 | the inserted point sits right after the picked segment's start, the other vertices keep their order, and removing it again gives the old list |
| Vertices.RemoveKeepsTwo | src/main/java/org/santfeliu/trafsim/action/EditVerticesTool.java:341-345 | removing a vertex from a line string of more than two leaves at least two, the others in order |
| Vertices.SplitShape | src/main/java/org/santfeliu/trafsim/action/EditVerticesTool.java:377-393 | the halves share the split point and between them hold every vertex once; the first starts where the polyline started and the second ends where it ended |
| Vertices.SplitThenJoin | src/main/java/org/santfeliu/trafsim/action/EditVerticesTool.java:377-393 | joining the two halves of a split gives the polyline with the split point inserted |
| Vertices.JoinShape | src/main/java/org/santfeliu/trafsim/action/EditVerticesTool.java:452-454 | the joined list drops only the first list's last vertex, keeps the first's start and ends where the second ends |
| Vertices.JoinGuard | src/main/java/org/santfeliu/trafsim/action/EditVerticesTool.java:426-441 | `joinEdges` goes ahead exactly when one pick is at vertex 0 and the other at a later vertex; the later pick's edge comes first |
| VertexEditing.Rebuild | src/main/java/org/santfeliu/trafsim/action/EditVerticesTool.java:308-315 | removing an edge, giving it new vertices and adding it leaves it with those vertices, linked exactly when it has some, and last in the edge list |
| VertexEditing.Take | src/main/java/org/santfeliu/trafsim/action/EditVerticesTool.java:369 | removing a listed edge unlinks it and takes it off the edge list; nothing else changes |
| VertexEditing.AddNewEdge | src/main/java/org/santfeliu/trafsim/action/EditVerticesTool.java:396-398 | the three-argument `newEdge` and `add` give a new linked edge with the given vertices, speed and lanes, last in the list; its added delay field is 0, which is assumed (see Left out) |
| VertexEditing.Reset | src/main/java/org/santfeliu/trafsim/action/EditVerticesTool.java:524-527 | remove, `setGeometry` and add leave the feature with the recorded vertices, linked exactly when it has some |
| VertexEditing.SetLine | src/main/java/org/santfeliu/trafsim/action/EditVerticesTool.java:526 | `setGeometry` on a removed edge replaces only its vertices |
| VertexEditing.InsertVertex | src/main/java/org/santfeliu/trafsim/tool/EditVerticesTool.java:275-301 | the point goes in after the picked segment's start, the end points stay, and the edge is linked again |
| VertexEditing.SplitEdge | src/main/java/org/santfeliu/trafsim/tool/EditVerticesTool.java:324-377 | the picked edge is removed and deselected, and two new edges with its speed and lanes, one up to the split point and one from it, are added and selected |
| VertexEditing.SplitCopy | src/main/java/org/santfeliu/trafsim/action/EditVerticesTool.java:368-402 | the graph part of `splitEdge`: the edge is unlinked with its vertices kept and the two halves are linked at the end of the list |
| VertexEditing.Reselect | src/main/java/org/santfeliu/trafsim/action/EditVerticesTool.java:370-405 | the old edge leaves the selection and the two halves join it |
| VertexEditing.AddBoth | src/main/java/org/santfeliu/trafsim/action/EditVerticesTool.java:394-402 | two new linked edges with the given vertices, speed and lanes and no delay, appended in order |
| VertexEditing.JoinPicks | src/main/java/org/santfeliu/trafsim/action/EditVerticesTool.java:426-441 | a join is chosen exactly for two picks one at vertex 0 and one later; the pick at the later vertex is the edge to continue |
| VertexEditing.JoinInPlace | src/main/java/org/santfeliu/trafsim/tool/EditVerticesTool.java:379-411 | both edges are removed, the second is deselected, and the first takes the joined vertex list in place and is added again; when both picks are on one edge the list is its own shortened list twice |
| VertexEditing.JoinAndDeselect | src/main/java/org/santfeliu/trafsim/tool/EditVerticesTool.java:398-408 | the older join on two edges, then the second leaves the selection |
| VertexEditing.JoinInto | src/main/java/org/santfeliu/trafsim/tool/EditVerticesTool.java:398-408 | the first edge takes the joined vertex list and is linked again; the second is left removed with its vertices |
| VertexEditing.Thin | src/main/java/org/santfeliu/trafsim/action/EditVerticesTool.java:333-348 | the picks one after the other keep the same edges and never take back a re-added one |
| VertexEditing.ThinNoneStays | src/main/java/org/santfeliu/trafsim/action/EditVerticesTool.java:333-348 | once a pick with a stale index has thrown, the rest are not reached |
| VertexEditing.ThinKeepsTwo | src/main/java/org/santfeliu/trafsim/action/EditVerticesTool.java:341 | no line string of two or more vertices is ever left with fewer than two |
| VertexEditing.RemoveVertices | src/main/java/org/santfeliu/trafsim/tool/EditVerticesTool.java:303-322 | each pick in turn: an edge of more than two vertices loses the picked one and is linked again; a stale index throws and ends the loop |
| VertexEditing.ThinAt | src/main/java/org/santfeliu/trafsim/action/EditVerticesTool.java:335-346 | one turn of the loop over the picks |
| VertexEditing.ThinEdge | src/main/java/org/santfeliu/trafsim/action/EditVerticesTool.java:343-345 | an edge of more than two vertices is removed, loses the picked vertex and is added again |
| VertexEditing.RemoveEdges | src/main/java/org/santfeliu/trafsim/action/EditVerticesTool.java:514-517 | every listed feature is unlinked and every other listed edge stays listed |
| VertexEditing.TakeAt | src/main/java/org/santfeliu/trafsim/action/EditVerticesTool.java:516 | one turn of the removal loop |
| VertexEditing.PutBack | src/main/java/org/santfeliu/trafsim/action/EditVerticesTool.java:522-528 | every feature gets its recorded vertex list and is linked exactly when it has vertices; every other listed edge stays listed |
| VertexEditing.PutAt | src/main/java/org/santfeliu/trafsim/action/EditVerticesTool.java:524-527 | one turn of the restoring loop |
| VertexEditing.Undo.constructor | src/main/java/org/santfeliu/trafsim/action/EditVerticesTool.java:502-509 | the record keeps the old and new features with their vertex lists |
| VertexEditing.Undo.Undo | src/main/java/org/santfeliu/trafsim/action/EditVerticesTool.java:511-531 | the new features are unlinked and, unless the two lists are one, deselected; every old feature gets its old vertices back and is linked when it has some; other edges stay listed |
| VertexEditing.Undo.Redo | src/main/java/org/santfeliu/trafsim/action/EditVerticesTool.java:533-553 | the mirror image of undo, with the old and new lists exchanged |
| VertexEditing.CopyPickFeatures | src/main/java/org/santfeliu/trafsim/action/EditVerticesTool.java:473-481 | the picks' features, in pick order |
| VertexEditing.CopyPickGeometries | src/main/java/org/santfeliu/trafsim/action/EditVerticesTool.java:483-493 | a copy of each pick's vertex list, in pick order |
| VertexEditing.InsertVertexAction | src/main/java/org/santfeliu/trafsim/action/EditVerticesTool.java:292-327 | the vertex is inserted and the record holds the one feature with its old and new vertices, in one list for both |
| VertexEditing.RemoveVertexAction | src/main/java/org/santfeliu/trafsim/action/EditVerticesTool.java:329-354 | the vertices are removed as above; a stale index throws before any record is made; otherwise the record holds the picks' features with their vertices before and after |
| VertexEditing.SplitEdgeAction | src/main/java/org/santfeliu/trafsim/action/EditVerticesTool.java:356-422 | the edge is split as above and the record holds the old edge with its vertices and the two halves with theirs |
| VertexEditing.Duplicate | src/main/java/org/santfeliu/trafsim/action/EditVerticesTool.java:451 | a new, removed edge of the same graph with the same vertices, speed, lanes and delay |
| VertexEditing.JoinEdgesAction | src/main/java/org/santfeliu/trafsim/action/EditVerticesTool.java:424-471 | without a valid pair of picks nothing changes; otherwise both edges are removed and deselected, a duplicate of the first with the joined vertices is added and selected, and the record holds both old edges and the new one |
| VertexEditing.JoinEdges | src/main/java/org/santfeliu/trafsim/action/EditVerticesTool.java:443-456 | both old edges are unlinked and deselected, and a new edge with the first's speed, lanes and delay and the joined vertices is linked and selected |
| VertexEditing.ReselectJoined | src/main/java/org/santfeliu/trafsim/action/EditVerticesTool.java:448-456 | both old edges leave the selection and the new one joins it |
| VertexEditing.JoinCopy | src/main/java/org/santfeliu/trafsim/action/EditVerticesTool.java:443-455 | the graph part of the undoable join |
| VertexEditing.AddJoined | src/main/java/org/santfeliu/trafsim/action/EditVerticesTool.java:451-455 | the duplicate of the first edge takes the joined vertex list and is linked |
| Xml.XmlWriter.constructor | src/main/java/org/santfeliu/trafsim/io/XMLWriter.java:45-51 | a new writer has printed nothing and has no tag open |
| Xml.XmlWriter.WritePreamble | src/main/java/org/santfeliu/trafsim/io/XMLWriter.java:53-56 | the XML declaration is printed on a line of its own |
| Xml.XmlWriter.StartTag | src/main/java/org/santfeliu/trafsim/io/XMLWriter.java:63-68 | any open tag is closed, then `<tag` is printed and left open |
| Xml.XmlWriter.WriteAttribute | src/main/java/org/santfeliu/trafsim/io/XMLWriter.java:70-76 | ` name="value"` is printed only while a start tag is open |
| Xml.XmlWriter.WriteText | src/main/java/org/santfeliu/trafsim/io/XMLWriter.java:78-85 | any open tag is closed, then the text is printed when there is one |
| Xml.XmlWriter.EndTag | src/main/java/org/santfeliu/trafsim/io/XMLWriter.java:87-91 | any open tag is closed, then `</tag>` is printed |
| Xml.XmlWriter.CloseStartTag | src/main/java/org/santfeliu/trafsim/io/XMLWriter.java:93-97 | `>` is printed when a start tag is open; afterwards none is |
| Xml.RunAppends | src/main/java/org/santfeliu/trafsim/io/XMLWriter.java:53-97 | every operation only appends to what was printed |
| Xml.StartTagOpens | src/main/java/org/santfeliu/trafsim/io/XMLWriter.java:63-68 | a start tag leaves a tag open, after closing the one that was |
| Xml.AttributeOnlyWhenOpen | src/main/java/org/santfeliu/trafsim/io/XMLWriter.java:70-76 | an attribute changes the output exactly when a start tag is open, and never changes the flag |
| Xml.ClosersClose | src/main/java/org/santfeliu/trafsim/io/XMLWriter.java:78-97 | text, end tags and `closeStartTag` leave no tag open |
| Xml.CloseIdempotent | src/main/java/org/santfeliu/trafsim/io/XMLWriter.java:93-97 | a second `closeStartTag` prints nothing |
| Xml.NoTextOnlyCloses | src/main/java/org/santfeliu/trafsim/io/XMLWriter.java:78-85 | writing no text only closes an open tag |
| Xml.EmptyElement | src/main/java/org/santfeliu/trafsim/io/XMLWriter.java:63-91 | a start tag followed at once by its end tag prints `<t></t>`; nothing is self-closed |
| Xml.StartWithAttributes | src/main/java/org/santfeliu/trafsim/io/XMLWriter.java:63-76 | a start tag and its attributes print `<t` and each ` name="value"` in order, with the tag still open |
| Xml.Element | src/main/java/org/santfeliu/trafsim/io/XMLWriter.java:63-91 | an element with attributes and text prints `<t a="v"...>text</t>` |

## Left out

- Swing and AWT user interface: painting, mouse and keyboard handling, dialogs other than the movements text and the count rule of `VehicleGroupDialog`, and `Console`. Repainting and `setModified` calls inside the modelled operations are dropped, because they only notify the display.
- The mouse-driven tools other than the select, vertex-editing and routing logic (`DrawEdgeTool`, `DrawLocationTool`, `DrawVehicleGroupTool`, `FindRouteTool`, `MoveTool`, `DeleteAction`, `ReverseEdgesAction`). They are thin loops over `add`, `remove` and `reverse`, or translations on floating-point matrices.
- File and network I/O: `SimulationReader`, `SimulationWriter`, `GMLReader` and `GMLWriter`. Of `XMLWriter`, `writePoint3d` (Java number formatting) and `close` (stream handling) are left out; its output is a character sequence.
- Floating point: doubles are exact reals, with the IEEE infinities and NaN only where the source relies on them. Rounding error, `Math.round` grid rounding, `Point3d.distance`, point-to-segment distance, line-string length and bounding boxes of geometries are oracles (`snap`, `dist`, `seg`, `length`, `boundsOf`). Only non-negativity of lengths and distances is assumed. `Finding.FindByPoint`'s `seg` oracle always gives a real distance. For a zero-length segment, the source's point-to-segment distance divides 0 by 0, giving NaN, so that segment is never adopted; the model does not capture this.
- `Math.random` in `Distributor` is a draw oracle whose values lie in [0, 1); the JDK generator is not modelled.
- Concurrency and timing in the routing pass: the `Router` thread, cross-thread visibility of `abort` (modelled as an input sequence of flags), the `currentTimeMillis` repaint throttle, and the synchronized map of `Simulation`. Inside the pass, the route finder is a parameter giving each journey's route edges, length and time.
- `Edge.transform` is not modelled (a matrix transform of the vertices); it shares the unlink, change and relink pattern that `reverse` and `setGeometry` are proved to keep consistent.
- `Edge.Indicators.getCapacity` is modelled only as a formula, with its 32-bit wrap-around (`Network.Capacity`, `Network.CapacityInRange`).
- `Movements`, `Group`/`Journey`, `Feature`, `Layer`, `PickInfo` and `LineString` are not part of this model's sources. They are modelled minimally: movements as a map from location name to count, a journey as a name and a factor, a line string as its vertex list.
- `Finder.findVertices` and `Edge.duplicate` are not part of this model's sources. `duplicate` is taken to copy the vertices, speed, lanes and delay into a new, unlinked edge (`VertexEditing.Duplicate`).
- The `Edge` class and the three-argument `newEdge` of `RoadGraph.java` (lines 103-117 and 339-342) carry no delay. `RouteMeter` (lines 72 and 83) and the select tool (`action/SelectTool.java` lines 158-163) call `getDelay` and `setDelay` of a newer `Edge`, so the model adds an `int` delay field as those callers use it, and `Network.RoadGraph.NewEdge` takes its value as a fourth argument. That the vertex editor's three-argument `newEdge` gives delay 0 is an assumption (`VertexEditing.AddNewEdge`).
- `VertexEditing`: a line string shared, by aliasing, between an undo record and an edge is not modelled; records hold vertex lists as values. Where the source changes the selection and the graph in one step, the model performs the graph change first and then the selection change.
- `VertexEditing.RemoveVertices`: an index made stale by an earlier pick on the same edge, which throws in the source, is modelled as the `failed` result; the edge is left removed, as the source leaves it.
- Routing.RouteFinder.FindRoutesFrom, Routing.RouteFinder.ShortestTimes, Routing.RouteFinder.ReachedByPath, Routing.RouteFinder.SetOrigin: the search's edge times are the `weight` oracle, a whole number of units per edge, and are not tied to `Meter`'s times. Four things are therefore not captured. (1) At speed 0, `RouteMeter` gives an edge time of +infinity, or NaN at length 0 (RouteMeter.java lines 59-73). Then `time < nextNodeInfo.minTime` (RouteFinder.java line 203) never holds over that edge, whereas the model reaches its target at a finite weight. (2) A negative delay gives a negative edge time, which a `nat` weight cannot express. (3) Fractions of an hour become whole units. (4) `SetOrigin` requires the node to be in the graph's index; for a node off the index the source throws a `NullPointerException` at RouteFinder.java line 190.
- Routing.RouteFinder.GetRoute: it requires that the search ran on the current graph and that the destination node has a label. The source throws a `NullPointerException` when the destination was set on a node that the search did not label.
- `Box.getVolume`, `RouteFinder.getOriginNode`/`getDestinationNode`/`getOrigin`/`getDestination`, the `toString` methods and the plain getters and setters (`Location`, `Edge.getSpeed`/`setSpeed`, `Simulation` title, spatial reference system, duration and `getBoundingBox`) are left out: they return or store a field and promise nothing more.
- Moves.Movements.GetVehicleCount, Dialog.VehicleGroupDialog.Accept, Dialog.AcceptedBounds, Distribution.Share, Distribution.Distribution: Java `int` overflow is not modelled. The sum of movement counts is unbounded, and so are the accepted vehicle count that rests on it, `assigned` in `getMovements`, and the counters of the indicators and the routing pass. `Distribution.Share` takes the exact floor of the real share, where Distributor.java line 64 casts it with `(int)`, saturating at the ends of the `int` range.
- Distribution.Distribution, Distribution.GetMovements: a group whose factors sum to zero is accepted only when every factor is zero; that case is modelled (no movement). For mixed-sign factors that cancel out, a positive factor divided by 0.0 gives +infinity, which is positive. The `(int)Math.floor` at Distributor.java line 64 then saturates to `Integer.MAX_VALUE`, and the remainder is infinite. The model does not cover this case.
- Dialog.VehicleGroupDialog.ParseMovements, Dialog.VehicleGroupDialog.Accept, Dialog.AcceptedBounds, Dialog.Format, Dialog.SortNames, Dialog.VehicleGroupDialog.FormatMovements, Dialog.FormattedLines, Xml.XmlWriter.WritePreamble: three text details are simplified. (1) Only the ASCII digits '0' to '9' make a number (`Dialog.IsDigit`). `Integer.parseInt` (VehicleGroupDialog.java lines 138 and 275) accepts every Unicode decimal digit through `Character.digit`, so a movement line whose count is written in other decimal digits is kept by the source and dropped by the model, and such a typed vehicle count is its value in the source and 0 in the model. (2) Names are ordered by Unicode scalar value (`Dialog.Less`), whereas `Collections.sort` at VehicleGroupDialog.java line 108 uses `String.compareTo`, which compares UTF-16 code units. The two orders differ only where names first differ at a character outside the Basic Multilingual Plane and one from U+E000 to U+FFFF: the model puts the supplementary character after it, the source before it. (3) The line separator that `println` writes (io/XMLWriter.java line 55) is taken to be "\n".
- `Network.Edge` and `VehicleLayer.VehicleGroup` hold their indicator counters as plain fields of their own. In the source each holds an `Indicators` object that `getIndicators` creates lazily on first use, and that object is never shared. The lazy creation is modelled only for the stand-alone `VehicleGroup.java` (`LoneGroup.VehicleGroup.GetIndicators`). The `(int)` cast of `count * factor` is modelled exactly, truncating toward zero and saturating at the ends of the `int` range (`Pass.IntCast`).

## Findings

| source | as written | input that shows it | evidently intended | confidence | as-written member | corrected member |
|---|---|---|---|---|---|---|
| src/main/java/org/santfeliu/trafsim/RoadGraph.java:199-206 | `add` calls `linkNodes`, which returns early for an edge without vertices, and then appends the edge to `edges` anyway | an unlinked edge whose line string has no vertices: after `add` it is in `edges` while `isRemoved` still holds, so a second `add` appends it again | `add` of an edge that cannot be linked leaves the edge list unchanged | not executed | Network.Edge.AddAsWritten | Network.Edge.Add |
| src/main/java/org/santfeliu/trafsim/RoadGraph.java:175-190 | `setGeometry` on a linked edge unlinks it, stores the new line string and calls `linkNodes`, which returns early when the line string is empty | a linked edge given an empty line string: it stays in `edges` although it is unlinked and `isRemoved` holds | an edge that is left unlinked also leaves the edge list, as `remove` does | not executed | Network.Edge.SetGeometryAsWritten | Network.Edge.SetGeometry |
| src/main/java/org/santfeliu/trafsim/RoadGraph.java:388-407 | `snapToGrid` clears `nodes` and `edges` and relinks only the edges whose rounded end points differ; the dropped edges keep their old `sourceNode` and `targetNode` | an edge whose two end points round to the same grid point: it is out of `edges`, but `isRemoved` is false and its nodes are no longer in the index | a dropped edge is unlinked, so that `isRemoved` holds for it | not executed | Network.RoadGraph.SnapOneAsWritten | Network.RoadGraph.SnapOne |
