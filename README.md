# h3d-drone-emulator in Dafny

A model of the core of the h3d drone emulator, a Go service that keeps a fleet
of drones, vehicles and people moving, with proofs about it. The service does
these things:

- It keeps the fleet's state: positions, statuses, mission channels, batteries
  and patrol tracks.
- It flies missions and returns to base along synthesized straight routes.
- It answers route requests. Each answer gives the flight's schedule, the
  restricted zones the straight path crosses and when, and the drone's
  remaining battery time at the destination.

The model covers the four parts of that logic.

- **Planar geometry and airspace checks.**
  - `Segments` is the segment-intersection test, even-odd point-in-polygon and
    segment-meets-polygon of util/checker.go and internal/noflyzone/checker.go.
    The two files share the same text for these. Go keeps two copies of
    `doLineIntersectPolygon` and two last-index lookups (`checkIndex` over
    drones, and the loop over resources); the model keeps both copies
    (`ClearanceCheck.DoLineIntersectPolygon` and
    `NoFlyZoneCheck.DoesLineIntersectPolygon`, `EmulatorData.CheckIndex` and
    `Emulator.ResourceIndex`), each proved against one shared definition or
    stated alike.
  - `ClearanceCheck` models the rest of util/checker.go:
    - the closed-form line intersection;
    - the entry/exit edge scan;
    - the activation-window rule;
    - the package-level `crossedZones` log, as the class `ClearanceLog`.
  - `NoFlyZoneCheck` is the older, untimed zone check.
  - `GeoZones` is utils/geo.go, whose `orientation` is the mirror image of the
    others, and utils/time.go.
  - `GeoJson` is the MultiPolygon reader both zone loaders use (RFC 7946
    sections 3.1.1, 3.1.6 and 3.1.7).
- **Route synthesis.** `Routes` covers:
  - interpolated, time-stamped waypoints;
  - the 13-point straight route;
  - the parsing of `lat,lon:lat,lon` queries.
- **The fleet.**
  - `EmulatorData` covers the CSV patrol tracks, the start-up batches, the
    drone lookup and the remaining operation time.
  - `Emulator` is the state machine of service/emulator-service.go, as the
    class `Fleet`:
    - start-up;
    - mission admission and stop commands;
    - one tick of each of the mission, return-to-base, patrol and battery
      loops;
    - the location aggregator.

    Channels are FIFO queues of pending messages. Each goroutine loop is cut
    into single ticks, each an atomic method.
  - `RouterService` and `EmulatorPath` are the two `GetPath` services. Each
    reloads zones on every request.
- **Request handling.**
  - `Controller` covers the route handler: its parameter binds, in order; the
    travel-time and clearance rule; and the summary and waypoints it answers.
  - It also covers `handleErrors`, which maps error texts to HTTP statuses.
  - `DroneRecords` is the listing transform of models/drone-h3d.go.
  - `Text` states the Go string functions the core relies on over `seq<char>`:
    `strings.Split`, `strings.Contains`, `strings.TrimSpace` and `strconv.Itoa`.

## Representation choices

- **Numbers.** Coordinates and other float64 values are exact `real`s.
  Instants are integer nanoseconds since the Unix epoch. Go's truncating
  conversions are written out:
  - `time.Duration(x)` of a float is `ClearanceCheck.TruncToInt`;
  - integer `Duration` division is `Routes.TruncDiv`.
- **Panics** become explicit failure values: `Failure` of a `Result`, a
  `Panic` reply or a `Crashed` task state. Examples are an index past the end
  of a slice and a failed type assertion.
- **Outside collaborators become parameters:**
  - `haversineDistance` and the heading computation are function-typed
    parameters;
  - `strconv.ParseFloat` is a partial function `string -> Option<real>`;
  - the zone service's answer, the files read from storage, the random draws
    and the clock are plain inputs.

Behaviours of the code that a reader might not expect:

- A path that lies wholly inside a zone meets no zone edge. The code then
  reports no crossing and requires no clearance
  (`ClearanceCheck.PathInsideSquareNotCrossed`, util/checker.go:49-71).
- A return to base that is aborted by a new mission command briefly sets the
  status to PATROL (service/emulator-service.go:1137,
  `Emulator.Fleet.ReturnTick`). The goroutine that sent START then runs the new
  mission, which writes MISSION (line 283) and normally wins the race. The
  model fixes the opposite order: the new mission begins first, and the
  return loop hears START afterwards (see the races under "## Left out").
- The mission loop does not return to base when it reaches its last waypoint
  (service/emulator-service.go:291-334). It holds there until any message
  arrives on its channel (`Emulator.QuietMissionSendsRouteInOrder`). Each hold
  logs the mission id through its pointer, so a command sent without a
  "missionId" crashes the process at the first hold (line 308).
- A mission command without a "resourceId" is not refused by the binder
  (controller/emulator-controller.go:274-281): the start and stop handlers
  dereference the nil id (service/emulator-service.go:728 and 764) and panic
  whenever there is a resource (`Emulator.Fleet.StartResourceMission`).
- Clearance is decided from the package-level crossed-zones log, which is never
  cleared (util/checker.go:9, 108-117; controller/emulator-controller.go:340-349).
  Once any route has crossed a zone, every later route answer requires
  clearance and adds the clearance time (`Controller.ClearanceIsSticky`).
- A mission or stop command for an unknown resource fails with "resource not
  found". `handleErrors` answers that text with a 500, not a 400
  (controller/emulator-controller.go:491-499,
  `Controller.UnknownResourceIsInternalError`). A resource already on a
  mission is refused with "<id> is not available".

## Model

| member | source | states |
|---|---|---|
| Segments.Orientation | util/checker.go:177-186 | the label is one of 0, 1, 2: 0 exactly when the cross value is zero, 1 exactly when it is positive, 2 exactly when it is negative |
| Segments.CrossAntisymmetric | internal/noflyzone/checker.go:84-93 | exchanging the first two points negates the cross value |
| Segments.OrientationSwap | internal/noflyzone/checker.go:84-93 | exchanging the first two points swaps labels 1 and 2 and keeps 0 |
| Segments.OrientationDegenerate | util/checker.go:177-186 | a triple with a repeated point (so also orientation(p,p,p)) is labelled collinear |
| Segments.OnSegmentEndpoints | internal/noflyzone/checker.go:79-82 | the bounding-box test holds at both end points and is symmetric in them |
| Segments.OnSegment | util/checker.go:171-174 | the bounding-box test; its properties are stated by Segments.OnSegmentEndpoints |
| Segments.DoIntersectSymmetric | util/checker.go:188-215 | the segment test gives the same answer with the two segments exchanged |
| Segments.DoIntersectReversed | util/checker.go:188-215 | the answer does not depend on the direction of the first segment |
| Segments.DoIntersectEdgeReversed | internal/noflyzone/checker.go:95-122 | the answer does not depend on the direction of the second segment |
| Segments.DoIntersectSharedEndpoint | internal/noflyzone/checker.go:95-122 | two segments sharing an end point always intersect, through the collinear special cases |
| Segments.DoIntersect | util/checker.go:188-215 | the general and collinear cases of the segment test; its properties are stated by the four DoIntersect lemmas above |
| Segments.EdgeTest | util/checker.go:156-163 | the loop body flips `inside` exactly when the point's Lon is in the edge's half-open Lon range, the edge is not flat in Lon, and the point is at or below the crossing Lat |
| Segments.IsPointInPolygon | util/checker.go:145-169 | the result is the even-odd rule: false below 3 vertices, else an odd number of toggling edges, closing edge included |
| Segments.InsidePolygon | util/checker.go:145-169 | the even-odd rule the loop is proved against, stated by Segments.IsPointInPolygon and the lemmas below |
| Segments.NoCrossingsBeyondMaxLat | internal/noflyzone/checker.go:53-77 | a point with a larger Lat than every vertex toggles no edge |
| Segments.NoCrossingsOutsideLonRange | internal/noflyzone/checker.go:53-77 | a point whose Lon is outside the vertices' Lon range toggles no edge |
| Segments.OutsideBoundingBox | util/checker.go:145-169 | a point north, east or west of every vertex is reported outside |
| Segments.LineMeetsPolygon | internal/noflyzone/checker.go:33-51 | true exactly when some edge (the closing edge n-1 to 0 included) meets the segment or either end point is inside |
| Segments.MeetsPolygon | util/checker.go:125-143 | the verdict both polygon loops are proved against, stated by Segments.LineMeetsPolygon |
| Segments.VertexOnLineMeets | util/checker.go:125-143 | a path that starts or ends at a vertex of the polygon meets it |
| Segments.EmptyPolygonMeetsNothing | util/checker.go:125-143 | a polygon without vertices meets no segment |
| ClearanceCheck.IntersectionOnBothLines | util/checker.go:73-83 | parallel lines give the zero Point; otherwise the point returned (with its x and y stored as Lon and Lat) lies on both lines |
| ClearanceCheck.IntersectionUnique | util/checker.go:73-83 | for non-parallel lines the point returned is the only point on both |
| ClearanceCheck.FetchIntersectionPoint | util/checker.go:73-83 | the closed-form intersection; its properties are stated by ClearanceCheck.IntersectionOnBothLines and ClearanceCheck.IntersectionUnique |
| ClearanceCheck.HitEdges | util/checker.go:53-64 | the edges that meet the path, each listed once, in traversal order, and no other edge |
| ClearanceCheck.LineIntersectingRestrictedZones | util/checker.go:49-71 | the scan with its two found flags returns the crossing of the polygon: the points on the first two edges hit and true, or two zero Points and false |
| ClearanceCheck.Crossing | util/checker.go:49-71 | the entry/exit result the scan is proved against; stated by ClearanceCheck.CrossingUsesFirstTwoHits and ClearanceCheck.FewHitsNoCrossing |
| ClearanceCheck.CrossingUsesFirstTwoHits | util/checker.go:49-71 | a reported crossing comes from two distinct edges: the entry edge is the first edge met and the exit edge the next; later hits are ignored |
| ClearanceCheck.FewHitsNoCrossing | util/checker.go:66-70 | with at most one edge met, the result is two zero Points and false |
| ClearanceCheck.PathInsideSquareNotCrossed | util/checker.go:49-71 | a path inside a square zone that touches no side is not reported as crossing it, though its start is inside |
| ClearanceCheck.EntryFollowsVertexOrder | util/checker.go:53-62 | "entry" is the edge met first in vertex order: flying north through the square, the far side is reported as the entry |
| ClearanceCheck.NorthboundHits | util/checker.go:53-64 | the northbound path meets edges 1 and 3 of the square, in that order |
| ClearanceCheck.ConvertMphToMps | util/checker.go:121-123 | metres per second are miles per hour times 0.44704; a positive speed stays positive |
| ClearanceCheck.TruncToInt | util/checker.go:97-98 | time.Duration of a float drops the fraction toward zero, for either sign |
| ClearanceCheck.TruncMonotone | util/checker.go:97-98 | a larger float never truncates to a smaller integer |
| ClearanceCheck.ArrivalOrder | util/checker.go:95-98 | arrival offsets are never before the current time, and a farther boundary point is reached no earlier |
| ClearanceCheck.ArrivalNanos | util/checker.go:97-98 | the instant a boundary point is reached, whole seconds of flight after the start; stated by ClearanceCheck.ArrivalOrder |
| ClearanceCheck.WholeSeconds | util/checker.go:102-111 | rebuilding an instant with 0 nanoseconds gives the whole second that contains it; the route summary's departure and arrival times (controller/emulator-controller.go:388-404) use it too |
| ClearanceCheck.ZoneClearances | util/checker.go:90-116 | one verdict per zone, in zone order, each the zone's own clearance |
| ClearanceCheck.ZoneClearance | util/checker.go:92-115 | one zone's entry when the path crosses it inside its window; stated by ClearanceCheck.ZeroBoundAlwaysActive, ClearanceCheck.EnteredAfterWindowSkipped and ClearanceCheck.MillisecondBoundsReadAsSeconds |
| ClearanceCheck.PresentInOrder | util/checker.go:108-112 | the entries appended are exactly the admitted zones' entries, in zone order |
| ClearanceCheck.NewlyCrossed | util/checker.go:108-112 | the entries one call appends; stated by ClearanceCheck.PresentInOrder |
| ClearanceCheck.ZeroBoundAlwaysActive | util/checker.go:101 | a crossed zone with a start or end bound of 0 is always recorded |
| ClearanceCheck.EnteredAfterWindowSkipped | util/checker.go:101 | a crossed zone with both bounds set is skipped when the path enters it at or after its end |
| ClearanceCheck.MillisecondBoundsReadAsSeconds | util/checker.go:101 | the bounds are read as Unix seconds: with bounds in milliseconds, an entry after the real end (end/1000 seconds) but before end seconds is still admitted |
| ClearanceCheck.WindowAdmits | util/checker.go:101 | the admission rule, bounds read as Unix seconds; stated by ClearanceCheck.ZeroBoundAlwaysActive, ClearanceCheck.EnteredAfterWindowSkipped and ClearanceCheck.MillisecondBoundsReadAsSeconds |
| ClearanceCheck.DoLineIntersectPolygon | util/checker.go:125-143 | true exactly when some edge meets the line or an end point is inside |
| ClearanceCheck.ClearanceLog.constructor | util/checker.go:9 | the log starts empty |
| ClearanceCheck.ClearanceLog.IsPathInRestrictedZone | util/checker.go:85-118 | the log grows by the admitted zones' entries in zone order; the flag is true exactly when this call added one; the slice returned is the whole log, earlier calls included |
| NoFlyZoneCheck.DoesLineIntersectPolygon | internal/noflyzone/checker.go:33-51 | true exactly when some edge (closing edge included) meets the line or an end point is inside |
| NoFlyZoneCheck.IsPathInNoFlyZone | internal/noflyzone/checker.go:21-31 | true exactly when some zone meets the path, so false for no zones |
| NoFlyZoneCheck.PathInNoFlyZone | internal/noflyzone/checker.go:21-31 | the verdict the zone loop is proved against; stated by NoFlyZoneCheck.ConcatenatedZones and NoFlyZoneCheck.PathFromZoneVertexRefused |
| NoFlyZoneCheck.ConcatenatedZones | internal/noflyzone/checker.go:21-31 | the verdict on two lists of zones together is the disjunction of the verdicts |
| NoFlyZoneCheck.ActivationTimesIgnored | internal/noflyzone/checker.go:21-51 | zones that differ only in their activation times give the same verdict |
| NoFlyZoneCheck.PathFromZoneVertexRefused | internal/noflyzone/checker.go:21-51 | a path from or to a vertex of some zone is always refused |
| GeoZones.GeoOrientation | utils/geo.go:54-63 | 0 exactly for collinear triples, 1 for a positive (q-p)x(r-q) value, 2 for a negative one |
| GeoZones.GeoCrossIsNegatedCross | utils/geo.go:54-63 | this file's cross value is the negation of the other two files' |
| GeoZones.GeoOrientationMirrors | utils/geo.go:54-63 | so its labels 1 and 2 are those of the other files swapped |
| GeoZones.IsLineIntersectingAgrees | utils/geo.go:20-47 | in spite of the swap, isLineIntersecting agrees with doIntersect on every input |
| GeoZones.IsLineIntersecting | utils/geo.go:20-47 | the segment test with the mirrored orientation; stated by GeoZones.IsLineIntersectingAgrees |
| GeoZones.RingMeets | utils/geo.go:10-14 | the scan of a ring from pair i is true exactly when some consecutive pair j >= i meets the path |
| GeoZones.PolygonsMeet | utils/geo.go:9-16 | the scan of the polygons from k answers true exactly when a polygon's first ring has a meeting pair before any polygon without rings is reached; it fails with the index-out-of-range panic exactly when such an empty polygon comes first; otherwise false |
| GeoZones.IsPathIntersectingZone | utils/geo.go:8-17 | true exactly when, scanning the polygons in order, a first ring with a consecutive pair (no wrap-around) meeting the path comes before any polygon without rings; the `polygon[0]` panic exactly when an empty polygon comes first; false otherwise, so false without polygons |
| GeoZones.RingsPresentVerdict | utils/geo.go:8-17 | when every polygon has a ring, the check never panics, and it is true exactly when some polygon's first ring has a pair meeting the path |
| GeoZones.EarlyHitBeforeEmptyPolygon | utils/geo.go:9-13 | a first polygon whose ring meets the path answers true, whatever polygons follow, empty ones included |
| GeoZones.LeadingEmptyPolygonPanics | utils/geo.go:9-10 | a first polygon without rings panics with index out of range |
| GeoZones.WindowNotRead | utils/geo.go:8-17 | the zone's start and end times never change the verdict |
| GeoZones.ClosedRingCoversAllEdges | utils/geo.go:10-14 | on a closed ring, the consecutive pairs test exactly the polygon's edges with the closing one |
| GeoZones.OpenRingMissesClosingEdge | utils/geo.go:10-14 | on an open ring the closing edge is never checked: a path crossing only that edge is not reported |
| GeoZones.ZoneWindowBounds | utils/time.go:8-10 | both bounds are inclusive; a zone with start after end is never active; outside [start, end] it is inactive |
| GeoZones.ZoneWindowConvex | utils/time.go:9 | active at t1 and t2 means active at every t between |
| GeoZones.IsZoneActive | utils/time.go:8-10 | the inclusive window test; stated by GeoZones.ZoneWindowBounds and GeoZones.ZoneWindowConvex |
| GeoJson.ExtractPolygon | service/router-service.go:58-73 | the nested walk returns outer[0][0]'s points, or the panic of an empty level or a non-number coordinate |
| GeoJson.FailureIsFinal | service/emulator-service.go:1214-1223 | once a position panics, later positions change nothing |
| GeoJson.RingRoundTrip | service/router-service.go:61-70 | reading the positions [Lon, Lat] of a list of points gives back the points: Lat is element 1 and Lon element 0 |
| GeoJson.PositionPoint | service/router-service.go:61-70 | one position read as a point, Lat from element 1 and Lon from element 0; stated by GeoJson.RingRoundTrip |
| GeoJson.FirstRingRoundTrip | service/router-service.go:58-73 | a one-ring MultiPolygon built from points reads back as those points |
| GeoJson.FirstRing | service/router-service.go:58-73 | the first ring of the first polygon; stated by GeoJson.FirstRingRoundTrip and GeoJson.LaterRingsIgnored |
| GeoJson.LaterRingsIgnored | service/emulator-service.go:1211-1213 | holes and later polygons are never read: only the first ring of the first polygon counts |
| GeoJson.RingPointsFromEntries | service/router-service.go:61-70 | every point read comes from some position of the ring, and there are no more points than positions |
| RouterService.AllZonesLoaded | service/router-service.go:55-81 | with readable geometries, one zone per instance, in order, with its first ring and its activation timestamps |
| RouterService.LoadStopsAtFirstBadGeometry | service/router-service.go:55-81 | the first unreadable geometry panics, and the zones before it stay appended |
| RouterService.LoadedZones | service/router-service.go:55-81 | the zones one load appends; stated by RouterService.AllZonesLoaded and RouterService.LoadStopsAtFirstBadGeometry |
| RouterService.ZoneRegistry.constructor | service/router-service.go:31-85 | the zone list starts empty |
| RouterService.ZoneRegistry.GetNoFlyZone | service/router-service.go:31-85 | the global zone list grows by the zones loaded, on every call |
| RouterService.ZoneRegistry.GetPath | service/router-service.go:108-129 | zones are appended first; then a panic, a refusal with "Path has intersect flyzone", or the haversine distance times 1000 |
| RouterService.RefusalIsSticky | service/router-service.go:108-129 | because the zone list only grows, a refused query stays refused on later requests |
| RouterService.ReloadChangesNoAnswer | service/router-service.go:108-129 | loading the same zones twice answers as loading them once |
| RouterService.AnswerFollowsZones | service/router-service.go:119-127 | refused exactly when the path meets a zone; otherwise the answer is the distance in metres |
| RouterService.PathAnswer | service/router-service.go:108-129 | the answer to a query over a zone list; stated by RouterService.AnswerFollowsZones and RouterService.RefusalIsSticky |
| EmulatorPath.RestrictedZonesInOrder | service/emulator-service.go:1207-1236 | with readable geometries, one zone per instance, in order, with its id, first ring and millisecond bounds |
| EmulatorPath.UnreadableGeometryPanics | service/emulator-service.go:1207-1236 | any unreadable geometry makes the whole load panic |
| EmulatorPath.RestrictedZones | service/emulator-service.go:1207-1236 | the zones the load builds; stated by EmulatorPath.RestrictedZonesInOrder and EmulatorPath.UnreadableGeometryPanics |
| EmulatorPath.GetRestrictedZone | service/emulator-service.go:1184-1237 | the loop builds exactly the zones of the instances, or the first panic |
| EmulatorPath.PanicIsFinal | service/emulator-service.go:1207-1236 | after a panic the remaining instances change nothing |
| EmulatorPath.GetPath | service/emulator-service.go:1259-1278 | a zone-load panic or an unsplittable query fails with the log unchanged; otherwise the log grows by this path's crossings and the answer is the distance times 1000 with the whole log, whether or not a zone was crossed |
| Routes.InterpolateEnds | service/router-service.go:183-188 | fraction 0 gives the first point and 1 the second; every coordinate at a fraction in [0, 1] lies between the end values |
| Routes.Interpolate | service/router-service.go:183-188 | the point at a fraction of the way; stated by Routes.InterpolateEnds |
| Routes.TruncDiv | service/router-service.go:165 | Go's integer division: for every sign, the remainder a - q*b is smaller than b in magnitude and is zero or has the sign of a |
| Routes.TruncDivUnique | service/router-service.go:165 | those two remainder properties determine the quotient: any q that has them is TruncDiv(a, b) |
| Routes.GetWaypoints | service/router-service.go:156-180 | exactly numWaypoints entries, entry i is the interpolation at i/(n-1) timed start + i*step |
| Routes.WaypointEnds | service/router-service.go:173-177 | entry 0 is the source at the start time, entry n-1 is the destination |
| Routes.WaypointsBetween | service/emulator-service.go:1331-1336 | every interpolated coordinate lies between its source and destination values |
| Routes.WaypointTimes | service/router-service.go:162-176 | times never decrease when end >= start; the last time is at most end and less than n-1 nanoseconds before it |
| Routes.WaypointAt | service/router-service.go:170-177 | one waypoint of the list; stated by Routes.WaypointEnds, Routes.WaypointsBetween and Routes.WaypointTimes |
| Routes.TimeStep | service/router-service.go:165 | the whole-nanosecond time step, a truncating division; stated by Routes.WaypointTimes and Routes.TruncDiv |
| Routes.GetStraightRoute | service/emulator-service.go:340-359 | empty unless both inputs have two values; otherwise 13 points, point i = source + i*(dest-source)/12 |
| Routes.StraightRouteEnds | service/emulator-service.go:346-357 | point 0 is the source, point 12 the destination, and each step adds the same difference |
| Routes.StraightRouteInterpolates | service/emulator-service.go:346-357 | point i of the route is the interpolation at i/12 |
| Routes.StraightPoint | service/emulator-service.go:346-357 | one point of the straight route; stated by Routes.StraightRouteEnds and Routes.StraightRouteInterpolates |
| Routes.SourceDestinationRoundTrip | service/router-service.go:87-106 | a query "a,b:c,d" gives source (a, b) and destination (c, d), with unparseable fields read as 0 |
| Routes.MissingDestinationPanics | service/emulator-service.go:1239-1257 | a query without ':' panics with an index out of range |
| Routes.GetSourceDestinationPoints | service/router-service.go:87-106 | the query's two points; stated by Routes.SourceDestinationRoundTrip and Routes.MissingDestinationPanics |
| Routes.FloatOrZero | service/router-service.go:87-106 | a ParseFloat whose error is ignored, 0 on failure; stated by Routes.SourceDestinationRoundTrip |
| EmulatorData.GetWayPoints | service/emulator-service.go:193-215 | the points of the kept lines, in line order |
| EmulatorData.ReadRow | service/emulator-service.go:200-207 | a line gives a point exactly when it has three comma fields, the first is not a header name, and the trimmed second and third parse; they are latitude and longitude |
| EmulatorData.LinePoint | service/emulator-service.go:200-207 | the point of one line; stated by EmulatorData.ReadRow, EmulatorData.RowRoundTrip and EmulatorData.HeaderSkipped |
| EmulatorData.TrackPointsAppend | service/emulator-service.go:199-209 | the points of two blocks of lines are the points of each, concatenated |
| EmulatorData.RowRoundTrip | service/emulator-service.go:200-206 | a data row "id,lat,lon" with parseable fields gives its point |
| EmulatorData.HeaderSkipped | service/emulator-service.go:201 | a row whose first field is "id" or "squadId" is skipped |
| EmulatorData.TrackPointsFromLines | service/emulator-service.go:199-209 | every point comes from some kept line, and there are no more points than lines |
| EmulatorData.TrackPoints | service/emulator-service.go:199-209 | the points of the kept lines; stated by EmulatorData.TrackPointsAppend and EmulatorData.TrackPointsFromLines |
| EmulatorData.ChunkResources | service/emulator-service.go:1008-1018 | the chunks concatenate to the input; all but the last have 500 elements, the last 1 to 500; empty input gives no chunks |
| EmulatorData.ChunkCount | service/emulator-service.go:1008-1018 | there are ceil(n / 500) chunks |
| EmulatorData.FullChunksLength | service/emulator-service.go:1008-1018 | full chunks hold 500 elements each |
| EmulatorData.CheckIndex | service/emulator-service.go:713-721 | the index of the last drone with the id, or -1 exactly when none has it |
| EmulatorData.DepletionRate | service/emulator-service.go:1282 | 100 percent is drained over the battery life in minutes |
| EmulatorData.GetRemainingOperationTimeAtLocation | service/emulator-service.go:1280-1286 | fails (the drones[-1] panic) exactly when no drone has the id |
| EmulatorData.RemainingTimeIsChargeLessTrip | service/emulator-service.go:1280-1286 | the remaining time is the charge's worth of seconds less the trip; a longer trip leaves less |
| EmulatorData.ChargeSeconds | service/emulator-service.go:1282-1285 | the battery's worth of seconds; stated by EmulatorData.RemainingTimeIsChargeLessTrip |
| Emulator.ResourceIndex | service/emulator-service.go:271-276 | the position of the last resource with the id, or -1 exactly when none has it |
| Emulator.SentinelRejectsSouthernResource | service/emulator-service.go:269-279 | the (-1, -1) sentinel turns away an existing resource at a negative latitude |
| Emulator.CurrentPosition | service/emulator-service.go:1112-1127 | found exactly when some resource has the id, at that resource's position |
| Emulator.LookupsAgreeOffSentinel | service/emulator-service.go:269-279 | on resources with no negative coordinate the sentinel test and the corrected lookup agree |
| Emulator.SentinelPosition | service/emulator-service.go:269-276 | the position read as written, (-1, -1) until a resource with the id is seen; stated by Emulator.SentinelRejectsSouthernResource and Emulator.CurrentPosition |
| Emulator.SentinelFinds | service/emulator-service.go:277-278 | the as-written "found" test on that position, also goBackToBase's (lines 1125-1126); stated by Emulator.SentinelRejectsSouthernResource and Emulator.LookupsAgreeOffSentinel |
| Emulator.InitialDronesAtHome | service/emulator-service.go:92-130 | every start-up drone is at its home on the ground with a battery in [50, 100], and belongs to a "DRONE" resource |
| Emulator.NewDrone | service/emulator-service.go:95-125 | the drone built for one resource; stated by Emulator.InitialDronesAtHome |
| Emulator.InitialDrones | service/emulator-service.go:92-130 | the drones of the start-up pass; stated by Emulator.InitialDronesAtHome and Emulator.BuildDrones |
| Emulator.PatrolStatuses | service/emulator-service.go:89-93 | every loaded resource starts as PATROL |
| Emulator.BuildDrones | service/emulator-service.go:92-130 | one drone per "DRONE" resource, in order, with a battery in [50, 100] |
| Emulator.LoadTracks | service/emulator-service.go:137-161 | every resource's track is the points of its CSV file |
| Emulator.Fleet.constructor | service/emulator-service.go:64-191 | start-up: all PATROL, the drones and tracks above, no mission channel, no pending location, and the fleet invariant |
| Emulator.QuietMissionSendsRouteInOrder | service/emulator-service.go:291-332 | quiet ticks send the waypoints after the current one, in order, each once; the loop then holds at the last, or crashes on its first hold (the nil mission-id dereference of line 308) when the command had no mission id |
| Emulator.FreshMissionFlight | service/emulator-service.go:280-332 | a new mission sends waypoints 1 to 12 and nothing more; a 13th quiet tick crashes it when the command had no mission id |
| Emulator.QuietMissionStep | service/emulator-service.go:291-332 | one tick of the mission loop with no message: the next waypoint, or the hold, which crashes without a mission id; stated by Emulator.QuietMissionSendsRouteInOrder |
| Emulator.QuietMissionRun | service/emulator-service.go:291-332 | where several quiet ticks leave the loop and the locations they send; stated by Emulator.QuietMissionSendsRouteInOrder and Emulator.FreshMissionFlight |
| Emulator.ChargeStep | service/emulator-service.go:510-555 | a battery tick changes only the battery |
| Emulator.ChargeStaysInRange | service/emulator-service.go:512-555 | a battery in [0, 100] stays there; charging never lowers it and flying never raises it |
| Emulator.TickDrain | service/emulator-service.go:549 | the percent lost in one 5-second tick; stated by Emulator.ChargeStaysInRange |
| Emulator.DrainedBatteryStays | service/emulator-service.go:519-547 | an empty battery away from home is left unchanged: the drone is stranded, so a teleport home is sent for it |
| Emulator.ChargeAll | service/emulator-service.go:510-557 | each drone gets its own battery step, and the teleports are those of the stranded drones, in order |
| Emulator.Teleports | service/emulator-service.go:519-547 | the home teleports of one battery tick; stated by Emulator.ChargeAll and Emulator.DrainedBatteryStays |
| Emulator.Fleet.StartResourceMission | service/emulator-service.go:723-759 | no resourceId: the nil-dereference panic when any resource exists, else "resource not found"; unknown id: "resource not found", nothing changed; otherwise a channel exists afterwards, and MISSION is refused with "<id> is not available", RETURN_TO_BASE is sent START, anything else starts |
| Emulator.Fleet.StopResourceMission | service/emulator-service.go:761-778 | no resourceId: the nil-dereference panic when any resource exists, else "resource not found"; unknown id: "resource not found"; a known id's channel, if any, gets STOP; nothing else changes |
| Emulator.Fleet.BeginMission | service/emulator-service.go:268-290 | no resourceId crashes when any resource exists; an unknown resource fails; no mission waypoint panics; else status MISSION and, with a channel, a loop on the 13-point straight route (every point stated) from the current position to the first waypoint |
| Emulator.Fleet.MissionTick | service/emulator-service.go:291-334 | a pending message is taken and the return to base begins; otherwise the quiet step: hold at the last waypoint (a crash without a mission id), or send the next one; an empty route panics |
| Emulator.Fleet.BeginReturnToBase | service/emulator-service.go:1109-1131 | status RETURN_TO_BASE first; then the 13-point straight route, every point stated, from the current position to the base |
| Emulator.Fleet.ReturnTick | service/emulator-service.go:1132-1181 | a delivered message sets PATROL and ends; arrival sets PATROL and grounds the drone; otherwise the next waypoint is sent |
| Emulator.QuietReturnStep | service/emulator-service.go:1131-1162 | one tick of the return loop with no message; stated by Emulator.Fleet.ReturnTick |
| Emulator.Fleet.PatrolTick | service/emulator-service.go:241-262 | the index wraps around the track; a patrolling resource sends that track point and advances; others send nothing |
| Emulator.Fleet.BatteryTick | service/emulator-service.go:498-561 | every drone gets its battery step and the teleports are queued; the fleet invariant (batteries in [0, 100]) is kept |
| Emulator.Fleet.UpdateLocations | service/emulator-service.go:361-387 | the oldest message moves the first matching resource and drone; nothing else changes |
| Emulator.MoveResource | service/emulator-service.go:366-372 | only the first resource with the id is replaced, by its moved copy; every id is kept |
| Emulator.MoveDrone | service/emulator-service.go:374-382 | only the first drone with the id is replaced, by its moved copy; every battery is kept |
| Emulator.MovedResource | service/emulator-service.go:368-372 | the resource at the reported location, with its id kept |
| Emulator.MovedDrone | service/emulator-service.go:374-380 | the drone at the reported location, with its id and battery kept |
| Emulator.FirstResource | service/emulator-service.go:366-372 | the first resource with the id, or the length when there is none |
| Emulator.FirstDrone | service/emulator-service.go:374-382 | the first drone with the id, or the length when there is none |
| Controller.BindParam | controller/emulator-controller.go:439-477 | succeeds exactly when the parameter is non-empty, with its value; else the binder's error text |
| Controller.BindParamRoundTrip | controller/emulator-controller.go:439-477 | a parameter set to a non-empty value binds to it; a removed one fails |
| Controller.BindParamResourceIdAsWritten | controller/emulator-controller.go:479-485 | checks resourceId but returns the value of "query" |
| Controller.ResourceIdBinderReturnsQuery | controller/emulator-controller.go:479-485 | a request naming drone-1 binds the coordinate query as its resource id |
| Controller.AsWrittenRemainingTimePanics | controller/emulator-controller.go:308-377 | with that binder, the remaining-time lookup panics unless some drone's id is the query text |
| Controller.FirstMissing | controller/emulator-controller.go:298-326 | the first parameter, in bind order, that is absent or empty |
| Controller.ValidateRouteQuery | controller/emulator-controller.go:298-326 | fails exactly when a parameter is missing, with the first missing one's error; else the six values |
| Controller.MissingRepresentationRefused | controller/emulator-controller.go:323-326 | lacking only routeRepresentation still fails, with its binder's error |
| Controller.CalculateTime | controller/emulator-controller.go:433-437 | time at 1 m/s equals the distance |
| Controller.TravelSchedule | controller/emulator-controller.go:335-349 | clearance is required exactly when a zone was crossed; travel time is the flight plus dispatch, plus clearance time when required |
| Controller.ClearanceCostsClearanceTime | controller/emulator-controller.go:342-349 | a crossing costs exactly the clearance time; a longer flight never takes less |
| Controller.ClearanceIsSticky | controller/emulator-controller.go:340-349 | given the whole crossed-zones log, which only grows, any earlier crossing makes every later answer require clearance and pay the clearance time |
| Controller.EndTime | controller/emulator-controller.go:358-361 | the end is the start plus the travel time's whole seconds, truncated |
| Controller.RouteWaypoints | controller/emulator-controller.go:367-371 | 10 waypoints from source to destination over [start, end] |
| Controller.RouteAnswer | controller/emulator-controller.go:328-431 | a path panic or an unsplittable query panics with its text; a path refusal goes through handleErrors; for a path with a splittable query the answer is 200 exactly when some drone has the resource id, and otherwise the drones[-1] panic; a 200 carries the length and the travel time truncated, the remaining operation time at the location truncated, the path's zones, the clearance flag, the whole-second times (ClearanceCheck.WholeSeconds of the start and of the end instant) and the waypoints of the query's points |
| Controller.AnsweredRemainingTime | controller/emulator-controller.go:377 | the remaining operation time answered is the drone's charge in seconds (battery level times battery life in minutes times 60 over 100) less the travel time, truncated |
| Controller.GetRouteDetails | controller/emulator-controller.go:294-384 | a missing parameter is a 400 with its binder's error; otherwise the route answer |
| Controller.RefusalPrecedesServiceCalls | controller/emulator-controller.go:298-328 | a request with a missing parameter is answered 400, whatever the path service and the drones would give |
| Controller.AnsweredRouteSpansTrip | controller/emulator-controller.go:367-379 | an answered route starts at the source at the start time, ends at the destination before the reported arrival second is over, and its times never go back |
| Controller.HandleErrors | controller/emulator-controller.go:491-499 | 400 with the text exactly when it holds "Unknown id" or "Value too long for type"; 500 with the fixed text on "connect: network is unreachable"; else 500 "Error during request: " + id |
| Controller.UnknownIdIsBadRequest | controller/emulator-controller.go:492-493 | a text starting "Unknown id" is a 400 with that text |
| Controller.UnreachableNetworkHidesDetail | controller/emulator-controller.go:495-496 | a network failure hides its details behind the fixed message |
| Controller.PlainErrorIsInternalError | controller/emulator-controller.go:498 | a text that cannot hold any of the phrases (it has no 'U', 'V' or ':') is a 500 naming only the handler |
| Controller.UnknownResourceIsInternalError | controller/emulator-controller.go:491-499 | "resource not found" is answered 500, not 400 |
| DroneRecords.TransformDroneH3dFromDrone | models/drone-h3d.go:55-77 | one record per drone, in input order |
| DroneRecords.TransformFields | models/drone-h3d.go:58-72 | the identity fields are copied under the listing's names; the status is the decimal text of the GPS status and reads back to it; the timestamp is the creation date |
| DroneRecords.StatusDistinguishes | models/drone-h3d.go:67 | different GPS statuses give different status texts |
| DroneRecords.ResponseOf | models/drone-h3d.go:58-73 | the record of one drone; stated by DroneRecords.TransformFields and DroneRecords.StatusDistinguishes |
| Text.JoinSplit | service/emulator-service.go:200 | joining the pieces of a split gives back the text |
| Text.SplitJoin | service/emulator-service.go:200 | splitting joined pieces without separators gives back the pieces |
| Text.Split | service/emulator-service.go:200 | the pieces between separators; stated by Text.JoinSplit and Text.SplitJoin |
| Text.Contains | controller/emulator-controller.go:492-495 | true exactly when the text occurs at some position |
| Text.TrimSpaceIsInfix | service/emulator-service.go:203-204 | the trimmed text is a slice of the original with no space at either end |
| Text.TrimSpace | service/emulator-service.go:203-204 | the text without leading and trailing spaces; stated by Text.TrimSpaceIsInfix |
| Text.ItoaRoundTrip | models/drone-h3d.go:67 | the decimal text of an integer reads back to it |
| Text.ItoaInjective | models/drone-h3d.go:67 | different integers have different decimal texts |
| Text.Itoa | models/drone-h3d.go:67 | the decimal text of an integer; stated by Text.ItoaRoundTrip and Text.ItoaInjective |

## Left out

- Floating point. Every float64 is an exact real. So IEEE rounding is not
  modelled: not in `0.44704`, not in the cross products, and not in
  `diff/12` summed twelve times.
- Trigonometry. `haversineDistance` (all three copies),
  `getHeadingBetweenCoordinates` and `getDistanceBetweenCoordinates` are
  parameters.
- int64 overflow of nanosecond instants and durations. Instants are unbounded
  integers.
- Concurrency. The model does not cover:
  - goroutines, `time.Sleep`, `sync.WaitGroup` and the map mutexes;
  - the buffer of 10 on `locChan`, or blocking sends;
  - the races between a command and the status write of the task it starts.

  Every command and tick is one atomic step. Start-up is one sequential pass
  over the resources rather than concurrent batches; the batches themselves
  are `EmulatorData.ChunkResources`.
- `patrolStopChan`. Nothing ever sends on it, so the patrol and battery loops
  never stop.
- I/O. HTTP handlers, S3 reads, the zone service call, `sendLocation`,
  `sendDroneStatus`, logging and `log.Fatalf` are outside the model. Their
  data is passed in as inputs.
- `randomInt` and `time.Now` are inputs. A draw is assumed to be in its
  documented range.
- The 64 KiB line limit of `bufio.Scanner`. A longer line ends the track read
  early in Go but not in the model.
- `GetWaypoints2` and `interpolate2` (service/router-service.go:190-217). They
  set a field that models/routeResponse.go comments out.
- `textualStatus` and the video links of a drone record; the other handlers of
  controller/emulator-controller.go.
- service/router-service.go:77-78 stores int64 timestamps into `time.Time`
  fields. The model carries the integers unchanged.
- Traffic fields and the leg. The route summary's traffic fields are always 0
  and are left out, and the one leg repeats the summary, so only the summary
  is modelled.
- `handleErrors("GetSourceDestinationPoints", err)`
  (controller/emulator-controller.go:373-375). It is unreachable because that
  function's error is always nil. A query that cannot be split panics in the
  model instead.
- TransformDroneH3dFromDrone with no drones returns a nil slice in Go, which
  JSON encodes as `null`; the model has only the empty sequence, so that
  encoding difference is not modelled.
- The duplicated `GetWaypoints`/`interpolate` of service/emulator-service.go
  (lines 1313-1339) has the same text as the router's and is modelled once.
- EmulatorData.DepletionRate: requires a positive battery life, where Go would
  divide by zero into an infinity. The requirement carries over to
  GetRemainingOperationTimeAtLocation, BatteryTick, ChargeStep, ChargeAll,
  RouteAnswer and GetRouteDetails.
- ClearanceCheck.ClearanceLog.IsPathInRestrictedZone: requires a positive
  drone speed, where Go would divide by zero. EmulatorPath.GetPath has the
  same requirement.
- Routes.GetWaypoints: requires 0 or at least 2 waypoints. With 1 the Go code
  divides a Duration by zero and panics; with a negative count `make` panics.
- EmulatorPath.GetPath: states that a query which cannot be split fails, but
  not the failure's text.
- Emulator.Fleet.MissionTick: on a stop message it states that the return
  begins or that the resource cannot be found, but not the route home it
  plans. That route is stated by Emulator.Fleet.BeginReturnToBase, which
  performs the same step.
- Emulator.CurrentPosition: uses the corrected lookup of the first
  "## Findings" row (found exactly when a resource has the id). Go as written
  refuses a resource at a negative coordinate (service/emulator-service.go:277-278
  and 1125-1126); that behaviour is Emulator.SentinelRejectsSouthernResource.
- Emulator.Fleet.BeginMission: plans a mission for a resource at a negative
  latitude, through the corrected lookup. Go as written returns "resource
  cannot be found" there and leaves the status unchanged.
- Emulator.Fleet.BeginReturnToBase: plans the route home for a resource at a
  negative latitude, through the corrected lookup. Go's goBackToBase gives up
  there and leaves RETURN_TO_BASE set.
- Controller.ValidateRouteQuery: uses the corrected resourceId binder of the
  second "## Findings" row. Go as written binds the query text as the resource
  id (Controller.BindParamResourceIdAsWritten).
- Controller.RouteAnswer: receives the corrected resource id. With Go's binder
  the remaining-time lookup (controller/emulator-controller.go:377) panics at
  drones[-1] (service/emulator-service.go:1281-1283) unless a drone's id is the
  query text (Controller.AsWrittenRemainingTimePanics).
- Controller.GetRouteDetails: answers 200 for a known resource id, through the
  corrected binder. Go as written panics there, as the line above says.

## Findings

| source | as written | input that shows it | evidently intended | confidence | as-written member | corrected member |
|---|---|---|---|---|---|---|
| service/emulator-service.go:269-279 | the position starts at (-1, -1), and "resource cannot be found" is decided by a negative coordinate; goBackToBase (lines 1112-1127) does the same | a resource "drone-1" at latitude -33.87, longitude 151.21 (Sydney) | a resource is found exactly when one has the id, wherever it is | not executed | Emulator.SentinelRejectsSouthernResource | Emulator.CurrentPosition |
| controller/emulator-controller.go:479-485 | bindParamResourceId checks "resourceId" but returns the value of "query", so the remaining-time lookup indexes drones[-1] and panics | query=48.85,2.35:48.86,2.29 with resourceId=drone-1 | return the resourceId value | not executed | Controller.ResourceIdBinderReturnsQuery | Controller.ValidateRouteQuery |
