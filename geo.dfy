/**
 * utils/geo.go, utils/time.go and models/no_fly_zone.go: the third airspace
 * check, over zones stored as GeoJSON-style multipolygons. Its orientation
 * uses the cross product (q - p) x (r - q), the negation of the value used by
 * module Segments, so its labels 1 and 2 are exchanged; the intersection
 * verdict is the same. Only consecutive vertices of each polygon's first
 * ring are joined: there is no wrap-around edge.
 */
module GeoZones {
  import opened Wrappers
  import opened Segments

  /** models.Coordinate: the same two fields as Point. */
  type Coordinate = Point

  /** models.NoFlyZone: polygons, each a list of rings, each a list of positions; a window in milliseconds. */
  datatype NoFlyZone = NoFlyZone(id: string, coordinates: seq<seq<seq<Coordinate>>>,
                                 startTime: int, endTime: int, areaPath: string)

  /** The value `val` of utils/geo.go's orientation. */
  function GeoCross(p: Coordinate, q: Coordinate, r: Coordinate): real
  {
    (q.lat - p.lat) * (r.lon - q.lon) - (q.lon - p.lon) * (r.lat - q.lat)
  }

  /** orientation of utils/geo.go: 0 collinear, 1 for a positive value, 2 for a negative one. */
  function GeoOrientation(p: Coordinate, q: Coordinate, r: Coordinate): (o: int)
    ensures 0 <= o <= 2
    ensures o == 0 <==> GeoCross(p, q, r) == 0.0
    ensures o == 1 <==> GeoCross(p, q, r) > 0.0
    ensures o == 2 <==> GeoCross(p, q, r) < 0.0
  {
    var val := GeoCross(p, q, r);
    if val == 0.0 then 0 else if val > 0.0 then 1 else 2
  }

  lemma GeoCrossIsNegatedCross(p: Coordinate, q: Coordinate, r: Coordinate)
    ensures GeoCross(p, q, r) == -Cross(p, q, r)
  {
    var a, b := q.lat - p.lat, q.lon - p.lon;
    var c, d := r.lat - p.lat, r.lon - p.lon;
    assert r.lon - q.lon == d - b && r.lat - q.lat == c - a;
    assert GeoCross(p, q, r) == a * (d - b) - b * (c - a);
    assert a * (d - b) - b * (c - a) == a * d - b * c;
    assert Cross(p, q, r) == b * c - a * d;
  }

  /** The two orientation functions agree on collinearity and exchange the two turn labels. */
  lemma GeoOrientationMirrors(p: Coordinate, q: Coordinate, r: Coordinate)
    ensures GeoOrientation(p, q, r) == Mirror(Orientation(p, q, r))
  {
    GeoCrossIsNegatedCross(p, q, r);
  }

  /** onSegment of utils/geo.go: the bounding-box test, Lon first. */
  predicate GeoOnSegment(p: Coordinate, q: Coordinate, r: Coordinate)
  {
    q.lon <= Max(p.lon, r.lon) && q.lon >= Min(p.lon, r.lon) &&
    q.lat <= Max(p.lat, r.lat) && q.lat >= Min(p.lat, r.lat)
  }

  /** isLineIntersecting: the general case, then the four collinear end-point cases. */
  predicate IsLineIntersecting(p1: Coordinate, p2: Coordinate, q1: Coordinate, q2: Coordinate)
  {
    var o1 := GeoOrientation(p1, p2, q1);
    var o2 := GeoOrientation(p1, p2, q2);
    var o3 := GeoOrientation(q1, q2, p1);
    var o4 := GeoOrientation(q1, q2, p2);
    (o1 != o2 && o3 != o4) ||
    (o1 == 0 && GeoOnSegment(p1, q1, p2)) ||
    (o2 == 0 && GeoOnSegment(p1, q2, p2)) ||
    (o3 == 0 && GeoOnSegment(q1, p1, q2)) ||
    (o4 == 0 && GeoOnSegment(q1, p2, q2))
  }

  /** Exchanging the labels 1 and 2 does not change any comparison the test makes: it is doIntersect. */
  lemma IsLineIntersectingAgrees(p1: Coordinate, p2: Coordinate, q1: Coordinate, q2: Coordinate)
    ensures IsLineIntersecting(p1, p2, q1, q2) == DoIntersect(p1, p2, q1, q2)
  {
    GeoOrientationMirrors(p1, p2, q1);
    GeoOrientationMirrors(p1, p2, q2);
    GeoOrientationMirrors(q1, q2, p1);
    GeoOrientationMirrors(q1, q2, p2);
  }

  // --------------------------------------------------- IsPathIntersectingZone

  /** The segment from ring[i] to ring[i + 1] meets the path; the last vertex starts no segment. */
  predicate ChainHit(source: Coordinate, dest: Coordinate, ring: seq<Coordinate>, i: int)
  {
    0 <= i < |ring| - 1 && IsLineIntersecting(source, dest, ring[i], ring[i + 1])
  }

  /** The inner loop from index i on: some consecutive pair at or after i meets the path. */
  function RingMeets(source: Coordinate, dest: Coordinate, ring: seq<Coordinate>, i: nat): (r: bool)
    ensures r <==> exists j :: i <= j && ChainHit(source, dest, ring, j)
    decreases |ring| - i
  {
    if i + 1 >= |ring| then false
    else
      var here := IsLineIntersecting(source, dest, ring[i], ring[i + 1]);
      var later := RingMeets(source, dest, ring, i + 1);
      assert here == ChainHit(source, dest, ring, i);
      assert (exists j :: i <= j && ChainHit(source, dest, ring, j)) ==> here || later by {
        if exists j :: i <= j && ChainHit(source, dest, ring, j) {
          var j :| i <= j && ChainHit(source, dest, ring, j);
          if j != i {
            assert i + 1 <= j;
          }
        }
      }
      here || later
  }

  /** The panic of reading polygon[0] of a polygon without rings. */
  const IndexOutOfRange := "index out of range"

  /** The outer loop gets past polygons k to m - 1: each has a first ring, and no pair of it meets the path. */
  predicate PassedBy(source: Coordinate, dest: Coordinate, polygons: seq<seq<seq<Coordinate>>>, k: nat, m: nat)
  {
    k <= m <= |polygons| &&
    forall l :: k <= l < m ==> |polygons[l]| >= 1 && !RingMeets(source, dest, polygons[l][0], 0)
  }

  /**
   * The outer loop over the polygons from index k on, each by its first ring:
   * true at the first polygon with a meeting pair, the index panic at the
   * first polygon without a ring, false when it runs off the end.
   */
  function PolygonsMeet(source: Coordinate, dest: Coordinate, polygons: seq<seq<seq<Coordinate>>>, k: nat)
    : (r: Result<bool, string>)
    ensures r.Failure? ==> r.error == IndexOutOfRange
    ensures r == Success(true) <==>
              exists m: nat :: PassedBy(source, dest, polygons, k, m) && m < |polygons| &&
                          |polygons[m]| >= 1 && RingMeets(source, dest, polygons[m][0], 0)
    ensures r.Failure? <==>
              exists m: nat :: PassedBy(source, dest, polygons, k, m) && m < |polygons| && |polygons[m]| == 0
    decreases |polygons| - k
  {
    if k >= |polygons| then
      Success(false)
    else if |polygons[k]| == 0 then
      assert PassedBy(source, dest, polygons, k, k);
      Failure(IndexOutOfRange)
    else if RingMeets(source, dest, polygons[k][0], 0) then
      assert PassedBy(source, dest, polygons, k, k);
      PassedByStopsAt(source, dest, polygons, k);
      Success(true)
    else
      PassedBySkips(source, dest, polygons, k);
      PolygonsMeet(source, dest, polygons, k + 1)
  }

  /** The loop gets no further than a polygon that stops it. */
  lemma PassedByStopsAt(source: Coordinate, dest: Coordinate, polygons: seq<seq<seq<Coordinate>>>, k: nat)
    requires k < |polygons| && |polygons[k]| >= 1 && RingMeets(source, dest, polygons[k][0], 0)
    ensures forall m: nat :: PassedBy(source, dest, polygons, k, m) ==> m == k
  {
  }

  /** Past a polygon that does not stop it, the loop goes on from the next one. */
  lemma PassedBySkips(source: Coordinate, dest: Coordinate, polygons: seq<seq<seq<Coordinate>>>, k: nat)
    requires k < |polygons| && |polygons[k]| >= 1 && !RingMeets(source, dest, polygons[k][0], 0)
    ensures forall m: nat :: PassedBy(source, dest, polygons, k, m) <==> m == k || PassedBy(source, dest, polygons, k + 1, m)
  {
  }

  /**
   * IsPathIntersectingZone: true at the first polygon whose first ring has two
   * consecutive positions meeting the path, the index panic at a polygon
   * without rings reached before that (polygon[0] is read unconditionally),
   * false when no polygon meets the path.
   */
  function IsPathIntersectingZone(source: Coordinate, dest: Coordinate, zone: NoFlyZone): (r: Result<bool, string>)
    ensures r.Failure? ==> r.error == IndexOutOfRange
    ensures r == Success(true) <==>
              exists m: nat :: PassedBy(source, dest, zone.coordinates, 0, m) && m < |zone.coordinates| &&
                          |zone.coordinates[m]| >= 1 && RingMeets(source, dest, zone.coordinates[m][0], 0)
    ensures r.Failure? <==>
              exists m: nat :: PassedBy(source, dest, zone.coordinates, 0, m) && m < |zone.coordinates| &&
                          |zone.coordinates[m]| == 0
  {
    PolygonsMeet(source, dest, zone.coordinates, 0)
  }

  /** When every polygon has a ring the check cannot panic, and it is true exactly when some consecutive pair meets the path. */
  lemma {:induction false} RingsPresentVerdict(source: Coordinate, dest: Coordinate, zone: NoFlyZone)
    requires forall m :: 0 <= m < |zone.coordinates| ==> |zone.coordinates[m]| >= 1
    ensures IsPathIntersectingZone(source, dest, zone).Success?
    ensures IsPathIntersectingZone(source, dest, zone).value <==>
              exists m, j :: 0 <= m < |zone.coordinates| && ChainHit(source, dest, zone.coordinates[m][0], j)
  {
    var polygons := zone.coordinates;
    var r := IsPathIntersectingZone(source, dest, zone);
    if exists m, j :: 0 <= m < |polygons| && ChainHit(source, dest, polygons[m][0], j) {
      var m, j :| 0 <= m < |polygons| && ChainHit(source, dest, polygons[m][0], j);
      assert RingMeets(source, dest, polygons[m][0], 0);
      var first := FirstMeeting(source, dest, polygons, m);
      assert r == Success(true);
    }
  }

  /** Some polygon up to m meets the path, so there is a first one that does, and the loop gets to it. */
  lemma {:induction false} FirstMeeting(source: Coordinate, dest: Coordinate, polygons: seq<seq<seq<Coordinate>>>, m: nat)
    returns (first: nat)
    requires forall l :: 0 <= l < |polygons| ==> |polygons[l]| >= 1
    requires m < |polygons| && RingMeets(source, dest, polygons[m][0], 0)
    ensures first <= m && PassedBy(source, dest, polygons, 0, first) && RingMeets(source, dest, polygons[first][0], 0)
    decreases m
  {
    if PassedBy(source, dest, polygons, 0, m) {
      first := m;
    } else {
      var l :| 0 <= l < m && !(|polygons[l]| >= 1 && !RingMeets(source, dest, polygons[l][0], 0));
      first := FirstMeeting(source, dest, polygons, l);
    }
  }

  /**
   * A panic needs an empty polygon before any meeting one: a zone whose first
   * polygon meets the path is reported whatever the later polygons hold.
   */
  lemma EarlyHitBeforeEmptyPolygon(source: Coordinate, dest: Coordinate, zone: NoFlyZone)
    requires |zone.coordinates| >= 1 && |zone.coordinates[0]| >= 1
    requires RingMeets(source, dest, zone.coordinates[0][0], 0)
    ensures IsPathIntersectingZone(source, dest, zone) == Success(true)
  {
    assert PassedBy(source, dest, zone.coordinates, 0, 0);
  }

  /** A zone whose first polygon has no ring panics. */
  lemma LeadingEmptyPolygonPanics(source: Coordinate, dest: Coordinate, zone: NoFlyZone)
    requires |zone.coordinates| >= 1 && |zone.coordinates[0]| == 0
    ensures IsPathIntersectingZone(source, dest, zone) == Failure(IndexOutOfRange)
  {
    assert PassedBy(source, dest, zone.coordinates, 0, 0);
  }

  /** The zone's window plays no part: only its coordinates are read. */
  lemma WindowNotRead(source: Coordinate, dest: Coordinate, zone: NoFlyZone, start: int, end: int)
    ensures IsPathIntersectingZone(source, dest, zone) ==
            IsPathIntersectingZone(source, dest, zone.(startTime := start, endTime := end))
  {
  }

  /**
   * On a closed ring (RFC 7946 section 3.1.6: the last position repeats the
   * first) the consecutive pairs are exactly the edges, closing edge
   * included, of the polygon without the repeated position; so the check
   * then agrees with the edge test of module Segments.
   */
  lemma ClosedRingCoversAllEdges(source: Coordinate, dest: Coordinate, polygon: seq<Coordinate>)
    requires |polygon| >= 1
    ensures var ring := polygon + [polygon[0]];
            (exists j :: ChainHit(source, dest, ring, j)) <==> (exists i :: MeetsEdge(source, dest, polygon, i))
  {
    var ring := polygon + [polygon[0]];
    forall i | 0 <= i < |polygon|
      ensures ChainHit(source, dest, ring, i) == MeetsEdge(source, dest, polygon, i)
    {
      assert EdgeEnd(polygon, i) == ring[i + 1];
      IsLineIntersectingAgrees(source, dest, ring[i], ring[i + 1]);
    }
  }

  /**
   * Without the repeated vertex the closing edge is never checked: this path
   * crosses only the edge from (10, 0) back to (0, 0) of an open triangle,
   * and is not reported, though the closing-edge test of module Segments meets it.
   */
  lemma OpenRingMissesClosingEdge()
    ensures var triangle := [Point(0.0, 0.0), Point(0.0, 10.0), Point(10.0, 0.0)];
            var zone := NoFlyZone("open", [[triangle]], 0, 0, "");
            IsPathIntersectingZone(Point(5.0, -5.0), Point(5.0, 1.0), zone) == Success(false) &&
            MeetsEdge(Point(5.0, -5.0), Point(5.0, 1.0), triangle, 2)
  {
    var a, b, c := Point(0.0, 0.0), Point(0.0, 10.0), Point(10.0, 0.0);
    var triangle := [a, b, c];
    var s, d := Point(5.0, -5.0), Point(5.0, 1.0);
    IsLineIntersectingAgrees(s, d, a, b);
    IsLineIntersectingAgrees(s, d, b, c);
    assert !DoIntersect(s, d, a, b) && !DoIntersect(s, d, b, c);
    assert !ChainHit(s, d, triangle, 0) && !ChainHit(s, d, triangle, 1);
    assert !RingMeets(s, d, triangle, 0);
    assert PassedBy(s, d, [[triangle]], 0, 1);
    assert EdgeEnd(triangle, 2) == a;
    assert DoIntersect(s, d, c, a);
  }

  // ------------------------------------------------------------ IsZoneActive

  /** utils/time.go IsZoneActive: the window [StartTime, EndTime], both ends included. */
  predicate IsZoneActive(zone: NoFlyZone, currentTime: int)
  {
    currentTime >= zone.startTime && currentTime <= zone.endTime
  }

  /** Both bounds are inclusive, and a window with StartTime after EndTime is never active. */
  lemma ZoneWindowBounds(zone: NoFlyZone, t: int)
    ensures zone.startTime <= zone.endTime ==> IsZoneActive(zone, zone.startTime) && IsZoneActive(zone, zone.endTime)
    ensures zone.startTime > zone.endTime ==> !IsZoneActive(zone, t)
    ensures t < zone.startTime || t > zone.endTime ==> !IsZoneActive(zone, t)
  {
  }

  /** Activity has no gaps: active at t1 and t2 means active at every instant between. */
  lemma ZoneWindowConvex(zone: NoFlyZone, t1: int, t: int, t2: int)
    requires IsZoneActive(zone, t1) && IsZoneActive(zone, t2) && t1 <= t <= t2
    ensures IsZoneActive(zone, t)
  {
  }
}
