/**
 * util/checker.go: which restricted zones a straight flight crosses, where it
 * enters and leaves each one, and at what time. The package-level slice
 * `crossedZones` is modelled as the state of a `ClearanceLog` object.
 *
 * Distances come from haversineDistance, which is trigonometric; it is a
 * parameter `distance` here. Times are integers: instants in nanoseconds
 * since the Unix epoch, zone bounds in the int64 units the zone carries.
 */
module ClearanceCheck {
  import opened Wrappers
  import opened Segments

  /** util.RestrictedZone. */
  datatype RestrictedZone = RestrictedZone(id: string, polygon: seq<Point>, startTime: int, endTime: int)

  /** models.ClearanceZone, with the entry and exit instants as whole Unix seconds. */
  datatype ClearanceZone = ClearanceZone(id: string, entryTime: int, exitTime: int)

  const NanosPerSecond: int := 1_000_000_000

  // --------------------------------------------------- fetchIntersectionPoint

  /** The determinant `denom` of fetchIntersectionPoint: zero exactly when the two lines are parallel. */
  function Denominator(p1: Point, p2: Point, q1: Point, q2: Point): real
  {
    (p1.lat - p2.lat) * (q1.lon - q2.lon) - (p1.lon - p2.lon) * (q1.lat - q2.lat)
  }

  /** fetchIntersectionPoint: the closed-form meeting point of the lines p1p2 and q1q2, or the zero Point. */
  function FetchIntersectionPoint(p1: Point, p2: Point, q1: Point, q2: Point): Point
  {
    var denom := Denominator(p1, p2, q1, q2);
    if denom == 0.0 then Origin
    else
      var e := p1.lat * p2.lon - p1.lon * p2.lat;
      var f := q1.lat * q2.lon - q1.lon * q2.lat;
      var x := (e * (q1.lon - q2.lon) - (p1.lon - p2.lon) * f) / denom;
      var y := (e * (q1.lat - q2.lat) - (p1.lat - p2.lat) * f) / denom;
      Point(y, x)
  }

  /** For lines through (x1, y1) with direction (a, b) and with constant e = x1*y2 - y1*x2, the point solves b*px - a*py == -e. */
  lemma LineEquation(px: real, py: real, a: real, b: real, c: real, d: real, e: real, f: real, denom: real)
    requires denom == a * d - b * c && denom != 0.0
    requires px * denom == e * c - a * f
    requires py * denom == e * d - b * f
    ensures px * b - py * a == -e
    ensures px * d - py * c == -f
  {
    assert (px * b - py * a) * denom == (e * c - a * f) * b - (e * d - b * f) * a;
    assert (e * c - a * f) * b - (e * d - b * f) * a == -e * denom;
    assert (px * d - py * c) * denom == (e * c - a * f) * d - (e * d - b * f) * c;
    assert (e * c - a * f) * d - (e * d - b * f) * c == -f * denom;
  }

  /** When the lines are not parallel, the point returned lies on both of them; otherwise it is the zero Point. */
  lemma IntersectionOnBothLines(p1: Point, p2: Point, q1: Point, q2: Point)
    ensures Denominator(p1, p2, q1, q2) == 0.0 ==> FetchIntersectionPoint(p1, p2, q1, q2) == Origin
    ensures Denominator(p1, p2, q1, q2) != 0.0 ==>
              var r := FetchIntersectionPoint(p1, p2, q1, q2);
              Cross(p1, p2, r) == 0.0 && Cross(q1, q2, r) == 0.0
  {
    var denom := Denominator(p1, p2, q1, q2);
    if denom != 0.0 {
      var r := FetchIntersectionPoint(p1, p2, q1, q2);
      var a, b := p1.lat - p2.lat, p1.lon - p2.lon;
      var c, d := q1.lat - q2.lat, q1.lon - q2.lon;
      var e := p1.lat * p2.lon - p1.lon * p2.lat;
      var f := q1.lat * q2.lon - q1.lon * q2.lat;
      assert denom == a * d - b * c;
      assert r.lat * denom == e * c - a * f;
      assert r.lon * denom == e * d - b * f;
      LineEquation(r.lat, r.lon, a, b, c, d, e, f, denom);
      assert Cross(p1, p2, r) == (-b) * (r.lat - p1.lat) - (-a) * (r.lon - p1.lon);
      assert Cross(q1, q2, r) == (-d) * (r.lat - q1.lat) - (-c) * (r.lon - q1.lon);
    }
  }

  /** Two non-parallel lines meet in one point only: the point returned is that point. */
  lemma IntersectionUnique(p1: Point, p2: Point, q1: Point, q2: Point, r: Point)
    requires Denominator(p1, p2, q1, q2) != 0.0
    requires Cross(p1, p2, r) == 0.0 && Cross(q1, q2, r) == 0.0
    ensures r == FetchIntersectionPoint(p1, p2, q1, q2)
  {
    var s := FetchIntersectionPoint(p1, p2, q1, q2);
    IntersectionOnBothLines(p1, p2, q1, q2);
    var a, b := p2.lat - p1.lat, p2.lon - p1.lon;
    var c, d := q2.lat - q1.lat, q2.lon - q1.lon;
    var u, v := r.lat - s.lat, r.lon - s.lon;
    // Both points solve the same two linear equations, so their difference solves the homogeneous ones.
    assert b * (r.lat - p1.lat) - a * (r.lon - p1.lon) == 0.0;
    assert b * (s.lat - p1.lat) - a * (s.lon - p1.lon) == 0.0;
    assert b * u == a * v;
    assert d * (r.lat - q1.lat) - c * (r.lon - q1.lon) == 0.0;
    assert d * (s.lat - q1.lat) - c * (s.lon - q1.lon) == 0.0;
    assert d * u == c * v;
    var det := Denominator(p1, p2, q1, q2);
    assert det == a * d - b * c;
    assert u * det == a * (d * u) - c * (b * u);
    assert u * det == 0.0;
    assert v * det == d * (a * v) - b * (c * v);
    assert v * det == 0.0;
  }

  // ------------------------------------------ lineIntersectingRestrictedZones

  /** Whether edge i (from vertex i to vertex (i+1) mod n) meets the path. */
  predicate EdgeHit(source: Point, destination: Point, polygon: seq<Point>, i: nat)
    requires i < |polygon|
  {
    DoIntersect(source, destination, polygon[i], EdgeEnd(polygon, i))
  }

  /** The meeting point of the path with edge i, as fetchIntersectionPoint computes it. */
  function EdgePoint(source: Point, destination: Point, polygon: seq<Point>, i: nat): Point
    requires i < |polygon|
  {
    FetchIntersectionPoint(source, destination, polygon[i], EdgeEnd(polygon, i))
  }

  /** The indices of the edges among the first k that meet the path, in traversal order. */
  function HitEdges(source: Point, destination: Point, polygon: seq<Point>, k: nat): (hits: seq<nat>)
    requires k <= |polygon|
    ensures forall j :: 0 <= j < |hits| ==> hits[j] < k && EdgeHit(source, destination, polygon, hits[j])
    ensures forall j, l :: 0 <= j < l < |hits| ==> hits[j] < hits[l]
    ensures forall i :: 0 <= i < k && EdgeHit(source, destination, polygon, i) ==> i in hits
  {
    if k == 0 then []
    else
      var earlier := HitEdges(source, destination, polygon, k - 1);
      if EdgeHit(source, destination, polygon, k - 1) then earlier + [k - 1] else earlier
  }

  /**
   * What lineIntersectingRestrictedZones returns: the meeting points with the
   * first and the second edge hit, when both exist and differ; otherwise two
   * zero Points and false.
   */
  function Crossing(source: Point, destination: Point, polygon: seq<Point>): (Point, Point, bool)
  {
    var hits := HitEdges(source, destination, polygon, |polygon|);
    if |hits| >= 2 &&
       EdgePoint(source, destination, polygon, hits[0]) != EdgePoint(source, destination, polygon, hits[1])
    then (EdgePoint(source, destination, polygon, hits[0]), EdgePoint(source, destination, polygon, hits[1]), true)
    else (Origin, Origin, false)
  }

  /** lineIntersectingRestrictedZones: one pass over the edges that remembers the first two hits. */
  method LineIntersectingRestrictedZones(source: Point, destination: Point, polygon: seq<Point>)
    returns (entry: Point, exit: Point, intersects: bool)
    ensures (entry, exit, intersects) == Crossing(source, destination, polygon)
  {
    var foundEntry, foundExit := false, false;
    entry, exit := Origin, Origin;
    var n := |polygon|;
    var i := 0;
    ghost var hits: seq<nat> := [];
    while i < n
      invariant 0 <= i <= n
      invariant hits == HitEdges(source, destination, polygon, i)
      invariant foundEntry == (|hits| >= 1) && foundExit == (|hits| >= 2)
      invariant foundEntry ==> entry == EdgePoint(source, destination, polygon, hits[0])
      invariant foundExit ==> exit == EdgePoint(source, destination, polygon, hits[1])
    {
      // EdgeHit and EdgePoint are doIntersect and fetchIntersectionPoint on polygon[i], polygon[(i + 1) % n].
      HitEdgesStep(source, destination, polygon, i);
      if EdgeHit(source, destination, polygon, i) {
        if !foundEntry {
          entry := EdgePoint(source, destination, polygon, i);
          foundEntry := true;
        } else if !foundExit {
          exit := EdgePoint(source, destination, polygon, i);
          foundExit := true;
        }
        hits := hits + [i];
      }
      i := i + 1;
    }
    if foundEntry && foundExit && entry != exit {
      return entry, exit, true;
    }
    return Origin, Origin, false;
  }

  /**
   * A reported crossing names two distinct edges: the entry edge is the first
   * edge that meets the path and the exit edge the next one; every other
   * edge before the exit edge misses the path.
   */
  lemma CrossingUsesFirstTwoHits(source: Point, destination: Point, polygon: seq<Point>)
    returns (first: nat, second: nat)
    requires Crossing(source, destination, polygon).2
    ensures first < second < |polygon|
    ensures EdgeHit(source, destination, polygon, first) && EdgeHit(source, destination, polygon, second)
    ensures forall i :: 0 <= i < second && EdgeHit(source, destination, polygon, i) ==> i == first
    ensures Crossing(source, destination, polygon) ==
              (EdgePoint(source, destination, polygon, first), EdgePoint(source, destination, polygon, second), true)
  {
    var hits := HitEdges(source, destination, polygon, |polygon|);
    first, second := hits[0], hits[1];
    forall i | 0 <= i < second && EdgeHit(source, destination, polygon, i)
      ensures i == first
    {
      assert i in hits;
      var j :| 0 <= j < |hits| && hits[j] == i;
      assert j < 1;
    }
  }

  /** A path that meets fewer than two edges never produces a crossing. */
  lemma FewHitsNoCrossing(source: Point, destination: Point, polygon: seq<Point>)
    requires forall i, j :: 0 <= i < j < |polygon| && EdgeHit(source, destination, polygon, i) ==>
               !EdgeHit(source, destination, polygon, j)
    ensures Crossing(source, destination, polygon) == (Origin, Origin, false)
  {
  }

  // ------------------------------------------------- IsPathInRestrictedZone

  /** convertMphToMps: one mile per hour is 0.44704 metres per second. */
  function ConvertMphToMps(mph: real): (mps: real)
    ensures mps / 0.44704 == mph
    ensures mph > 0.0 ==> mps > 0.0
  {
    mph * 0.44704
  }

  /** Go's conversion of a float to an integer type: the fraction is dropped, rounding toward zero. */
  function TruncToInt(x: real): (n: int)
    ensures x >= 0.0 ==> n as real <= x < n as real + 1.0
    ensures x < 0.0 ==> n as real - 1.0 < x <= n as real
  {
    if x >= 0.0 then x.Floor else -((-x).Floor)
  }

  lemma TruncMonotone(x: real, y: real)
    requires x <= y
    ensures TruncToInt(x) <= TruncToInt(y)
  {
  }

  /** currentTime.Add(time.Duration(dist/speed) * time.Second): whole seconds of flight added to the start instant. */
  function ArrivalNanos(currentTime: int, dist: real, mps: real): int
    requires mps > 0.0
  {
    currentTime + TruncToInt(dist / mps) * NanosPerSecond
  }

  /**
   * The admission rule of util/checker.go:101: the flight through the zone
   * overlaps the window [StartTime, EndTime] read as Unix seconds, or either
   * bound is 0 ("always active").
   */
  predicate WindowAdmits(zone: RestrictedZone, entryNanos: int, exitNanos: int)
  {
    (entryNanos < zone.endTime * NanosPerSecond && exitNanos > zone.startTime * NanosPerSecond) ||
    zone.endTime == 0 || zone.startTime == 0
  }

  /** time.Date(..., 0, Local) on the clock fields: the instant with its nanoseconds dropped, in whole seconds. */
  function WholeSeconds(nanos: int): (seconds: int)
    ensures seconds * NanosPerSecond <= nanos < (seconds + 1) * NanosPerSecond
  {
    nanos / NanosPerSecond
  }

  /** What one zone contributes to crossedZones: an entry when the path crosses it inside its window. */
  function ZoneClearance(source: Point, destination: Point, zone: RestrictedZone, currentTime: int,
                         mps: real, distance: (Point, Point) -> real): Option<ClearanceZone>
    requires mps > 0.0
  {
    var (entry, exit, intersects) := Crossing(source, destination, zone.polygon);
    if !intersects then None
    else
      var entryNanos := ArrivalNanos(currentTime, distance(source, entry), mps);
      var exitNanos := ArrivalNanos(currentTime, distance(source, exit), mps);
      if WindowAdmits(zone, entryNanos, exitNanos)
      then Some(ClearanceZone(zone.id, WholeSeconds(entryNanos), WholeSeconds(exitNanos)))
      else None
  }

  /** The values present in a sequence of options, in order. */
  function Present<T>(options: seq<Option<T>>): seq<T>
  {
    if |options| == 0 then []
    else
      var earlier := Present(options[..|options| - 1]);
      match options[|options| - 1]
      case Some(v) => earlier + [v]
      case None => earlier
  }

  /** `index[j]` is the position of the j-th present value; every present position is listed, in increasing order. */
  lemma {:induction false} PresentInOrder<T>(options: seq<Option<T>>) returns (index: seq<nat>)
    ensures |index| == |Present(options)|
    ensures forall j :: 0 <= j < |index| ==> index[j] < |options| && options[index[j]] == Some(Present(options)[j])
    ensures forall j, l :: 0 <= j < l < |index| ==> index[j] < index[l]
    ensures forall k :: 0 <= k < |options| && options[k].Some? ==> k in index
  {
    if |options| == 0 {
      return [];
    }
    var last := |options| - 1;
    var init := options[..last];
    var earlier := PresentInOrder(init);
    assert forall k :: 0 <= k < last ==> options[k] == init[k];
    if options[last].None? {
      index := earlier;
      assert Present(options) == Present(init);
    } else {
      index := earlier + [last];
      var before, present := Present(init), Present(options);
      assert present == before + [options[last].value];
      assert forall j :: 0 <= j < |earlier| ==> index[j] == earlier[j] && present[j] == before[j];
      assert forall k :: 0 <= k < |options| && options[k].Some? ==> k == last || k in earlier;
    }
  }

  /** What each zone contributes, in zone order. */
  function ZoneClearances(source: Point, destination: Point, zones: seq<RestrictedZone>, currentTime: int,
                          mps: real, distance: (Point, Point) -> real): (r: seq<Option<ClearanceZone>>)
    requires mps > 0.0
    ensures |r| == |zones|
    ensures forall k :: 0 <= k < |zones| ==> r[k] == ZoneClearance(source, destination, zones[k], currentTime, mps, distance)
  {
    seq(|zones|, k requires 0 <= k < |zones| => ZoneClearance(source, destination, zones[k], currentTime, mps, distance))
  }

  /** The entries one call appends: the clearances of the admitted zones, in zone order. */
  function NewlyCrossed(source: Point, destination: Point, zones: seq<RestrictedZone>, currentTime: int,
                        mps: real, distance: (Point, Point) -> real): seq<ClearanceZone>
    requires mps > 0.0
  {
    Present(ZoneClearances(source, destination, zones, currentTime, mps, distance))
  }

  /** A zone whose either bound is 0 is admitted whenever the path crosses it, whatever the times. */
  lemma ZeroBoundAlwaysActive(source: Point, destination: Point, zone: RestrictedZone, currentTime: int,
                              mps: real, distance: (Point, Point) -> real)
    requires mps > 0.0
    requires zone.startTime == 0 || zone.endTime == 0
    requires Crossing(source, destination, zone.polygon).2
    ensures ZoneClearance(source, destination, zone, currentTime, mps, distance).Some?
  {
  }

  /** A zone with real bounds is skipped when the flight enters it at or after EndTime seconds. */
  lemma EnteredAfterWindowSkipped(source: Point, destination: Point, zone: RestrictedZone, currentTime: int,
                                  mps: real, distance: (Point, Point) -> real)
    requires mps > 0.0
    requires zone.startTime != 0 && zone.endTime != 0
    requires var (entry, _, _) := Crossing(source, destination, zone.polygon);
             ArrivalNanos(currentTime, distance(source, entry), mps) >= zone.endTime * NanosPerSecond
    ensures ZoneClearance(source, destination, zone, currentTime, mps, distance) == None
  {
  }

  /**
   * The zone bounds arrive in milliseconds but are compared as seconds, so a
   * window that closed in the past (endMillis / 1000 seconds <= entry) is
   * still open for any entry before endMillis seconds, roughly 1000 times
   * the zone's own epoch time.
   */
  lemma MillisecondBoundsReadAsSeconds(zone: RestrictedZone, entryNanos: int, exitNanos: int)
    requires zone.startTime > 0 && zone.endTime > 0 && zone.endTime % 1000 == 0
    requires (zone.endTime / 1000) * NanosPerSecond <= entryNanos < zone.endTime * NanosPerSecond
    requires exitNanos > zone.startTime * NanosPerSecond
    ensures WindowAdmits(zone, entryNanos, exitNanos)
  {
  }

  /** With a non-negative distance the clearance never starts before the current instant, and nearer points are reached no later. */
  lemma ArrivalOrder(currentTime: int, d1: real, d2: real, mps: real)
    requires mps > 0.0 && 0.0 <= d1 <= d2
    ensures currentTime <= ArrivalNanos(currentTime, d1, mps) <= ArrivalNanos(currentTime, d2, mps)
  {
    assert d1 / mps <= d2 / mps;
    TruncMonotone(d1 / mps, d2 / mps);
  }

  /** The square zone of the two examples below: corners (0, 0), (0, 10), (10, 10), (10, 0) in that order. */
  const Square: seq<Point> := [Point(0.0, 0.0), Point(0.0, 10.0), Point(10.0, 10.0), Point(10.0, 0.0)]

  /** Each edge of Square, by index, with its closing edge back to the first corner. */
  lemma SquareEdges()
    ensures EdgeEnd(Square, 0) == Square[1] && EdgeEnd(Square, 1) == Square[2]
    ensures EdgeEnd(Square, 2) == Square[3] && EdgeEnd(Square, 3) == Square[0]
  {
  }

  /** The short path from (2, 3) to (3, 5) meets no side of Square. */
  lemma InnerPathMissesSides()
    ensures forall i :: 0 <= i < 4 ==> !EdgeHit(Point(2.0, 3.0), Point(3.0, 5.0), Square, i)
  {
    SquareEdges();
    assert !DoIntersect(Point(2.0, 3.0), Point(3.0, 5.0), Point(0.0, 0.0), Point(0.0, 10.0));
    assert !DoIntersect(Point(2.0, 3.0), Point(3.0, 5.0), Point(0.0, 10.0), Point(10.0, 10.0));
    assert !DoIntersect(Point(2.0, 3.0), Point(3.0, 5.0), Point(10.0, 10.0), Point(10.0, 0.0));
    assert !DoIntersect(Point(2.0, 3.0), Point(3.0, 5.0), Point(10.0, 0.0), Point(0.0, 0.0));
  }

  /** A path that lies inside a zone without touching its boundary meets no edge, so the zone is not reported. */
  lemma PathInsideSquareNotCrossed()
    ensures InsidePolygon(Point(2.0, 3.0), Square) && !Crossing(Point(2.0, 3.0), Point(3.0, 5.0), Square).2
  {
    var s := Point(2.0, 3.0);
    InnerPathMissesSides();
    SquareEdges();
    assert HitEdges(s, Point(3.0, 5.0), Square, 4) == [];
    assert !EdgeToggles(s, Square[0], Square[1]) && !EdgeToggles(s, Square[1], Square[2]);
    assert EdgeToggles(s, Square[2], Square[3]) && !EdgeToggles(s, Square[3], Square[0]);
  }

  /**
   * "Entry" is the edge met first in the polygon's vertex order, not the
   * boundary point nearest the source: flying north through the square, the
   * far side is reported as the entry.
   */
  lemma EntryFollowsVertexOrder()
    ensures Crossing(Point(5.0, -5.0), Point(5.0, 15.0), Square) == (Point(5.0, 10.0), Point(5.0, 0.0), true)
  {
    var s, d := Point(5.0, -5.0), Point(5.0, 15.0);
    NorthboundHits();
    SquareEdges();
    assert FetchIntersectionPoint(s, d, Square[1], Square[2]) == Point(5.0, 10.0);
    assert FetchIntersectionPoint(s, d, Square[3], Square[0]) == Point(5.0, 0.0);
  }

  /** The northbound path from (5, -5) to (5, 15) meets sides 1 and 3 of Square and misses sides 0 and 2. */
  lemma NorthboundSides()
    ensures var s, d := Point(5.0, -5.0), Point(5.0, 15.0);
            !EdgeHit(s, d, Square, 0) && EdgeHit(s, d, Square, 1) && !EdgeHit(s, d, Square, 2) && EdgeHit(s, d, Square, 3)
  {
    var s, d := Point(5.0, -5.0), Point(5.0, 15.0);
    SquareEdges();
    assert !DoIntersect(s, d, Point(0.0, 0.0), Point(0.0, 10.0));
    assert DoIntersect(s, d, Point(0.0, 10.0), Point(10.0, 10.0));
    assert !DoIntersect(s, d, Point(10.0, 10.0), Point(10.0, 0.0));
    assert DoIntersect(s, d, Point(10.0, 0.0), Point(0.0, 0.0));
  }

  /** The northbound path of EntryFollowsVertexOrder meets edges 1 and 3 of the square, in that order. */
  lemma NorthboundHits()
    ensures HitEdges(Point(5.0, -5.0), Point(5.0, 15.0), Square, 4) == [1, 3]
  {
    NorthboundSides();
    OddSidesHit(Point(5.0, -5.0), Point(5.0, 15.0), Square);
  }

  /** On a four-sided zone, a path that meets exactly sides 1 and 3 has those two hits, in that order. */
  lemma OddSidesHit(s: Point, d: Point, polygon: seq<Point>)
    requires |polygon| == 4
    requires !EdgeHit(s, d, polygon, 0) && EdgeHit(s, d, polygon, 1)
    requires !EdgeHit(s, d, polygon, 2) && EdgeHit(s, d, polygon, 3)
    ensures HitEdges(s, d, polygon, 4) == [1, 3]
  {
    HitEdgesStep(s, d, polygon, 0);
    HitEdgesStep(s, d, polygon, 1);
    HitEdgesStep(s, d, polygon, 2);
    HitEdgesStep(s, d, polygon, 3);
  }

  /** One more edge extends the hit list by its index exactly when it meets the path. */
  lemma HitEdgesStep(s: Point, d: Point, polygon: seq<Point>, k: nat)
    requires k < |polygon|
    ensures HitEdges(s, d, polygon, k + 1) ==
            if EdgeHit(s, d, polygon, k) then HitEdges(s, d, polygon, k) + [k] else HitEdges(s, d, polygon, k)
  {
  }

  /** util.doLineIntersectPolygon: the segment meets an edge or has an end point inside the zone. */
  method DoLineIntersectPolygon(line: Line, zone: RestrictedZone) returns (meets: bool)
    ensures meets == MeetsPolygon(line, zone.polygon)
  {
    meets := LineMeetsPolygon(line, zone.polygon);
  }

  /** The package-level `crossedZones` slice, which every call appends to and returns whole. */
  class ClearanceLog {
    var crossedZones: seq<ClearanceZone>

    constructor()
      ensures crossedZones == []
    {
      crossedZones := [];
    }

    /**
     * IsPathInRestrictedZone: appends, in zone order, one entry per zone that
     * the path crosses inside its window; answers whether this call appended
     * anything, and returns the whole log including earlier calls' entries.
     */
    method IsPathInRestrictedZone(source: Point, destination: Point, zones: seq<RestrictedZone>,
                                  currentTime: int, droneSpeedMph: real, distance: (Point, Point) -> real)
      returns (inZone: bool, crossed: seq<ClearanceZone>)
      requires droneSpeedMph > 0.0
      modifies this
      ensures var mps := ConvertMphToMps(droneSpeedMph);
              crossedZones == old(crossedZones) + NewlyCrossed(source, destination, zones, currentTime, mps, distance) &&
              (inZone <==> NewlyCrossed(source, destination, zones, currentTime, mps, distance) != [])
      ensures crossed == crossedZones
    {
      inZone := false;
      var mps := ConvertMphToMps(droneSpeedMph);
      var i := 0;
      while i < |zones|
        invariant 0 <= i <= |zones|
        invariant crossedZones == old(crossedZones) + NewlyCrossed(source, destination, zones[..i], currentTime, mps, distance)
        invariant inZone <==> NewlyCrossed(source, destination, zones[..i], currentTime, mps, distance) != []
      {
        var zone := zones[i];
        assert ZoneClearances(source, destination, zones[..i + 1], currentTime, mps, distance) ==
               ZoneClearances(source, destination, zones[..i], currentTime, mps, distance) +
               [ZoneClearance(source, destination, zone, currentTime, mps, distance)];
        var entry, exit, intersects := LineIntersectingRestrictedZones(source, destination, zone.polygon);
        if intersects {
          var entryNanos := ArrivalNanos(currentTime, distance(source, entry), mps);
          var exitNanos := ArrivalNanos(currentTime, distance(source, exit), mps);
          if (entryNanos < zone.endTime * NanosPerSecond && exitNanos > zone.startTime * NanosPerSecond) ||
             zone.endTime == 0 || zone.startTime == 0 {
            crossedZones := crossedZones + [ClearanceZone(zone.id, WholeSeconds(entryNanos), WholeSeconds(exitNanos))];
            inZone := true;
          }
        }
        i := i + 1;
      }
      assert zones[..i] == zones;
      crossed := crossedZones;
    }
  }
}
