/**
 * The planar geometry kernel shared by util/checker.go and
 * internal/noflyzone/checker.go (the two files hold the same text for
 * orientation, onSegment, doIntersect and isPointInPolygon). Latitude and
 * longitude are treated as plane coordinates; they are exact reals here, so
 * every sign test is exact.
 */
module Segments {

  /** util.Point, noflyzone.Point and models.Coordinate: the same two fields. */
  datatype Point = Point(lat: real, lon: real)

  /** util.Line and noflyzone.Line. */
  datatype Line = Line(start: Point, end: Point)

  /** The zero Point{} that Go returns for "no point". */
  const Origin := Point(0.0, 0.0)

  function Min(a: real, b: real): real { if a < b then a else b }
  function Max(a: real, b: real): real { if a > b then a else b }

  /** The cross-product value `val` that orientation compares with zero. */
  function Cross(p: Point, q: Point, r: Point): real
  {
    (q.lon - p.lon) * (r.lat - p.lat) - (q.lat - p.lat) * (r.lon - p.lon)
  }

  /** orientation: 0 for collinear, 1 for a positive value, 2 for a negative value. */
  function Orientation(p: Point, q: Point, r: Point): (o: int)
    ensures 0 <= o <= 2
    ensures o == 0 <==> Cross(p, q, r) == 0.0
    ensures o == 1 <==> Cross(p, q, r) > 0.0
    ensures o == 2 <==> Cross(p, q, r) < 0.0
  {
    var val := Cross(p, q, r);
    if val == 0.0 then 0 else if val > 0.0 then 1 else 2
  }

  /** The label of the mirrored turn: clockwise and counter-clockwise exchange. */
  function Mirror(o: int): int
  {
    if o == 1 then 2 else if o == 2 then 1 else o
  }

  /** onSegment: q lies in the bounding box of p and r (no collinearity test). */
  predicate OnSegment(p: Point, q: Point, r: Point)
  {
    q.lat <= Max(p.lat, r.lat) && q.lat >= Min(p.lat, r.lat) &&
    q.lon <= Max(p.lon, r.lon) && q.lon >= Min(p.lon, r.lon)
  }

  /** doIntersect: the orientation test with its four collinear special cases. */
  predicate DoIntersect(a1: Point, a2: Point, b1: Point, b2: Point)
  {
    var o1 := Orientation(a1, a2, b1);
    var o2 := Orientation(a1, a2, b2);
    var o3 := Orientation(b1, b2, a1);
    var o4 := Orientation(b1, b2, a2);
    (o1 != o2 && o3 != o4) ||
    (o1 == 0 && OnSegment(a1, b1, a2)) ||
    (o2 == 0 && OnSegment(a1, b2, a2)) ||
    (o3 == 0 && OnSegment(b1, a1, b2)) ||
    (o4 == 0 && OnSegment(b1, a2, b2))
  }

  // ------------------------------------------------------ orientation facts

  lemma CrossAntisymmetric(p: Point, q: Point, r: Point)
    ensures Cross(q, p, r) == -Cross(p, q, r)
  {
    var a, b := q.lon - p.lon, q.lat - p.lat;
    var c, d := r.lat - p.lat, r.lon - p.lon;
    assert Cross(p, q, r) == a * c - b * d;
    assert r.lat - q.lat == c - b;
    assert r.lon - q.lon == d - a;
    assert Cross(q, p, r) == (-a) * (c - b) - (-b) * (d - a);
    assert (-a) * (c - b) == -(a * c) + a * b;
    assert (-b) * (d - a) == -(b * d) + a * b;
  }

  /** Exchanging the first two points mirrors the turn. */
  lemma OrientationSwap(p: Point, q: Point, r: Point)
    ensures Orientation(q, p, r) == Mirror(Orientation(p, q, r))
  {
    CrossAntisymmetric(p, q, r);
  }

  /** A triple with a repeated point is collinear; in particular orientation(p, p, p) == 0. */
  lemma OrientationDegenerate(p: Point, q: Point)
    ensures Orientation(p, p, q) == 0
    ensures Orientation(p, q, p) == 0
    ensures Orientation(p, q, q) == 0
  {
    var a, b := q.lon - p.lon, q.lat - p.lat;
    assert Cross(p, q, q) == a * b - b * a;
  }

  /** onSegment accepts both end points and does not depend on the segment's direction. */
  lemma OnSegmentEndpoints(p: Point, r: Point, q: Point)
    ensures OnSegment(p, p, r) && OnSegment(p, r, r)
    ensures OnSegment(p, q, r) == OnSegment(r, q, p)
  {
  }

  // -------------------------------------------------------- doIntersect facts

  /** Exchanging the two segments does not change the verdict. */
  lemma DoIntersectSymmetric(a1: Point, a2: Point, b1: Point, b2: Point)
    ensures DoIntersect(a1, a2, b1, b2) == DoIntersect(b1, b2, a1, a2)
  {
  }

  /** Reversing the direction of the path does not change the verdict. */
  lemma DoIntersectReversed(a1: Point, a2: Point, b1: Point, b2: Point)
    ensures DoIntersect(a2, a1, b1, b2) == DoIntersect(a1, a2, b1, b2)
  {
    OrientationSwap(a1, a2, b1);
    OrientationSwap(a1, a2, b2);
  }

  /** Reversing the direction of the edge does not change the verdict either. */
  lemma DoIntersectEdgeReversed(a1: Point, a2: Point, b1: Point, b2: Point)
    ensures DoIntersect(a1, a2, b2, b1) == DoIntersect(a1, a2, b1, b2)
  {
    DoIntersectSymmetric(a1, a2, b2, b1);
    DoIntersectReversed(b1, b2, a1, a2);
    DoIntersectSymmetric(a1, a2, b1, b2);
  }

  /** Two segments that share an end point always intersect. */
  lemma DoIntersectSharedEndpoint(a: Point, b: Point, c: Point)
    ensures DoIntersect(a, b, a, c)
    ensures DoIntersect(a, b, c, a)
    ensures DoIntersect(a, b, b, c)
    ensures DoIntersect(a, b, c, b)
  {
    OrientationDegenerate(a, b);
    OrientationDegenerate(a, c);
    OrientationDegenerate(b, c);
    OrientationDegenerate(c, a);
    OrientationDegenerate(c, b);
    OrientationSwap(c, a, b);
    OrientationSwap(c, b, a);
  }

  // --------------------------------------------------------- point in polygon

  /** Edge `i` of a polygon runs from vertex i to vertex (i+1) mod n, so edge n-1 closes the ring. */
  function EdgeEnd(polygon: seq<Point>, i: nat): Point
    requires i < |polygon|
  {
    polygon[(i + 1) % |polygon|]
  }

  /**
   * The even-odd toggle condition of isPointInPolygon for edge (a, b): the
   * point's Lon lies in the half-open Lon range of the edge, the edge is not
   * horizontal in Lon, and the point's Lat is at most the crossing Lat.
   */
  predicate EdgeToggles(p: Point, a: Point, b: Point)
  {
    p.lon > Min(a.lon, b.lon) && p.lon <= Max(a.lon, b.lon) && p.lat <= Max(a.lat, b.lat) &&
    a.lon != b.lon &&
    (a.lat == b.lat || p.lat <= CrossingLat(p.lon, a, b))
  }

  /** The Lat at which the edge (a, b) reaches Lon y (xinters in the source). */
  function CrossingLat(y: real, a: Point, b: Point): real
    requires a.lon != b.lon
  {
    (y - a.lon) * (b.lat - a.lat) / (b.lon - a.lon) + a.lat
  }

  /** Whether an odd number of the first k edges toggle the ray-casting flag. */
  predicate OddCrossings(p: Point, polygon: seq<Point>, k: nat)
    requires k <= |polygon|
  {
    if k == 0 then false
    else OddCrossings(p, polygon, k - 1) != EdgeToggles(p, polygon[k - 1], EdgeEnd(polygon, k - 1))
  }

  /** The even-odd rule: fewer than three vertices is never inside, otherwise an odd number of edges toggle. */
  predicate InsidePolygon(p: Point, polygon: seq<Point>)
  {
    |polygon| >= 3 && OddCrossings(p, polygon, |polygon|)
  }

  /** The body of isPointInPolygon's loop for one edge: whether the edge flips `inside`. */
  method EdgeTest(x: real, y: real, p1x: real, p1y: real, p2x: real, p2y: real) returns (toggles: bool)
    ensures toggles == EdgeToggles(Point(x, y), Point(p1x, p1y), Point(p2x, p2y))
  {
    toggles := false;
    if y > Min(p1y, p2y) && y <= Max(p1y, p2y) && x <= Max(p1x, p2x) {
      if p1y != p2y {
        var xinters := (y - p1y) * (p2x - p1x) / (p2y - p1y) + p1x;
        assert xinters == CrossingLat(y, Point(p1x, p1y), Point(p2x, p2y));
        if p1x == p2x || x <= xinters {
          toggles := true;
        }
      }
    }
  }

  /** isPointInPolygon: the loop that flips `inside` once per toggling edge. */
  method IsPointInPolygon(p: Point, polygon: seq<Point>) returns (inside: bool)
    ensures inside == InsidePolygon(p, polygon)
  {
    var n := |polygon|;
    if n < 3 {
      return false;
    }
    var x, y := p.lat, p.lon;
    inside := false;
    var p1x, p1y := polygon[0].lat, polygon[0].lon;
    var i := 1;
    while i <= n
      invariant 1 <= i <= n + 1
      invariant i <= n ==> p1x == polygon[i - 1].lat && p1y == polygon[i - 1].lon
      invariant inside == OddCrossings(p, polygon, i - 1)
    {
      var j := if i == n then 0 else i;
      assert j == i % n;
      var p2x, p2y := polygon[j].lat, polygon[j].lon;
      assert Point(p1x, p1y) == polygon[i - 1];
      assert Point(p2x, p2y) == EdgeEnd(polygon, i - 1);
      var toggles := EdgeTest(x, y, p1x, p1y, p2x, p2y);
      if toggles {
        inside := !inside;
      }
      p1x, p1y := p2x, p2y;
      i := i + 1;
    }
  }

  /** A point north of every vertex (larger Lat) is never inside. */
  lemma {:induction false} NoCrossingsBeyondMaxLat(p: Point, polygon: seq<Point>, k: nat)
    requires k <= |polygon|
    requires forall v :: v in polygon ==> v.lat < p.lat
    ensures !OddCrossings(p, polygon, k)
  {
    if k > 0 {
      NoCrossingsBeyondMaxLat(p, polygon, k - 1);
      assert polygon[k - 1] in polygon && EdgeEnd(polygon, k - 1) in polygon;
      assert !EdgeToggles(p, polygon[k - 1], EdgeEnd(polygon, k - 1));
    }
  }

  /** A point whose Lon is outside the polygon's Lon range is never inside. */
  lemma {:induction false} NoCrossingsOutsideLonRange(p: Point, polygon: seq<Point>, k: nat)
    requires k <= |polygon|
    requires (forall v :: v in polygon ==> v.lon < p.lon) || (forall v :: v in polygon ==> p.lon <= v.lon)
    ensures !OddCrossings(p, polygon, k)
  {
    if k > 0 {
      NoCrossingsOutsideLonRange(p, polygon, k - 1);
      assert polygon[k - 1] in polygon && EdgeEnd(polygon, k - 1) in polygon;
      assert !EdgeToggles(p, polygon[k - 1], EdgeEnd(polygon, k - 1));
    }
  }

  /** Points outside the bounding box of the polygon are reported outside. */
  lemma OutsideBoundingBox(p: Point, polygon: seq<Point>)
    requires (forall v :: v in polygon ==> v.lat < p.lat) ||
             (forall v :: v in polygon ==> v.lon < p.lon) ||
             (forall v :: v in polygon ==> p.lon <= v.lon)
    ensures !InsidePolygon(p, polygon)
  {
    if forall v :: v in polygon ==> v.lat < p.lat {
      NoCrossingsBeyondMaxLat(p, polygon, |polygon|);
    } else {
      NoCrossingsOutsideLonRange(p, polygon, |polygon|);
    }
  }

  // ------------------------------------------------------ segment vs polygon

  /** Edge i of the polygon (closing edge included) meets the segment (a, b). */
  predicate MeetsEdge(a: Point, b: Point, polygon: seq<Point>, i: int)
  {
    0 <= i < |polygon| && DoIntersect(a, b, polygon[i], EdgeEnd(polygon, i))
  }

  /** The verdict of doLineIntersectPolygon: some edge meets the line, or one of its end points is inside. */
  predicate MeetsPolygon(line: Line, polygon: seq<Point>)
  {
    (exists i :: 0 <= i < |polygon| && MeetsEdge(line.start, line.end, polygon, i)) ||
    InsidePolygon(line.start, polygon) || InsidePolygon(line.end, polygon)
  }

  /** The edge scan with early return, then the two point-in-polygon tests (short-circuit `||`). */
  method LineMeetsPolygon(line: Line, polygon: seq<Point>) returns (meets: bool)
    ensures meets == MeetsPolygon(line, polygon)
  {
    var n := |polygon|;
    var i := 0;
    while i < n
      invariant 0 <= i <= n
      invariant forall j :: 0 <= j < i ==> !MeetsEdge(line.start, line.end, polygon, j)
    {
      var next := (i + 1) % n;
      if DoIntersect(line.start, line.end, polygon[i], polygon[next]) {
        assert MeetsEdge(line.start, line.end, polygon, i);
        return true;
      }
      i := i + 1;
    }
    meets := IsPointInPolygon(line.start, polygon);
    if !meets {
      meets := IsPointInPolygon(line.end, polygon);
    }
  }

  /** A line that starts or ends at a vertex of the polygon meets it (the vertex's own edge shares that point). */
  lemma VertexOnLineMeets(line: Line, polygon: seq<Point>, k: nat)
    requires k < |polygon|
    requires line.start == polygon[k] || line.end == polygon[k]
    ensures MeetsPolygon(line, polygon)
  {
    DoIntersectSharedEndpoint(line.start, line.end, EdgeEnd(polygon, k));
    DoIntersectSharedEndpoint(line.end, line.start, EdgeEnd(polygon, k));
    DoIntersectReversed(line.end, line.start, polygon[k], EdgeEnd(polygon, k));
    assert MeetsEdge(line.start, line.end, polygon, k);
  }

  /** An empty polygon meets nothing. */
  lemma EmptyPolygonMeetsNothing(line: Line)
    ensures !MeetsPolygon(line, [])
  {
  }
}
