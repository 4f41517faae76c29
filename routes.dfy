/**
 * Route synthesis: the timed straight-line waypoints of GetWaypoints and
 * interpolate (service/router-service.go, repeated in
 * service/emulator-service.go), the 13-point leg of getStraightRoute that the
 * mission and return-to-base loops follow, and the "lat,lon:lat,lon" query
 * reader GetSourceDestinationPoints.
 */
module Routes {
  import opened Wrappers
  import opened Segments
  import Text

  // ------------------------------------------------------------ interpolate

  /** interpolate: the point a fraction of the way from p1 to p2, coordinate by coordinate. */
  function Interpolate(p1: Point, p2: Point, fraction: real): Point
  {
    Point(p1.lat + (p2.lat - p1.lat) * fraction, p1.lon + (p2.lon - p1.lon) * fraction)
  }

  /** The fraction 0 gives the start, 1 the end, and a fraction in [0, 1] a point between them on each coordinate. */
  lemma InterpolateEnds(p1: Point, p2: Point, fraction: real)
    ensures Interpolate(p1, p2, 0.0) == p1 && Interpolate(p1, p2, 1.0) == p2
    ensures 0.0 <= fraction <= 1.0 ==>
              var q := Interpolate(p1, p2, fraction);
              Min(p1.lat, p2.lat) <= q.lat <= Max(p1.lat, p2.lat) &&
              Min(p1.lon, p2.lon) <= q.lon <= Max(p1.lon, p2.lon)
  {
    if 0.0 <= fraction <= 1.0 {
      CoordinateBetween(p1.lat, p2.lat, fraction);
      CoordinateBetween(p1.lon, p2.lon, fraction);
    }
  }

  /** One coordinate of the interpolation stays between its two ends. */
  lemma CoordinateBetween(a: real, b: real, f: real)
    requires 0.0 <= f <= 1.0
    ensures Min(a, b) <= a + (b - a) * f <= Max(a, b)
  {
    var d := b - a;
    assert d * f + d * (1.0 - f) == d;
    if a <= b {
      NonNegativeProduct(d, f);
      NonNegativeProduct(d, 1.0 - f);
    } else {
      NonNegativeProduct(-d, f);
      NonNegativeProduct(-d, 1.0 - f);
    }
  }

  lemma NonNegativeProduct(x: real, y: real)
    requires x >= 0.0 && y >= 0.0
    ensures x * y >= 0.0
  {
  }

  // ------------------------------------------------------------ GetWaypoints

  /** The magnitude of an integer. */
  function Abs(x: int): nat { if x < 0 then -x else x }

  /**
   * Go's integer division: the quotient is truncated toward zero, so the
   * remainder a - q * b is smaller than b in magnitude and, unless it is
   * zero, has the sign of a.
   */
  function TruncDiv(a: int, b: int): (q: int)
    requires b != 0
    ensures Abs(a - q * b) < Abs(b)
    ensures a - q * b == 0 || (a - q * b < 0) == (a < 0)
  {
    var m := Abs(a) / Abs(b);
    assert m * Abs(b) <= Abs(a) < m * Abs(b) + Abs(b);
    if (a < 0) == (b < 0) then
      assert m * b == (if a < 0 then -(m * Abs(b)) else m * Abs(b));
      m
    else
      assert -m * b == (if a < 0 then -(m * Abs(b)) else m * Abs(b));
      -m
  }

  /** The two properties pin the quotient down: no other integer has them. */
  lemma TruncDivUnique(a: int, b: int, q: int)
    requires b != 0
    requires Abs(a - q * b) < Abs(b)
    requires a - q * b == 0 || (a - q * b < 0) == (a < 0)
    ensures q == TruncDiv(a, b)
  {
    QuotientDetermined(a, b, q, TruncDiv(a, b));
  }

  /** Two quotients whose remainders are both small and of the sign of a are equal. */
  lemma QuotientDetermined(a: int, b: int, q: int, q0: int)
    requires b != 0
    requires Abs(a - q * b) < Abs(b) && (a - q * b == 0 || (a - q * b < 0) == (a < 0))
    requires Abs(a - q0 * b) < Abs(b) && (a - q0 * b == 0 || (a - q0 * b < 0) == (a < 0))
    ensures q == q0
  {
    var r, r0 := a - q * b, a - q0 * b;
    RemaindersClose(a, r, r0, Abs(b));
    var d := q0 - q;
    Distributes(q0, q, b);
    if d != 0 {
      SmallMultipleIsZero(d, b);
    }
  }

  /** Two remainders below bound in magnitude, each zero or of the sign of a, differ by less than bound. */
  lemma RemaindersClose(a: int, r: int, r0: int, bound: int)
    requires Abs(r) < bound && (r == 0 || (r < 0) == (a < 0))
    requires Abs(r0) < bound && (r0 == 0 || (r0 < 0) == (a < 0))
    ensures Abs(r - r0) < bound
  {
  }

  lemma Distributes(x: int, y: int, b: int)
    ensures x * b - y * b == (x - y) * b
  {
  }

  /** A non-zero multiple of b is at least b in magnitude. */
  lemma SmallMultipleIsZero(d: int, b: int)
    requires d != 0 && b != 0
    ensures Abs(d * b) >= Abs(b)
  {
    var x: int, y: int := Abs(d), Abs(b);
    PositiveMultiple(x, y);
    if (d < 0) == (b < 0) {
      assert d * b == x * y;
    } else {
      assert d * b == -(x * y);
    }
  }

  /** x copies of y add up to at least y. */
  lemma {:induction false} PositiveMultiple(x: int, y: int)
    requires x >= 1 && y >= 1
    ensures x * y >= y
    decreases x
  {
    if x > 1 {
      PositiveMultiple(x - 1, y);
      assert x * y == (x - 1) * y + y;
    }
  }

  /** A waypoint: a position and the instant (nanoseconds) it is reached. */
  datatype Waypoint = Waypoint(point: Point, time: int)

  /** timeStep: the total duration divided by numWaypoints - 1, in whole nanoseconds. */
  function TimeStep(startTime: int, endTime: int, numWaypoints: int): int
    requires numWaypoints != 1
  {
    TruncDiv(endTime - startTime, numWaypoints - 1)
  }

  /** Waypoint i: fraction i / (n - 1) of the way, at startTime + i * timeStep. */
  function WaypointAt(source: Point, destination: Point, startTime: int, endTime: int, numWaypoints: int, i: int): Waypoint
    requires numWaypoints != 1
  {
    Waypoint(Interpolate(source, destination, i as real / (numWaypoints - 1) as real),
             startTime + TimeStep(startTime, endTime, numWaypoints) * i)
  }

  /**
   * GetWaypoints: numWaypoints entries filled in a preallocated slice. One
   * waypoint divides by zero and a negative count cannot be allocated, so
   * the count is 0 or at least 2.
   */
  method GetWaypoints(source: Point, destination: Point, startTime: int, endTime: int, numWaypoints: int)
    returns (waypoints: seq<Waypoint>)
    requires numWaypoints == 0 || numWaypoints >= 2
    ensures |waypoints| == numWaypoints
    ensures forall i :: 0 <= i < numWaypoints ==>
              waypoints[i] == WaypointAt(source, destination, startTime, endTime, numWaypoints, i)
  {
    var totalTime := endTime - startTime;
    var timeStep := TruncDiv(totalTime, numWaypoints - 1);
    var slots := new Waypoint[numWaypoints];
    var i := 0;
    while i < numWaypoints
      invariant 0 <= i <= numWaypoints
      invariant forall k :: 0 <= k < i ==>
                  slots[k] == WaypointAt(source, destination, startTime, endTime, numWaypoints, k)
    {
      var fraction := i as real / (numWaypoints - 1) as real;
      slots[i] := Waypoint(Interpolate(source, destination, fraction), startTime + timeStep * i);
      i := i + 1;
    }
    waypoints := slots[..];
  }

  /** The first waypoint is the source at the start time and the last is the destination. */
  lemma WaypointEnds(source: Point, destination: Point, startTime: int, endTime: int, n: int)
    requires n >= 2
    ensures WaypointAt(source, destination, startTime, endTime, n, 0) == Waypoint(source, startTime)
    ensures WaypointAt(source, destination, startTime, endTime, n, n - 1).point == destination
  {
    InterpolateEnds(source, destination, 0.0);
    assert (n - 1) as real / (n - 1) as real == 1.0;
  }

  /** Every waypoint lies between source and destination on each coordinate. */
  lemma WaypointsBetween(source: Point, destination: Point, startTime: int, endTime: int, n: int, i: int)
    requires n >= 2 && 0 <= i < n
    ensures var q := WaypointAt(source, destination, startTime, endTime, n, i).point;
            Min(source.lat, destination.lat) <= q.lat <= Max(source.lat, destination.lat) &&
            Min(source.lon, destination.lon) <= q.lon <= Max(source.lon, destination.lon)
  {
    var f := i as real / (n - 1) as real;
    assert 0.0 <= f <= 1.0;
    InterpolateEnds(source, destination, f);
  }

  /**
   * When the end is not before the start, the times never decrease and the
   * last one is at most the end time: the truncated step loses up to n - 2
   * nanoseconds in total.
   */
  lemma WaypointTimes(source: Point, destination: Point, startTime: int, endTime: int, n: int, i: int, j: int)
    requires n >= 2 && startTime <= endTime && 0 <= i <= j < n
    ensures WaypointAt(source, destination, startTime, endTime, n, i).time <=
            WaypointAt(source, destination, startTime, endTime, n, j).time
    ensures WaypointAt(source, destination, startTime, endTime, n, n - 1).time <= endTime
    ensures endTime - WaypointAt(source, destination, startTime, endTime, n, n - 1).time < n - 1
  {
    var step := TimeStep(startTime, endTime, n);
    assert step * (n - 1) <= endTime - startTime < (step + 1) * (n - 1);
    StepsIncrease(step, i, j);
  }

  /** A non-negative step taken more times reaches no less far. */
  lemma StepsIncrease(step: int, i: int, j: int)
    requires 0 <= i <= j && step >= 0
    ensures step * i <= step * j
  {
    assert step * j == step * i + step * (j - i);
  }

  // -------------------------------------------------------- getStraightRoute

  /** The number of legs of a straight route; it has one more point. */
  const Legs := 12

  /** Point i of the straight route: source plus i twelfths of the difference on each coordinate. */
  function StraightPoint(source: seq<real>, dest: seq<real>, i: int): Point
    requires |source| == 2 && |dest| == 2
  {
    Point(source[0] + i as real * ((dest[0] - source[0]) / Legs as real),
          source[1] + i as real * ((dest[1] - source[1]) / Legs as real))
  }

  /**
   * getStraightRoute: nil unless both inputs are [lat, lon] pairs; otherwise
   * 13 points, each the previous one plus a twelfth of the difference.
   */
  method GetStraightRoute(source: seq<real>, dest: seq<real>) returns (route: seq<Point>)
    ensures |source| != 2 || |dest| != 2 ==> route == []
    ensures |source| == 2 && |dest| == 2 ==>
              |route| == Legs + 1 && forall i :: 0 <= i <= Legs ==> route[i] == StraightPoint(source, dest, i)
  {
    if |source| != 2 || |dest| != 2 {
      return [];
    }
    var waypoints := new Point[Legs + 1];
    var latDiff := (dest[0] - source[0]) / Legs as real;
    var lonDiff := (dest[1] - source[1]) / Legs as real;
    waypoints[0] := Point(source[0], source[1]);
    var i := 1;
    while i <= Legs
      invariant 1 <= i <= Legs + 1
      invariant forall k :: 0 <= k < i ==> waypoints[k] == StraightPoint(source, dest, k)
    {
      waypoints[i] := Point(waypoints[i - 1].lat + latDiff, waypoints[i - 1].lon + lonDiff);
      i := i + 1;
    }
    route := waypoints[..];
  }

  /** The route starts at the source, ends at the destination, and advances by equal steps. */
  lemma StraightRouteEnds(source: seq<real>, dest: seq<real>, i: int)
    requires |source| == 2 && |dest| == 2 && 0 <= i < Legs
    ensures StraightPoint(source, dest, 0) == Point(source[0], source[1])
    ensures StraightPoint(source, dest, Legs) == Point(dest[0], dest[1])
    ensures StraightPoint(source, dest, i + 1).lat - StraightPoint(source, dest, i).lat ==
            StraightPoint(source, dest, 1).lat - StraightPoint(source, dest, 0).lat
  {
  }

  /** Point i of the leg is the interpolation at fraction i / 12 of the same two ends. */
  lemma StraightRouteInterpolates(source: seq<real>, dest: seq<real>, i: int)
    requires |source| == 2 && |dest| == 2
    ensures StraightPoint(source, dest, i) ==
            Interpolate(Point(source[0], source[1]), Point(dest[0], dest[1]), i as real / Legs as real)
  {
  }

  // ---------------------------------------------- GetSourceDestinationPoints

  /** The value of a strconv.ParseFloat whose error is ignored: a failed parse reads as 0. */
  function FloatOrZero(field: string, parseFloat: string -> Option<real>): real
  {
    match parseFloat(field)
    case Some(v) => v
    case None => 0.0
  }

  /** The message of Go's panic on an index past the end of a slice. */
  const IndexOutOfRange := "index out of range"

  /**
   * GetSourceDestinationPoints: "lat,lon:lat,lon" split at ':' and then at
   * ','. A missing part or field panics; every field that does not parse
   * reads as 0; the returned error is always nil, so only the panic fails.
   */
  function GetSourceDestinationPoints(coordinates: string, parseFloat: string -> Option<real>)
    : Result<(Point, Point), string>
  {
    var parts := Text.Split(coordinates, ':');
    var sourceCoords := Text.Split(parts[0], ',');
    if |sourceCoords| < 2 || |parts| < 2 then Failure(IndexOutOfRange)
    else
      var destinationCoords := Text.Split(parts[1], ',');
      if |destinationCoords| < 2 then Failure(IndexOutOfRange)
      else
        Success((Point(FloatOrZero(sourceCoords[0], parseFloat), FloatOrZero(sourceCoords[1], parseFloat)),
                 Point(FloatOrZero(destinationCoords[0], parseFloat), FloatOrZero(destinationCoords[1], parseFloat))))
  }

  /** A query written as "a,b:c,d" from separator-free fields reads back as the two points the fields denote. */
  lemma SourceDestinationRoundTrip(a: string, b: string, c: string, d: string, parseFloat: string -> Option<real>)
    requires ':' !in a && ':' !in b && ':' !in c && ':' !in d
    requires ',' !in a && ',' !in b && ',' !in c && ',' !in d
    ensures GetSourceDestinationPoints(a + [','] + b + [':'] + c + [','] + d, parseFloat) ==
            Success((Point(FloatOrZero(a, parseFloat), FloatOrZero(b, parseFloat)),
                     Point(FloatOrZero(c, parseFloat), FloatOrZero(d, parseFloat))))
  {
    var first, second := a + [','] + b, c + [','] + d;
    assert ':' !in first by {
      assert forall k :: 0 <= k < |first| ==> first[k] == (if k < |a| then a[k] else if k == |a| then ',' else b[k - |a| - 1]);
    }
    assert ':' !in second by {
      assert forall k :: 0 <= k < |second| ==> second[k] == (if k < |c| then c[k] else if k == |c| then ',' else d[k - |c| - 1]);
    }
    assert Text.Join([first, second], ':') == a + [','] + b + [':'] + c + [','] + d;
    Text.SplitJoin([first, second], ':');
    assert Text.Join([a, b], ',') == first;
    Text.SplitJoin([a, b], ',');
    assert Text.Join([c, d], ',') == second;
    Text.SplitJoin([c, d], ',');
  }

  /** A query without ':' has no destination part: the read panics. */
  lemma MissingDestinationPanics(coordinates: string, parseFloat: string -> Option<real>)
    requires ':' !in coordinates
    ensures GetSourceDestinationPoints(coordinates, parseFloat) == Failure(IndexOutOfRange)
  {
    Text.SplitJoin([coordinates], ':');
  }
}
