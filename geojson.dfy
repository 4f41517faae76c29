/**
 * The polygon reader shared by getNoFlyZone (service/router-service.go) and
 * getRestrictedZone (service/emulator-service.go). A zone's geometry is a
 * GeoJSON MultiPolygon (RFC 7946 section 3.1.7) decoded into untyped Go
 * values; only the first ring of the first polygon is read, and each
 * position [longitude, latitude] (RFC 7946 section 3.1.1) becomes a Point
 * with the two swapped.
 */
module GeoJson {
  import opened Wrappers
  import opened Segments

  /** A decoded JSON value, as far as the reader distinguishes: arrays, numbers, and anything else. */
  datatype Json = JArray(items: seq<Json>) | JNumber(value: real) | JOther

  /**
   * One ceInstances entry of the zone service's answer, as far as the
   * loaders read it: the id, the geometry's coordinates and the activation
   * window's two timestampMs values.
   */
  datatype ZoneInstance = ZoneInstance(id: string, coordinates: Json, activationStartMs: int, activationEndMs: int)

  /** The message of Go's panic on an index past the end of a slice. */
  const IndexOutOfRange := "index out of range"

  /** The message of Go's panic on a failed `.(float64)` type assertion. */
  const NotANumber := "interface conversion: not float64"

  /**
   * One entry of the ring: a non-array or an array with fewer than two
   * elements is skipped (None); otherwise both of its first two elements must
   * be numbers (the assertion panics), and the point is (Lat: e[1], Lon: e[0]).
   */
  function PositionPoint(position: Json): Result<Option<Point>, string>
  {
    match position
    case JArray(e) =>
      if |e| < 2 then Success(None)
      else if !e[0].JNumber? || !e[1].JNumber? then Failure(NotANumber)
      else Success(Some(Point(e[1].value, e[0].value)))
    case _ => Success(None)
  }

  /** The points of a ring in order; the first bad position aborts the read. */
  function RingPoints(ring: seq<Json>): Result<seq<Point>, string>
  {
    if |ring| == 0 then Success([])
    else
      match RingPoints(ring[..|ring| - 1])
      case Failure(e) => Failure(e)
      case Success(points) =>
        match PositionPoint(ring[|ring| - 1])
        case Failure(e) => Failure(e)
        case Success(None) => Success(points)
        case Success(Some(p)) => Success(points + [p])
  }

  /**
   * outer[0][0] of the coordinates: a level that is not an array gives an
   * empty polygon; an empty outer or middle array panics.
   */
  function FirstRing(coordinates: Json): Result<seq<Point>, string>
  {
    match coordinates
    case JArray(outer) =>
      if |outer| == 0 then Failure(IndexOutOfRange)
      else (
        match outer[0]
        case JArray(middle) =>
          if |middle| == 0 then Failure(IndexOutOfRange)
          else (
            match middle[0]
            case JArray(inner) => RingPoints(inner)
            case _ => Success([])
          )
        case _ => Success([])
      )
    case _ => Success([])
  }

  /** The loop of the loaders: walk the first ring, appending one point per well-formed position. */
  method ExtractPolygon(coordinates: Json) returns (polygon: Result<seq<Point>, string>)
    ensures polygon == FirstRing(coordinates)
  {
    if !coordinates.JArray? || |coordinates.items| == 0 || !coordinates.items[0].JArray? ||
       |coordinates.items[0].items| == 0 || !coordinates.items[0].items[0].JArray? {
      return FirstRing(coordinates);
    }
    var inner := coordinates.items[0].items[0].items;
    var points: seq<Point> := [];
    var i := 0;
    while i < |inner|
      invariant 0 <= i <= |inner|
      invariant RingPoints(inner[..i]) == Success(points)
    {
      assert inner[..i + 1][..i] == inner[..i];
      if inner[i].JArray? && |inner[i].items| >= 2 {
        var e := inner[i].items;
        if !e[0].JNumber? || !e[1].JNumber? {
          FailureIsFinal(inner, i + 1);
          return Failure(NotANumber);
        }
        var longitude := e[0].value;
        var latitude := e[1].value;
        points := points + [Point(latitude, longitude)];
      }
      i := i + 1;
    }
    assert inner[..i] == inner;
    return Success(points);
  }

  /** Once a prefix of the ring fails to read, the whole ring fails with the same message. */
  lemma {:induction false} FailureIsFinal(ring: seq<Json>, k: nat)
    requires k <= |ring| && RingPoints(ring[..k]).Failure?
    ensures RingPoints(ring) == RingPoints(ring[..k])
    decreases |ring| - k
  {
    if k < |ring| {
      assert ring[..k + 1][..k] == ring[..k];
      FailureIsFinal(ring, k + 1);
    } else {
      assert ring[..k] == ring;
    }
  }

  // ------------------------------------------------------------ round trip

  /** A point written as an RFC 7946 position: [longitude, latitude]. */
  function Position(p: Point): Json
  {
    JArray([JNumber(p.lon), JNumber(p.lat)])
  }

  function Positions(points: seq<Point>): (ring: seq<Json>)
    ensures |ring| == |points|
    ensures forall i :: 0 <= i < |points| ==> ring[i] == Position(points[i])
  {
    if |points| == 0 then [] else Positions(points[..|points| - 1]) + [Position(points[|points| - 1])]
  }

  /** A MultiPolygon holding one polygon whose only ring lists the given points. */
  function SingleRingMultiPolygon(points: seq<Point>): Json
  {
    JArray([JArray([JArray(Positions(points))])])
  }

  /** Reading back a written ring gives the same points in the same order. */
  lemma {:induction false} RingRoundTrip(points: seq<Point>)
    ensures RingPoints(Positions(points)) == Success(points)
  {
    if |points| > 0 {
      var init := points[..|points| - 1];
      assert Positions(points)[..|points| - 1] == Positions(init);
      RingRoundTrip(init);
      assert points == init + [points[|points| - 1]];
    }
  }

  /** The loaders read back exactly the polygon that was written. */
  lemma FirstRingRoundTrip(points: seq<Point>)
    ensures FirstRing(SingleRingMultiPolygon(points)) == Success(points)
  {
    RingRoundTrip(points);
  }

  /** Only the first ring is read: holes and further polygons are ignored. */
  lemma LaterRingsIgnored(ring: seq<Json>, holes: seq<Json>, polygons: seq<Json>)
    ensures FirstRing(JArray([JArray([JArray(ring)] + holes)] + polygons)) == RingPoints(ring)
  {
    assert ([JArray([JArray(ring)] + holes)] + polygons)[0] == JArray([JArray(ring)] + holes);
    assert ([JArray(ring)] + holes)[0] == JArray(ring);
  }

  /** A successful read never yields more points than the ring has entries, and each point is some entry swapped. */
  lemma {:induction false} RingPointsFromEntries(ring: seq<Json>)
    requires RingPoints(ring).Success?
    ensures |RingPoints(ring).value| <= |ring|
    ensures forall p :: p in RingPoints(ring).value ==>
              exists i :: 0 <= i < |ring| && PositionPoint(ring[i]) == Success(Some(p))
  {
    if |ring| > 0 {
      var init := ring[..|ring| - 1];
      RingPointsFromEntries(init);
      forall p | p in RingPoints(ring).value
        ensures exists i :: 0 <= i < |ring| && PositionPoint(ring[i]) == Success(Some(p))
      {
        if p in RingPoints(init).value {
          var i :| 0 <= i < |init| && PositionPoint(init[i]) == Success(Some(p));
          assert ring[i] == init[i];
        } else {
          assert PositionPoint(ring[|ring| - 1]) == Success(Some(p));
        }
      }
    }
  }
}
