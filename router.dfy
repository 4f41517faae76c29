/**
 * service/router-service.go: the router's GetPath. Every request fetches the
 * no-fly zones again and appends them to the package-level noFlyZones slice,
 * which is never cleared; then it reads the query and refuses the path when
 * it meets any zone gathered so far (module NoFlyZoneCheck).
 */
module RouterService {
  import opened Wrappers
  import opened Segments
  import opened GeoJson
  import opened NoFlyZoneCheck
  import Routes

  /** The error GetPath returns for a refused path. */
  const PathIntersectsZone := "Path has intersect flyzone"

  /** The zone built from one instance and its polygon; the millisecond timestamps are carried unchanged. */
  function ZoneOf(instance: ZoneInstance, polygon: seq<Point>): NoFlyZone
  {
    NoFlyZone(polygon, instance.activationStartMs, instance.activationEndMs)
  }

  /**
   * The zones getNoFlyZone appends for a list of instances, in order, and
   * the panic that stops it: an instance whose geometry cannot be read ends
   * the walk, and the zones appended before it stay appended.
   */
  function LoadedZones(instances: seq<ZoneInstance>): (seq<NoFlyZone>, Option<string>)
  {
    if |instances| == 0 then ([], None)
    else
      var (zones, panic) := LoadedZones(instances[..|instances| - 1]);
      var last := instances[|instances| - 1];
      if panic.Some? then (zones, panic)
      else
        match FirstRing(last.coordinates)
        case Failure(e) => (zones, Some(e))
        case Success(polygon) => (zones + [ZoneOf(last, polygon)], None)
  }

  /** When every geometry reads, each instance gives exactly one zone, in order, with its first ring. */
  lemma {:induction false} AllZonesLoaded(instances: seq<ZoneInstance>)
    requires forall k :: 0 <= k < |instances| ==> FirstRing(instances[k].coordinates).Success?
    ensures LoadedZones(instances).1 == None
    ensures |LoadedZones(instances).0| == |instances|
    ensures forall k :: 0 <= k < |instances| ==>
              LoadedZones(instances).0[k] == ZoneOf(instances[k], FirstRing(instances[k].coordinates).value)
  {
    if |instances| > 0 {
      var init := instances[..|instances| - 1];
      AllZonesLoaded(init);
    }
  }

  /** The first unreadable geometry stops the load with its panic, after the zones of the instances before it. */
  lemma {:induction false} LoadStopsAtFirstBadGeometry(instances: seq<ZoneInstance>, bad: nat)
    requires bad < |instances| && FirstRing(instances[bad].coordinates).Failure?
    requires forall k :: 0 <= k < bad ==> FirstRing(instances[k].coordinates).Success?
    ensures LoadedZones(instances).1 == Some(FirstRing(instances[bad].coordinates).error)
    ensures LoadedZones(instances).0 == LoadedZones(instances[..bad]).0
    decreases |instances|
  {
    var init := instances[..|instances| - 1];
    if bad == |instances| - 1 {
      AllZonesLoaded(init);
      assert init == instances[..bad];
    } else {
      assert init[..bad] == instances[..bad];
      LoadStopsAtFirstBadGeometry(init, bad);
    }
  }

  /** What GetPath answers: a distance in meters, its error for a refused path, or a panic. */
  datatype PathReply = Meters(meters: real) | Refused(err: string) | Panic(reason: string)

  /**
   * The answer for a query once the zones are gathered: the query's points,
   * then the refusal when the path meets a zone, else the haversine
   * distance (kilometers) times 1000.
   */
  function PathAnswer(zones: seq<NoFlyZone>, query: string, parseFloat: string -> Option<real>,
                      haversineKm: (Point, Point) -> real): PathReply
  {
    match Routes.GetSourceDestinationPoints(query, parseFloat)
    case Failure(e) => Panic(e)
    case Success((source, destination)) =>
      if PathInNoFlyZone(source, destination, zones) then Refused(PathIntersectsZone)
      else Meters(haversineKm(source, destination) * 1000.0)
  }

  /** The package-level noFlyZones slice and the handlers that grow it. */
  class ZoneRegistry {
    var noFlyZones: seq<NoFlyZone>

    constructor()
      ensures noFlyZones == []
    {
      noFlyZones := [];
    }

    /** getNoFlyZone over the fetched instances: appends their zones; answers the panic that stopped it, if any. */
    method GetNoFlyZone(instances: seq<ZoneInstance>) returns (panic: Option<string>)
      modifies this
      ensures noFlyZones == old(noFlyZones) + LoadedZones(instances).0
      ensures panic == LoadedZones(instances).1
    {
      for i := 0 to |instances|
        invariant forall k :: 0 <= k < i ==> FirstRing(instances[k].coordinates).Success?
        invariant LoadedZones(instances[..i]).1 == None
        invariant noFlyZones == old(noFlyZones) + LoadedZones(instances[..i]).0
      {
        assert instances[..i + 1][..i] == instances[..i];
        var polygon := ExtractPolygon(instances[i].coordinates);
        if polygon.Failure? {
          LoadStopsAtFirstBadGeometry(instances, i);
          return Some(polygon.error);
        }
        noFlyZones := noFlyZones + [ZoneOf(instances[i], polygon.value)];
      }
      assert instances[..|instances|] == instances;
      return None;
    }

    /**
     * GetPath: gather the zones again, then answer the query against all
     * zones gathered by this and every earlier request.
     */
    method GetPath(query: string, instances: seq<ZoneInstance>, parseFloat: string -> Option<real>,
                   haversineKm: (Point, Point) -> real) returns (reply: PathReply)
      modifies this
      ensures noFlyZones == old(noFlyZones) + LoadedZones(instances).0
      ensures LoadedZones(instances).1.Some? ==> reply == Panic(LoadedZones(instances).1.value)
      ensures LoadedZones(instances).1.None? ==> reply == PathAnswer(noFlyZones, query, parseFloat, haversineKm)
    {
      var panic := GetNoFlyZone(instances);
      if panic.Some? {
        return Panic(panic.value);
      }
      var points := Routes.GetSourceDestinationPoints(query, parseFloat);
      if points.Failure? {
        return Panic(points.error);
      }
      var (source, destination) := points.value;
      var inZone := IsPathInNoFlyZone(source, destination, noFlyZones);
      if inZone {
        reply := Refused(PathIntersectsZone);
      } else {
        var distance := haversineKm(source, destination);
        reply := Meters(distance * 1000.0);
      }
    }
  }

  /** A refused path stays refused: later requests only add zones. */
  lemma RefusalIsSticky(zones: seq<NoFlyZone>, more: seq<NoFlyZone>, query: string,
                        parseFloat: string -> Option<real>, haversineKm: (Point, Point) -> real)
    requires PathAnswer(zones, query, parseFloat, haversineKm).Refused?
    ensures PathAnswer(zones + more, query, parseFloat, haversineKm) == Refused(PathIntersectsZone)
  {
    var (source, destination) := Routes.GetSourceDestinationPoints(query, parseFloat).value;
    ConcatenatedZones(source, destination, zones, more);
  }

  /** Loading the same zones again changes no answer: the duplicates add no conflict. */
  lemma ReloadChangesNoAnswer(zones: seq<NoFlyZone>, loaded: seq<NoFlyZone>, query: string,
                              parseFloat: string -> Option<real>, haversineKm: (Point, Point) -> real)
    ensures PathAnswer(zones + loaded + loaded, query, parseFloat, haversineKm) ==
            PathAnswer(zones + loaded, query, parseFloat, haversineKm)
  {
    var points := Routes.GetSourceDestinationPoints(query, parseFloat);
    if points.Success? {
      var (source, destination) := points.value;
      ConcatenatedZones(source, destination, zones + loaded, loaded);
      ConcatenatedZones(source, destination, zones, loaded);
    }
  }

  /** A clear path is answered with its distance, and a path meeting a zone is refused, whatever its length. */
  lemma AnswerFollowsZones(zones: seq<NoFlyZone>, source: Point, destination: Point,
                           parseFloat: string -> Option<real>, haversineKm: (Point, Point) -> real, query: string)
    requires Routes.GetSourceDestinationPoints(query, parseFloat) == Success((source, destination))
    ensures PathAnswer(zones, query, parseFloat, haversineKm).Refused? <==> PathInNoFlyZone(source, destination, zones)
    ensures PathAnswer(zones, query, parseFloat, haversineKm).Meters? ==>
              PathAnswer(zones, query, parseFloat, haversineKm).meters == 1000.0 * haversineKm(source, destination)
  {
  }
}
