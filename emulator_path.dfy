/**
 * service/emulator-service.go: the emulator's GetPath. Each request reads
 * the restricted zones afresh (getRestrictedZone, into a local list), reads
 * the query, and records the zones the path crosses inside their windows in
 * the clearance log of util/checker.go; the distance is answered whether or
 * not zones were crossed.
 */
module EmulatorPath {
  import opened Wrappers
  import opened Segments
  import opened GeoJson
  import opened ClearanceCheck
  import Routes

  /** The zone built from one instance and its polygon: id, polygon and the two timestampMs values. */
  function RestrictedZoneOf(instance: ZoneInstance, polygon: seq<Point>): RestrictedZone
  {
    RestrictedZone(instance.id, polygon, instance.activationStartMs, instance.activationEndMs)
  }

  /** The zones getRestrictedZone returns, or the panic of the first geometry it cannot read. */
  function RestrictedZones(instances: seq<ZoneInstance>): Result<seq<RestrictedZone>, string>
  {
    if |instances| == 0 then Success([])
    else
      match RestrictedZones(instances[..|instances| - 1])
      case Failure(e) => Failure(e)
      case Success(zones) =>
        var last := instances[|instances| - 1];
        match FirstRing(last.coordinates)
        case Failure(e) => Failure(e)
        case Success(polygon) => Success(zones + [RestrictedZoneOf(last, polygon)])
  }

  /** With readable geometries there is one zone per instance, in order, carrying its id and first ring. */
  lemma {:induction false} RestrictedZonesInOrder(instances: seq<ZoneInstance>)
    requires forall k :: 0 <= k < |instances| ==> FirstRing(instances[k].coordinates).Success?
    ensures RestrictedZones(instances).Success?
    ensures |RestrictedZones(instances).value| == |instances|
    ensures forall k :: 0 <= k < |instances| ==>
              RestrictedZones(instances).value[k] ==
              RestrictedZoneOf(instances[k], FirstRing(instances[k].coordinates).value)
  {
    if |instances| > 0 {
      RestrictedZonesInOrder(instances[..|instances| - 1]);
    }
  }

  /** One unreadable geometry anywhere in the answer makes the whole load panic. */
  lemma {:induction false} UnreadableGeometryPanics(instances: seq<ZoneInstance>, bad: nat)
    requires bad < |instances| && FirstRing(instances[bad].coordinates).Failure?
    ensures RestrictedZones(instances).Failure?
    decreases |instances|
  {
    if bad < |instances| - 1 {
      var init := instances[..|instances| - 1];
      assert init[bad] == instances[bad];
      UnreadableGeometryPanics(init, bad);
    }
  }

  /** getRestrictedZone's loop over the fetched instances. */
  method GetRestrictedZone(instances: seq<ZoneInstance>) returns (zones: Result<seq<RestrictedZone>, string>)
    ensures zones == RestrictedZones(instances)
  {
    var gathered: seq<RestrictedZone> := [];
    for i := 0 to |instances|
      invariant RestrictedZones(instances[..i]) == Success(gathered)
    {
      assert instances[..i + 1][..i] == instances[..i];
      var polygon := ExtractPolygon(instances[i].coordinates);
      if polygon.Failure? {
        PanicIsFinal(instances, i + 1);
        return Failure(polygon.error);
      }
      gathered := gathered + [RestrictedZoneOf(instances[i], polygon.value)];
    }
    assert instances[..|instances|] == instances;
    return Success(gathered);
  }

  /** Once a prefix of the instances fails to load, the whole list fails with the same panic. */
  lemma {:induction false} PanicIsFinal(instances: seq<ZoneInstance>, k: nat)
    requires k <= |instances| && RestrictedZones(instances[..k]).Failure?
    ensures RestrictedZones(instances) == RestrictedZones(instances[..k])
    decreases |instances| - k
  {
    if k < |instances| {
      assert instances[..k + 1][..k] == instances[..k];
      PanicIsFinal(instances, k + 1);
    } else {
      assert instances[..k] == instances;
    }
  }

  /**
   * GetPath of the emulator: the distance in meters (the service's
   * haversine in kilometers, times 1000) and the whole clearance log after
   * this request's crossings are appended. The error result is always nil;
   * only the panics of the loader and of the query reader fail.
   */
  method GetPath(query: string, instances: seq<ZoneInstance>, currentTime: int, droneSpeedMph: real,
                 parseFloat: string -> Option<real>, log: ClearanceLog,
                 haversineKm: (Point, Point) -> real, haversineMeters: (Point, Point) -> real)
    returns (reply: Result<(real, seq<ClearanceZone>), string>)
    requires droneSpeedMph > 0.0
    modifies log
    ensures RestrictedZones(instances).Failure? ==>
              reply == Failure(RestrictedZones(instances).error) && log.crossedZones == old(log.crossedZones)
    ensures RestrictedZones(instances).Success? && Routes.GetSourceDestinationPoints(query, parseFloat).Failure? ==>
              reply.Failure? && log.crossedZones == old(log.crossedZones)
    ensures RestrictedZones(instances).Success? && Routes.GetSourceDestinationPoints(query, parseFloat).Success? ==>
              var (source, destination) := Routes.GetSourceDestinationPoints(query, parseFloat).value;
              var mps := ConvertMphToMps(droneSpeedMph);
              log.crossedZones == old(log.crossedZones) +
                NewlyCrossed(source, destination, RestrictedZones(instances).value, currentTime, mps, haversineMeters) &&
              reply == Success((haversineKm(source, destination) * 1000.0, log.crossedZones))
  {
    var zones := GetRestrictedZone(instances);
    if zones.Failure? {
      return Failure(zones.error);
    }
    var points := Routes.GetSourceDestinationPoints(query, parseFloat);
    if points.Failure? {
      return Failure(points.error);
    }
    var (source, destination) := points.value;
    var inZone, crossedZones := log.IsPathInRestrictedZone(source, destination, zones.value, currentTime,
                                                          droneSpeedMph, haversineMeters);
    var distance := haversineKm(source, destination);
    reply := Success((distance * 1000.0, crossedZones));
  }
}
