/**
 * internal/noflyzone/checker.go: the older airspace check, with no time
 * window. A path is refused when it meets any zone at all. The geometry
 * (orientation, onSegment, doIntersect, isPointInPolygon) is the same text as
 * in util/checker.go and lives in module Segments.
 */
module NoFlyZoneCheck {
  import opened Segments

  /** noflyzone.NoFlyZone; the activation times are carried but never read. */
  datatype NoFlyZone = NoFlyZone(polygon: seq<Point>, startTime: int, endTime: int)

  /** doesLineIntersectPolygon: an edge (closing edge included) meets the line, or an end point is inside. */
  method DoesLineIntersectPolygon(line: Line, zone: NoFlyZone) returns (meets: bool)
    ensures meets == MeetsPolygon(line, zone.polygon)
  {
    meets := LineMeetsPolygon(line, zone.polygon);
  }

  /** The verdict of IsPathInNoFlyZone: some zone meets the path. */
  predicate PathInNoFlyZone(source: Point, destination: Point, zones: seq<NoFlyZone>)
  {
    exists k :: 0 <= k < |zones| && MeetsPolygon(Line(source, destination), zones[k].polygon)
  }

  /** IsPathInNoFlyZone: the zones are tried in order and the first one met ends the search. */
  method IsPathInNoFlyZone(source: Point, destination: Point, zones: seq<NoFlyZone>) returns (inZone: bool)
    ensures inZone == PathInNoFlyZone(source, destination, zones)
  {
    var path := Line(source, destination);
    for i := 0 to |zones|
      invariant forall k :: 0 <= k < i ==> !MeetsPolygon(path, zones[k].polygon)
    {
      var meets := DoesLineIntersectPolygon(path, zones[i]);
      if meets {
        return true;
      }
    }
    return false;
  }

  /** Listing more zones can only add conflicts: the verdict on a concatenation is the disjunction. */
  lemma ConcatenatedZones(source: Point, destination: Point, zones: seq<NoFlyZone>, more: seq<NoFlyZone>)
    ensures PathInNoFlyZone(source, destination, zones + more) <==>
            PathInNoFlyZone(source, destination, zones) || PathInNoFlyZone(source, destination, more)
  {
    var all := zones + more;
    var path := Line(source, destination);
    if PathInNoFlyZone(source, destination, all) {
      var k :| 0 <= k < |all| && MeetsPolygon(path, all[k].polygon);
      if k >= |zones| {
        assert all[k] == more[k - |zones|];
      } else {
        assert all[k] == zones[k];
      }
    }
    if PathInNoFlyZone(source, destination, more) {
      var k :| 0 <= k < |more| && MeetsPolygon(path, more[k].polygon);
      assert all[|zones| + k] == more[k];
    }
    if PathInNoFlyZone(source, destination, zones) {
      var k :| 0 <= k < |zones| && MeetsPolygon(path, zones[k].polygon);
      assert all[k] == zones[k];
    }
  }

  /** The activation times play no part: zones with the same polygons give the same verdict. */
  lemma ActivationTimesIgnored(source: Point, destination: Point, zones: seq<NoFlyZone>, others: seq<NoFlyZone>)
    requires |zones| == |others|
    requires forall k :: 0 <= k < |zones| ==> zones[k].polygon == others[k].polygon
    ensures PathInNoFlyZone(source, destination, zones) == PathInNoFlyZone(source, destination, others)
  {
    var path := Line(source, destination);
    if PathInNoFlyZone(source, destination, zones) {
      var k :| 0 <= k < |zones| && MeetsPolygon(path, zones[k].polygon);
      assert MeetsPolygon(path, others[k].polygon);
    }
    if PathInNoFlyZone(source, destination, others) {
      var k :| 0 <= k < |others| && MeetsPolygon(path, others[k].polygon);
      assert MeetsPolygon(path, zones[k].polygon);
    }
  }

  /** A path that starts or ends on a vertex of some zone is refused. */
  lemma PathFromZoneVertexRefused(source: Point, destination: Point, zones: seq<NoFlyZone>, k: nat, v: nat)
    requires k < |zones| && v < |zones[k].polygon|
    requires source == zones[k].polygon[v] || destination == zones[k].polygon[v]
    ensures PathInNoFlyZone(source, destination, zones)
  {
    VertexOnLineMeets(Line(source, destination), zones[k].polygon, v);
  }
}
