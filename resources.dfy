/**
 * service/emulator-service.go, the data side of the emulator: resources,
 * the CSV patrol tracks (getWayPoints), the batches of resources read
 * together at start-up (chunkResources), the drone lookup (checkIndex) and
 * the remaining operation time.
 */
module EmulatorData {
  import opened Wrappers
  import opened Segments
  import opened DroneRecords
  import Text

  /** models.Resource without the optional person fields: a drone, vehicle or person with a position and a base. */
  datatype Resource = Resource(id: string, name: string, kind: string, isVehicle: bool,
                               latitude: real, longitude: real, baseLatitude: real, baseLongitude: real)

  // ------------------------------------------------------------ getWayPoints

  /**
   * One line of a track file: kept when it has exactly three comma fields,
   * the first is neither "id" nor "squadId", and the trimmed second and third
   * both parse; they are the latitude and the longitude.
   */
  function LinePoint(line: string, parseFloat: string -> Option<real>): Option<Point>
  {
    var cols := Text.Split(line, ',');
    if |cols| == 3 && cols[0] != "id" && cols[0] != "squadId" then
      match parseFloat(Text.TrimSpace(cols[1]))
      case None => None
      case Some(lat) =>
        match parseFloat(Text.TrimSpace(cols[2]))
        case None => None
        case Some(lon) => Some(Point(lat, lon))
    else None
  }

  /** The points of the kept lines, in line order. */
  function TrackPoints(lines: seq<string>, parseFloat: string -> Option<real>): seq<Point>
  {
    if |lines| == 0 then []
    else
      var earlier := TrackPoints(lines[..|lines| - 1], parseFloat);
      match LinePoint(lines[|lines| - 1], parseFloat)
      case Some(p) => earlier + [p]
      case None => earlier
  }

  /**
   * getWayPoints: the file is scanned line by line. The scanner drops a
   * carriage return before each newline and yields no final empty line;
   * splitting at newlines keeps both, but the carriage return sits in the
   * last field, which is trimmed, and an empty line has one field, so the
   * same points are kept.
   */
  method GetWayPoints(file: string, parseFloat: string -> Option<real>) returns (waypoints: seq<Point>)
    ensures waypoints == TrackPoints(Text.Split(file, '\n'), parseFloat)
  {
    var lines := Text.Split(file, '\n');
    waypoints := [];
    for i := 0 to |lines|
      invariant waypoints == TrackPoints(lines[..i], parseFloat)
    {
      assert lines[..i + 1][..i] == lines[..i];
      var point := ReadRow(lines[i], parseFloat);
      if point.Some? {
        waypoints := waypoints + [point.value];
      }
    }
    assert lines[..|lines|] == lines;
  }

  /** The body of getWayPoints' scan for one line: its point, if the line is a well-formed data row. */
  method ReadRow(line: string, parseFloat: string -> Option<real>) returns (point: Option<Point>)
    ensures point == LinePoint(line, parseFloat)
  {
    point := None;
    var cols := Text.Split(line, ',');
    if |cols| == 3 && cols[0] != "id" && cols[0] != "squadId" {
      var lat := parseFloat(Text.TrimSpace(cols[1]));
      if lat.Some? {
        var lon := parseFloat(Text.TrimSpace(cols[2]));
        if lon.Some? {
          point := Some(Point(lat.value, lon.value));
        }
      }
    }
  }

  /** The points of two runs of lines are the points of each, one after the other. */
  lemma {:induction false} TrackPointsAppend(first: seq<string>, second: seq<string>, parseFloat: string -> Option<real>)
    ensures TrackPoints(first + second, parseFloat) == TrackPoints(first, parseFloat) + TrackPoints(second, parseFloat)
    decreases |second|
  {
    if |second| > 0 {
      var init := second[..|second| - 1];
      assert (first + second)[..|first + second| - 1] == first + init;
      TrackPointsAppend(first, init, parseFloat);
    } else {
      assert first + second == first;
    }
  }

  /** A well-formed row "id,lat,lon" gives the point its two fields denote. */
  lemma RowRoundTrip(id: string, lat: string, lon: string, parseFloat: string -> Option<real>, a: real, b: real)
    requires ',' !in id && ',' !in lat && ',' !in lon
    requires id != "id" && id != "squadId"
    requires parseFloat(Text.TrimSpace(lat)) == Some(a) && parseFloat(Text.TrimSpace(lon)) == Some(b)
    ensures LinePoint(Text.Join([id, lat, lon], ','), parseFloat) == Some(Point(a, b))
  {
    Text.SplitJoin([id, lat, lon], ',');
  }

  /** A header row "id,..." or "squadId,..." with three fields gives no point, whatever follows. */
  lemma HeaderSkipped(first: string, lat: string, lon: string, parseFloat: string -> Option<real>)
    requires first == "id" || first == "squadId"
    requires ',' !in lat && ',' !in lon
    ensures LinePoint(Text.Join([first, lat, lon], ','), parseFloat) == None
  {
    assert ',' !in first;
    Text.SplitJoin([first, lat, lon], ',');
  }

  /** Every point of the track comes from some line of the file. */
  lemma {:induction false} TrackPointsFromLines(lines: seq<string>, parseFloat: string -> Option<real>)
    ensures |TrackPoints(lines, parseFloat)| <= |lines|
    ensures forall p :: p in TrackPoints(lines, parseFloat) ==>
              exists k :: 0 <= k < |lines| && LinePoint(lines[k], parseFloat) == Some(p)
  {
    if |lines| > 0 {
      var init := lines[..|lines| - 1];
      TrackPointsFromLines(init, parseFloat);
      forall p | p in TrackPoints(lines, parseFloat)
        ensures exists k :: 0 <= k < |lines| && LinePoint(lines[k], parseFloat) == Some(p)
      {
        if p in TrackPoints(init, parseFloat) {
          var k :| 0 <= k < |init| && LinePoint(init[k], parseFloat) == Some(p);
          assert lines[k] == init[k];
        } else {
          assert LinePoint(lines[|lines| - 1], parseFloat) == Some(p);
        }
      }
    }
  }

  // ---------------------------------------------------------- chunkResources

  /** The size of a start-up batch. */
  const ChunkSize := 500

  /** The chunks laid end to end. */
  function Flatten(chunks: seq<seq<Resource>>): seq<Resource>
  {
    if |chunks| == 0 then [] else Flatten(chunks[..|chunks| - 1]) + chunks[|chunks| - 1]
  }

  /** chunkResources: consecutive slices of 500 resources, the last one holding what remains. */
  method ChunkResources(resources: seq<Resource>) returns (chunks: seq<seq<Resource>>)
    ensures Flatten(chunks) == resources
    ensures forall k :: 0 <= k < |chunks| - 1 ==> |chunks[k]| == ChunkSize
    ensures |chunks| > 0 ==> 1 <= |chunks[|chunks| - 1]| <= ChunkSize
    ensures chunks == [] <==> resources == []
  {
    chunks := [];
    var i := 0;
    while i < |resources|
      invariant 0 <= i <= |resources|
      invariant Flatten(chunks) == resources[..i]
      invariant i == |chunks| * ChunkSize || i == |resources|
      invariant forall k :: 0 <= k < |chunks| - 1 ==> |chunks[k]| == ChunkSize
      invariant |chunks| > 0 ==> 1 <= |chunks[|chunks| - 1]| <= ChunkSize
      invariant i < |resources| ==> forall k :: 0 <= k < |chunks| ==> |chunks[k]| == ChunkSize
      invariant chunks == [] <==> i == 0
      decreases |resources| - i
    {
      var last := i + ChunkSize;
      if last > |resources| {
        last := |resources|;
      }
      chunks := chunks + [resources[i..last]];
      assert Flatten(chunks) == resources[..i] + resources[i..last];
      assert resources[..last] == resources[..i] + resources[i..last];
      i := last;
    }
    assert resources[..i] == resources;
  }

  /** The number of chunks is the number of resources divided by 500, rounded up. */
  lemma {:induction false} ChunkCount(chunks: seq<seq<Resource>>)
    requires forall k :: 0 <= k < |chunks| - 1 ==> |chunks[k]| == ChunkSize
    requires |chunks| > 0 ==> 1 <= |chunks[|chunks| - 1]| <= ChunkSize
    ensures |chunks| == (|Flatten(chunks)| + ChunkSize - 1) / ChunkSize
  {
    if |chunks| > 0 {
      var init := chunks[..|chunks| - 1];
      FullChunksLength(init);
      var n := |init| * ChunkSize + |chunks[|chunks| - 1]|;
      assert |Flatten(chunks)| == n;
      assert (n + ChunkSize - 1) / ChunkSize == |init| + 1;
    }
  }

  lemma {:induction false} FullChunksLength(chunks: seq<seq<Resource>>)
    requires forall k :: 0 <= k < |chunks| ==> |chunks[k]| == ChunkSize
    ensures |Flatten(chunks)| == |chunks| * ChunkSize
  {
    if |chunks| > 0 {
      FullChunksLength(chunks[..|chunks| - 1]);
    }
  }

  // -------------------------------------------------------------- checkIndex

  /** checkIndex: the position of the LAST drone with the id (the loop does not stop), or -1. */
  function CheckIndex(drones: seq<DroneH3D>, droneId: string): (index: int)
    ensures -1 <= index < |drones|
    ensures index == -1 <==> forall k :: 0 <= k < |drones| ==> drones[k].droneId != droneId
    ensures index >= 0 ==> drones[index].droneId == droneId &&
                           forall k :: index < k < |drones| ==> drones[k].droneId != droneId
  {
    if |drones| == 0 then -1
    else if drones[|drones| - 1].droneId == droneId then |drones| - 1
    else CheckIndex(drones[..|drones| - 1], droneId)
  }

  // ----------------------------------------- GetRemainingOperationTimeAtLocation

  /** The message of Go's panic on an index past the end of a slice (here drones[-1]). */
  const IndexOutOfRange := "index out of range"

  /** Battery percent lost per second: 100 over the battery life in seconds (BatteryLife is in minutes). */
  function DepletionRate(batteryLife: real): (rate: real)
    requires batteryLife > 0.0
    ensures rate > 0.0 && rate * batteryLife * 60.0 == 100.0
  {
    100.0 / (batteryLife * 60.0)
  }

  /**
   * GetRemainingOperationTimeAtLocation: the seconds the battery left after
   * the trip still lasts, (battery - travel * rate) / rate; an unknown id
   * indexes drones[-1] and panics.
   */
  function GetRemainingOperationTimeAtLocation(drones: seq<DroneH3D>, resourceId: string,
                                               travelTimeInSeconds: real, batteryLife: real): (r: Result<real, string>)
    requires batteryLife > 0.0
    ensures r.Failure? <==> CheckIndex(drones, resourceId) == -1
  {
    var i := CheckIndex(drones, resourceId);
    if i < 0 then Failure(IndexOutOfRange)
    else
      var depletionRate := DepletionRate(batteryLife);
      var batteryLevel := drones[i].battLevel - travelTimeInSeconds * depletionRate;
      Success((1.0 / depletionRate) * batteryLevel)
  }

  /** The seconds of flight the drone's current charge lasts: its percent of the battery life in seconds. */
  function ChargeSeconds(drone: DroneH3D, batteryLife: real): real
  {
    drone.battLevel * batteryLife * 60.0 / 100.0
  }

  /**
   * The answer is the time the current charge lasts minus the trip: the
   * battery percent times the battery life's seconds over 100, less the
   * travel time; so a longer trip leaves strictly less time.
   */
  lemma RemainingTimeIsChargeLessTrip(drones: seq<DroneH3D>, resourceId: string, t: real, u: real, batteryLife: real)
    requires batteryLife > 0.0 && CheckIndex(drones, resourceId) >= 0
    ensures var r := GetRemainingOperationTimeAtLocation(drones, resourceId, t, batteryLife);
            r.Success? && r.value == ChargeSeconds(drones[CheckIndex(drones, resourceId)], batteryLife) - t
    ensures t < u ==> GetRemainingOperationTimeAtLocation(drones, resourceId, u, batteryLife).value <
                      GetRemainingOperationTimeAtLocation(drones, resourceId, t, batteryLife).value
  {
    var rate := DepletionRate(batteryLife);
    var b := drones[CheckIndex(drones, resourceId)].battLevel;
    var r := GetRemainingOperationTimeAtLocation(drones, resourceId, t, batteryLife);
    assert r.value == (1.0 / rate) * (b - t * rate);
    assert (1.0 / rate) * (b - t * rate) == b / rate - t;
    assert (1.0 / rate) * (b - u * rate) == b / rate - u;
    assert 1.0 / rate == batteryLife * 60.0 / 100.0;
    assert b / rate == b * (1.0 / rate);
  }
}
