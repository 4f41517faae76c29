/**
 * service/emulator-service.go, the state side of the emulator: the
 * package-level resources, drones, resourceStatusMap, missionChanMap,
 * simuMap and locChan, with each goroutine loop cut into single ticks.
 * A mission channel is the queue of messages sent to it and not yet
 * received; locChan is the queue of location messages not yet applied.
 */
module Emulator {
  import opened Wrappers
  import opened Segments
  import opened DroneRecords
  import opened EmulatorData
  import Routes
  import Text

  /** The three values of resourceStatusMap. */
  datatype Status = Patrol | Mission | ReturnToBase

  /** A message on locChan: a models.Resource with only ID, Latitude and Longitude set. */
  datatype Location = Location(id: string, latitude: real, longitude: real)

  /**
   * The parts of models.MissionCommand the emulator reads. The two ids are
   * Go pointers that the request binder never checks: None when the body
   * leaves them out.
   */
  datatype MissionCommand = MissionCommand(resourceId: Option<string>, missionId: Option<string>, waypoints: seq<seq<real>>)

  /** How the service answers a mission command: accepted, refused with an error text, or a panic in the handler. */
  datatype CommandOutcome = Accepted | Refused(err: string) | HandlerPanic(reason: string)

  const StartMessage := "START"
  const StopMessage := "STOP"
  const ResourceNotFound := "resource not found"
  const ResourceCannotBeFound := "resource cannot be found"
  const NilDereference := "invalid memory address or nil pointer dereference"

  function NotAvailable(id: string): string { id + " is not available" }

  /** The location message for a point of a route or track. */
  function LocationAt(id: string, p: Point): Location { Location(id, p.lat, p.lon) }

  // ------------------------------------------------------------ lookups

  /** The position of the last resource with the id, or -1 (the lookup loops do not stop at a match). */
  function ResourceIndex(resources: seq<Resource>, id: string): (index: int)
    ensures -1 <= index < |resources|
    ensures index == -1 <==> forall k :: 0 <= k < |resources| ==> resources[k].id != id
    ensures index >= 0 ==> resources[index].id == id &&
                           forall k :: index < k < |resources| ==> resources[k].id != id
  {
    if |resources| == 0 then -1
    else if resources[|resources| - 1].id == id then |resources| - 1
    else ResourceIndex(resources[..|resources| - 1], id)
  }

  /**
   * The position startResourceMission and goBackToBase read as written:
   * (-1, -1) until a resource with the id is seen, and "not found" is
   * decided by a negative coordinate.
   */
  function SentinelPosition(resources: seq<Resource>, id: string): (real, real)
  {
    var k := ResourceIndex(resources, id);
    if k < 0 then (-1.0, -1.0) else (resources[k].latitude, resources[k].longitude)
  }

  predicate SentinelFinds(resources: seq<Resource>, id: string)
  {
    var (lat, lon) := SentinelPosition(resources, id);
    !(lat < 0.0 || lon < 0.0)
  }

  /** The sentinel test turns away a resource that exists but lies south of the equator. */
  lemma SentinelRejectsSouthernResource()
    ensures var sydney := Resource("drone-1", "Sydney", "DRONE", false, -33.87, 151.21, -33.86, 151.2);
            ResourceIndex([sydney], "drone-1") == 0 && !SentinelFinds([sydney], "drone-1")
  {
  }

  /** The lookup the model uses: found exactly when a resource has the id, whatever its coordinates. */
  function CurrentPosition(resources: seq<Resource>, id: string): (position: Option<(real, real)>)
    ensures position.Some? <==> exists k :: 0 <= k < |resources| && resources[k].id == id
    ensures position.Some? ==> position.value == SentinelPosition(resources, id)
    ensures position.Some? && position.value.0 >= 0.0 && position.value.1 >= 0.0 ==> SentinelFinds(resources, id)
  {
    var k := ResourceIndex(resources, id);
    if k < 0 then None else Some((resources[k].latitude, resources[k].longitude))
  }

  /** Where the lookups agree: on resources with no negative coordinate the corrected lookup finds what the sentinel finds. */
  lemma LookupsAgreeOffSentinel(resources: seq<Resource>, id: string)
    requires forall k :: 0 <= k < |resources| ==> resources[k].latitude >= 0.0 && resources[k].longitude >= 0.0
    ensures CurrentPosition(resources, id).Some? <==> SentinelFinds(resources, id)
  {
  }

  // ------------------------------------------------------------ start-up

  /** randomInt draws made for one drone at start-up. */
  datatype Draw = Draw(heading: int, distanceFromHome: int, gpsStatus: int, battery: int)

  /** The ranges of randomInt(0, 360), randomInt(0, 51), randomInt(5, 7) and randomInt(50, 101). */
  predicate DrawInRange(d: Draw)
  {
    0 <= d.heading < 360 && 0 <= d.distanceFromHome < 51 && 5 <= d.gpsStatus < 7 && 50 <= d.battery < 101
  }

  /** Configuration and clock values copied into every drone. */
  datatype Settings = Settings(signalStrength: string, temperature: int, nowNanos: int)

  const DbxIds: seq<string> := ["603f1c1dbf35eba727ee6c3a", "602c8187519cc032dd65e739", "604743f99ecead5820683080"]

  /** The drone InitService builds for resource number i: at its base, on the ground, with the drawn values. */
  function NewDrone(res: Resource, i: nat, draw: Draw, settings: Settings): DroneH3D
  {
    DroneH3D(res.id, "H3d Drone " + Text.Itoa(i + 1), "H3d", DbxIds[i % 3], "H3d", "H3D00" + Text.Itoa(i + 1),
             res.baseLatitude, res.baseLongitude, 0.0, draw.heading as real, draw.distanceFromHome as real,
             draw.gpsStatus, res.baseLatitude, res.baseLongitude, "", draw.battery as real,
             settings.signalStrength, 0, DroneMission([], ""), Text.Itoa(settings.temperature), settings.nowNanos)
  }

  /** The drones of the first n resources: one per resource of type "DRONE", in resource order. */
  function InitialDrones(resources: seq<Resource>, draws: seq<Draw>, settings: Settings, n: nat): seq<DroneH3D>
    requires n <= |resources| == |draws|
  {
    if n == 0 then []
    else
      var earlier := InitialDrones(resources, draws, settings, n - 1);
      if resources[n - 1].kind == "DRONE" then earlier + [NewDrone(resources[n - 1], n - 1, draws[n - 1], settings)]
      else earlier
  }

  /** Every drone made at start-up sits at its home with a battery in [50, 100] and belongs to a drone resource. */
  lemma {:induction false} InitialDronesAtHome(resources: seq<Resource>, draws: seq<Draw>, settings: Settings, n: nat)
    requires n <= |resources| == |draws|
    requires forall k :: 0 <= k < |draws| ==> DrawInRange(draws[k])
    ensures forall d :: d in InitialDrones(resources, draws, settings, n) ==>
              d.currLat == d.homeLat && d.currLong == d.homeLong && d.currAltitude == 0.0 &&
              50.0 <= d.battLevel <= 100.0 &&
              exists k :: 0 <= k < n && resources[k].kind == "DRONE" && resources[k].id == d.droneId
  {
    if n > 0 {
      InitialDronesAtHome(resources, draws, settings, n - 1);
    }
  }

  /** The ids of a list of resources. */
  function Ids(resources: seq<Resource>): set<string>
  {
    set k | 0 <= k < |resources| :: resources[k].id
  }

  lemma IdsGrow(resources: seq<Resource>, i: nat)
    requires i < |resources|
    ensures Ids(resources[..i + 1]) == Ids(resources[..i]) + {resources[i].id}
  {
    assert forall j :: 0 <= j < i ==> resources[..i + 1][j] == resources[..i][j];
  }

  /** Adding one id to a map over a set of ids gives the map over the larger set. */
  lemma MapGrows<V>(ids: set<string>, more: set<string>, x: string, value: string -> V)
    requires more == ids + {x}
    ensures (map id | id in ids :: value(id))[x := value(x)] == map id | id in more :: value(id)
  {
  }

  // ------------------------------------------------------------ ticks

  /** The state of a mission loop: its resource, the command's mission id, its route and the index of the last waypoint sent. */
  datatype MissionTask = MissionTask(id: string, missionId: Option<string>, route: seq<Point>, i: int)

  /** The state of a goBackToBase loop; `listens` is false when it captured a nil channel, which never delivers. */
  datatype ReturnTask = ReturnTask(id: string, route: seq<Point>, i: int, listens: bool)

  /** What a loop does after a tick. */
  datatype TaskState = OnMission(mission: MissionTask) | Returning(trip: ReturnTask) | Done(err: Option<string>) | Crashed(reason: string)

  /**
   * A tick of the mission loop with no message: send the next waypoint, or
   * hold at the last one, logging the mission id; that log line
   * dereferences the id, so a command without one crashes there.
   */
  function QuietMissionStep(task: MissionTask): (step: (TaskState, seq<Location>))
    requires 0 <= task.i < |task.route|
    ensures step.0.OnMission? ==>
              step.0.mission.id == task.id && step.0.mission.missionId == task.missionId &&
              step.0.mission.route == task.route && task.i <= step.0.mission.i < |task.route|
  {
    if task.i < |task.route| - 1 then (OnMission(task.(i := task.i + 1)), [LocationAt(task.id, task.route[task.i + 1])])
    else if task.missionId.Some? then (OnMission(task), [])
    else (Crashed(NilDereference), [])
  }

  /** Where a number of quiet ticks leave the loop, and the locations they send. */
  function QuietMissionRun(task: MissionTask, ticks: nat): (TaskState, seq<Location>)
    requires 0 <= task.i < |task.route|
    decreases ticks
  {
    if ticks == 0 then (OnMission(task), [])
    else
      var (next, sent) := QuietMissionStep(task);
      if next.OnMission? then
        var (final, more) := QuietMissionRun(next.mission, ticks - 1);
        (final, sent + more)
      else (next, sent)
  }

  /**
   * From waypoint i, t quiet ticks send waypoints i + 1 .. i + t, stopping
   * at the last one, each once and in order; the loop then holds there, or
   * crashes on its first hold when the command had no mission id.
   */
  lemma {:induction false} QuietMissionSendsRouteInOrder(task: MissionTask, ticks: nat)
    requires 0 <= task.i < |task.route|
    ensures var last := |task.route| - 1;
            var stop := if task.i + ticks <= last then task.i + ticks else last;
            var run := QuietMissionRun(task, ticks);
            run.1 == seq(stop - task.i, k requires 0 <= k < stop - task.i => LocationAt(task.id, task.route[task.i + 1 + k])) &&
            run.0 == if task.i + ticks <= last || task.missionId.Some? then OnMission(task.(i := stop)) else Crashed(NilDereference)
    decreases ticks
  {
    if ticks > 0 && task.i < |task.route| - 1 {
      var next := task.(i := task.i + 1);
      QuietMissionSendsRouteInOrder(next, ticks - 1);
    } else if ticks > 0 && task.missionId.Some? {
      QuietMissionSendsRouteInOrder(task, ticks - 1);
    }
  }

  /**
   * A fresh 13-point mission sends waypoints 1 to 12 in its first 12 quiet
   * ticks and nothing after; a 13th quiet tick crashes it when the command
   * had no mission id.
   */
  lemma FreshMissionFlight(id: string, missionId: Option<string>, route: seq<Point>, ticks: nat)
    requires |route| == Routes.Legs + 1 && ticks >= Routes.Legs
    ensures var run := QuietMissionRun(MissionTask(id, missionId, route, 0), ticks);
            run.1 == seq(Routes.Legs, k requires 0 <= k < Routes.Legs => LocationAt(id, route[k + 1])) &&
            run.0 == if ticks == Routes.Legs || missionId.Some? then OnMission(MissionTask(id, missionId, route, Routes.Legs))
                     else Crashed(NilDereference)
  {
    QuietMissionSendsRouteInOrder(MissionTask(id, missionId, route, 0), ticks);
  }

  /** A tick of the return loop with no message: arrive at the last waypoint, else send the next one. */
  function QuietReturnStep(task: ReturnTask): (ReturnTask, seq<Location>, bool)
    requires 0 <= task.i < |task.route|
  {
    if task.i == |task.route| - 1 then (task, [], true)
    else (task.(i := task.i + 1), [LocationAt(task.id, task.route[task.i + 1])], false)
  }

  // ------------------------------------------------------------ battery

  /** A drone is charging when it stands exactly at home. */
  predicate AtHome(d: DroneH3D) { d.currLat == d.homeLat && d.currLong == d.homeLong }

  /** A drone away from home with an empty battery is teleported home. */
  predicate Stranded(d: DroneH3D) { !AtHome(d) && d.battLevel <= 0.0 }

  /** Battery percent lost in one 5-second tick. */
  function TickDrain(batteryLife: real): real
    requires batteryLife > 0.0
  {
    5.0 * DepletionRate(batteryLife)
  }

  /** One battery tick for one drone: +10 at home capped at 100; unchanged when stranded; else drained, floored at 0. */
  function ChargeStep(d: DroneH3D, batteryLife: real): (e: DroneH3D)
    requires batteryLife > 0.0
    ensures e == d.(battLevel := e.battLevel)
  {
    if AtHome(d) then d.(battLevel := if d.battLevel + 10.0 > 100.0 then 100.0 else d.battLevel + 10.0)
    else if d.battLevel <= 0.0 then d
    else
      var level := d.battLevel - TickDrain(batteryLife);
      d.(battLevel := if level < 0.0 then 0.0 else level)
  }

  /** The home teleports one battery tick sends, in drone order. */
  function Teleports(drones: seq<DroneH3D>): seq<Location>
  {
    if |drones| == 0 then []
    else
      var d := drones[|drones| - 1];
      Teleports(drones[..|drones| - 1]) + (if Stranded(d) then [Location(d.droneId, d.homeLat, d.homeLong)] else [])
  }

  /** A battery in [0, 100] stays in [0, 100]; charging never lowers it and flying never raises it. */
  lemma ChargeStaysInRange(d: DroneH3D, batteryLife: real)
    requires batteryLife > 0.0 && 0.0 <= d.battLevel <= 100.0
    ensures 0.0 <= ChargeStep(d, batteryLife).battLevel <= 100.0
    ensures AtHome(d) ==> ChargeStep(d, batteryLife).battLevel >= d.battLevel
    ensures !AtHome(d) ==> ChargeStep(d, batteryLife).battLevel <= d.battLevel
  {
  }

  /** An empty battery away from home is left as it is, and the drone counts as stranded. */
  lemma DrainedBatteryStays(d: DroneH3D, batteryLife: real)
    requires batteryLife > 0.0 && !AtHome(d) && d.battLevel <= 0.0
    ensures ChargeStep(d, batteryLife) == d && Stranded(d)
  {
  }

  /** The status map InitService builds: every loaded resource patrols. */
  method PatrolStatuses(loaded: seq<Resource>) returns (st: map<string, Status>)
    ensures st == map id | id in Ids(loaded) :: Patrol
  {
    st := map[];
    for i := 0 to |loaded|
      invariant st == map id | id in Ids(loaded[..i]) :: Patrol
    {
      IdsGrow(loaded, i);
      MapGrows(Ids(loaded[..i]), Ids(loaded[..i + 1]), loaded[i].id, _ => Patrol);
      st := st[loaded[i].id := Patrol];
    }
    assert loaded[..|loaded|] == loaded;
  }

  /** The drones InitService builds: one per "DRONE" resource, in resource order. */
  method BuildDrones(loaded: seq<Resource>, draws: seq<Draw>, settings: Settings) returns (ds: seq<DroneH3D>)
    requires |draws| == |loaded| && forall k :: 0 <= k < |draws| ==> DrawInRange(draws[k])
    ensures ds == InitialDrones(loaded, draws, settings, |loaded|)
    ensures forall k :: 0 <= k < |ds| ==> 50.0 <= ds[k].battLevel <= 100.0
  {
    ds := [];
    for i := 0 to |loaded|
      invariant ds == InitialDrones(loaded, draws, settings, i)
    {
      if loaded[i].kind == "DRONE" {
        ds := ds + [NewDrone(loaded[i], i, draws[i], settings)];
      }
    }
    InitialDronesAtHome(loaded, draws, settings, |loaded|);
    forall k | 0 <= k < |ds| ensures 50.0 <= ds[k].battLevel <= 100.0 {
      assert ds[k] in ds;
    }
  }

  /** The patrol track of resource `id`: the points of its CSV file. */
  function TrackOf(trackFile: string -> string, parseFloat: string -> Option<real>, id: string): seq<Point>
  {
    TrackPoints(Text.Split(trackFile(id), '\n'), parseFloat)
  }

  /** The simuMap InitService builds: each resource's track, read from its CSV file. */
  method LoadTracks(loaded: seq<Resource>, trackFile: string -> string, parseFloat: string -> Option<real>)
    returns (tracks: map<string, seq<Point>>)
    ensures tracks == map id | id in Ids(loaded) :: TrackOf(trackFile, parseFloat, id)
  {
    tracks := map[];
    for i := 0 to |loaded|
      invariant tracks == map id | id in Ids(loaded[..i]) :: TrackOf(trackFile, parseFloat, id)
    {
      IdsGrow(loaded, i);
      MapGrows(Ids(loaded[..i]), Ids(loaded[..i + 1]), loaded[i].id,
               id => TrackOf(trackFile, parseFloat, id));
      var track := GetWayPoints(trackFile(loaded[i].id), parseFloat);
      tracks := tracks[loaded[i].id := track];
    }
    assert loaded[..|loaded|] == loaded;
  }

  /** The loop of one battery tick over the drones: their new batteries and the teleports sent. */
  method ChargeAll(drones: seq<DroneH3D>, batteryLife: real) returns (charged: seq<DroneH3D>, sent: seq<Location>)
    requires batteryLife > 0.0
    ensures |charged| == |drones| && forall k :: 0 <= k < |drones| ==> charged[k] == ChargeStep(drones[k], batteryLife)
    ensures sent == Teleports(drones)
  {
    charged := drones;
    sent := [];
    for i := 0 to |charged|
      invariant |charged| == |drones|
      invariant forall k :: 0 <= k < i ==> charged[k] == ChargeStep(drones[k], batteryLife)
      invariant forall k :: i <= k < |charged| ==> charged[k] == drones[k]
      invariant sent == Teleports(drones[..i])
    {
      assert drones[..i + 1][..i] == drones[..i];
      var d := charged[i];
      if d.currLat == d.homeLat && d.currLong == d.homeLong {
        var batteryLevel := d.battLevel + 10.0;
        if batteryLevel > 100.0 {
          charged := charged[i := d.(battLevel := 100.0)];
        } else {
          charged := charged[i := d.(battLevel := batteryLevel)];
        }
      } else if d.battLevel <= 0.0 {
        sent := sent + [Location(d.droneId, d.homeLat, d.homeLong)];
      } else {
        var batteryLevel := d.battLevel - 5.0 * DepletionRate(batteryLife);
        if batteryLevel < 0.0 {
          charged := charged[i := d.(battLevel := 0.0)];
        } else {
          charged := charged[i := d.(battLevel := batteryLevel)];
        }
      }
    }
    assert drones[..|drones|] == drones;
  }

  // ------------------------------------------------------------ updateLocations

  /** The position of the first resource with the id, or the length when there is none. */
  function FirstResource(resources: seq<Resource>, id: string): (index: nat)
    ensures index <= |resources|
    ensures forall k :: 0 <= k < index ==> resources[k].id != id
    ensures index < |resources| ==> resources[index].id == id
  {
    if |resources| == 0 then 0
    else if resources[0].id == id then 0
    else 1 + FirstResource(resources[1..], id)
  }

  /** The position of the first drone with the id, or the length when there is none. */
  function FirstDrone(drones: seq<DroneH3D>, id: string): (index: nat)
    ensures index <= |drones|
    ensures forall k :: 0 <= k < index ==> drones[k].droneId != id
    ensures index < |drones| ==> drones[index].droneId == id
  {
    if |drones| == 0 then 0
    else if drones[0].droneId == id then 0
    else 1 + FirstDrone(drones[1..], id)
  }

  /** The package-level state of service/emulator-service.go. */
  class Fleet {
    var resources: seq<Resource>
    var drones: seq<DroneH3D>
    var status: map<string, Status>
    var missionChan: map<string, seq<string>>
    var simu: map<string, seq<Point>>
    var locations: seq<Location>

    /** The predicate the state keeps: every resource has a status and every battery is in [0, 100]. */
    ghost predicate Valid()
      reads this
    {
      (forall k :: 0 <= k < |resources| ==> resources[k].id in status) &&
      (forall k :: 0 <= k < |drones| ==> 0.0 <= drones[k].battLevel <= 100.0)
    }

    /**
     * InitService on the loaded resources: every resource patrols, every
     * "DRONE" resource gets a drone, every resource gets the track read from
     * its CSV file; no mission channel exists yet.
     */
    constructor(loaded: seq<Resource>, draws: seq<Draw>, settings: Settings,
                trackFile: string -> string, parseFloat: string -> Option<real>)
      requires |draws| == |loaded| && forall k :: 0 <= k < |draws| ==> DrawInRange(draws[k])
      ensures Valid()
      ensures resources == loaded && drones == InitialDrones(loaded, draws, settings, |loaded|)
      ensures status == map id | id in Ids(loaded) :: Patrol
      ensures simu == map id | id in Ids(loaded) :: TrackOf(trackFile, parseFloat, id)
      ensures missionChan == map[] && locations == []
    {
      var st := PatrolStatuses(loaded);
      var ds := BuildDrones(loaded, draws, settings);
      var tracks := LoadTracks(loaded, trackFile, parseFloat);
      forall k | 0 <= k < |loaded| ensures loaded[k].id in st {
        assert loaded[k].id in Ids(loaded);
      }
      resources := loaded;
      drones := ds;
      status := st;
      simu := tracks;
      missionChan := map[];
      locations := [];
    }

    /**
     * StartResourceMission: an unknown id is refused with nothing changed;
     * otherwise the id gets a channel if it had none, and then a resource on
     * a mission is refused, one returning to base is sent "START" before its
     * mission starts, and any other starts its mission at once.
     */
    method StartResourceMission(command: MissionCommand) returns (outcome: CommandOutcome)
      requires Valid()
      modifies this
      ensures Valid()
      ensures resources == old(resources) && drones == old(drones) && status == old(status)
      ensures simu == old(simu) && locations == old(locations)
      ensures command.resourceId.None? ==>
                missionChan == old(missionChan) &&
                outcome == if |resources| == 0 then Refused(ResourceNotFound) else HandlerPanic(NilDereference)
      ensures command.resourceId.Some? ==>
              var id := command.resourceId.value;
              var channel := if id in old(missionChan) then old(missionChan)[id] else [];
              if id !in Ids(resources) then
                outcome == Refused(ResourceNotFound) && missionChan == old(missionChan)
              else if id in status && status[id] == Mission then
                outcome == Refused(NotAvailable(id)) && missionChan == old(missionChan)[id := channel]
              else if id in status && status[id] == ReturnToBase then
                outcome == Accepted && missionChan == old(missionChan)[id := channel + [StartMessage]]
              else
                outcome == Accepted && missionChan == old(missionChan)[id := channel]
    {
      if command.resourceId.None? {
        if |resources| == 0 {
          return Refused(ResourceNotFound);
        }
        return HandlerPanic(NilDereference);
      }
      var id := command.resourceId.value;
      var listed := resources;
      var known := false;
      for k := 0 to |listed|
        modifies {}
        invariant known <==> id in Ids(listed[..k])
      {
        IdsGrow(listed, k);
        if listed[k].id == id {
          known := true;
        }
      }
      assert listed[..|listed|] == listed;
      if !known {
        return Refused(ResourceNotFound);
      }
      if id !in missionChan {
        missionChan := missionChan[id := []];
      }
      if id in status && status[id] == ReturnToBase {
        missionChan := missionChan[id := missionChan[id] + [StartMessage]];
        return Accepted;
      } else if id in status && status[id] == Mission {
        return Refused(NotAvailable(id));
      }
      return Accepted;
    }

    /** StopResourceMission: an unknown id is refused; a known id with a channel is sent "STOP", one without gets nothing. */
    method StopResourceMission(command: MissionCommand) returns (outcome: CommandOutcome)
      modifies this
      ensures resources == old(resources) && drones == old(drones) && status == old(status)
      ensures simu == old(simu) && locations == old(locations)
      ensures command.resourceId.None? ==>
                missionChan == old(missionChan) &&
                outcome == if |resources| == 0 then Refused(ResourceNotFound) else HandlerPanic(NilDereference)
      ensures command.resourceId.Some? ==>
              var id := command.resourceId.value;
              if id !in Ids(resources) then outcome == Refused(ResourceNotFound) && missionChan == old(missionChan)
              else if id in old(missionChan) then
                outcome == Accepted && missionChan == old(missionChan)[id := old(missionChan)[id] + [StopMessage]]
              else outcome == Accepted && missionChan == old(missionChan)
    {
      if command.resourceId.None? {
        if |resources| == 0 {
          return Refused(ResourceNotFound);
        }
        return HandlerPanic(NilDereference);
      }
      var id := command.resourceId.value;
      var listed := resources;
      var known := false;
      for k := 0 to |listed|
        modifies {}
        invariant known <==> id in Ids(listed[..k])
      {
        IdsGrow(listed, k);
        if listed[k].id == id {
          known := true;
        }
      }
      assert listed[..|listed|] == listed;
      if !known {
        return Refused(ResourceNotFound);
      }
      if id in missionChan {
        missionChan := missionChan[id := missionChan[id] + [StopMessage]];
      }
      return Accepted;
    }

    /**
     * The start of startResourceMission: find the resource, plan the
     * straight route to the first mission waypoint, mark it on a mission,
     * and run the loop only when its channel exists.
     */
    method BeginMission(command: MissionCommand) returns (state: TaskState)
      requires Valid()
      modifies this
      ensures Valid()
      ensures resources == old(resources) && drones == old(drones) && simu == old(simu)
      ensures missionChan == old(missionChan) && locations == old(locations)
      ensures command.resourceId.None? ==>
                status == old(status) &&
                state == if |resources| == 0 then Done(Some(ResourceCannotBeFound)) else Crashed(NilDereference)
      ensures command.resourceId.Some? ==>
              var id := command.resourceId.value;
              match CurrentPosition(resources, id)
              case None => state == Done(Some(ResourceCannotBeFound)) && status == old(status)
              case Some((lat, lon)) =>
                if |command.waypoints| == 0 then state == Crashed(IndexOutOfRange) && status == old(status)
                else
                  status == old(status)[id := Mission] &&
                  (id !in missionChan ==> state == Done(None)) &&
                  (id in missionChan ==>
                     state.OnMission? && state.mission.id == id && state.mission.missionId == command.missionId &&
                     state.mission.i == 0 &&
                     (|command.waypoints[0]| == 2 ==>
                        |state.mission.route| == Routes.Legs + 1 &&
                        (forall k :: 0 <= k <= Routes.Legs ==>
                           state.mission.route[k] == Routes.StraightPoint([lat, lon], command.waypoints[0], k)) &&
                        state.mission.route[0] == Point(lat, lon) &&
                        state.mission.route[Routes.Legs] == Point(command.waypoints[0][0], command.waypoints[0][1])) &&
                     (|command.waypoints[0]| != 2 ==> state.mission.route == []))
    {
      if command.resourceId.None? {
        if |resources| == 0 {
          return Done(Some(ResourceCannotBeFound));
        }
        return Crashed(NilDereference);
      }
      var id := command.resourceId.value;
      var position := CurrentPosition(resources, id);
      if position.None? {
        return Done(Some(ResourceCannotBeFound));
      }
      var (lat, lon) := position.value;
      if |command.waypoints| == 0 {
        return Crashed(IndexOutOfRange);
      }
      var route := Routes.GetStraightRoute([lat, lon], command.waypoints[0]);
      if |command.waypoints[0]| == 2 {
        Routes.StraightRouteEnds([lat, lon], command.waypoints[0], 0);
      }
      status := status[id := Mission];
      if id !in missionChan {
        return Done(None);
      }
      state := OnMission(MissionTask(id, command.missionId, route, 0));
    }

    /**
     * The start of goBackToBase: mark the resource returning, plan the
     * straight route home, and capture its channel (none: a nil channel).
     */
    method BeginReturnToBase(id: string) returns (state: TaskState)
      requires Valid()
      modifies this
      ensures Valid()
      ensures resources == old(resources) && drones == old(drones) && simu == old(simu)
      ensures missionChan == old(missionChan) && locations == old(locations)
      ensures status == old(status)[id := ReturnToBase]
      ensures match CurrentPosition(resources, id)
              case None => state == Done(Some(ResourceCannotBeFound))
              case Some((lat, lon)) =>
                var base := resources[ResourceIndex(resources, id)];
                state.Returning? && state.trip == ReturnTask(id, state.trip.route, 0, id in missionChan) &&
                |state.trip.route| == Routes.Legs + 1 &&
                (forall k :: 0 <= k <= Routes.Legs ==>
                   state.trip.route[k] == Routes.StraightPoint([lat, lon], [base.baseLatitude, base.baseLongitude], k)) &&
                state.trip.route[0] == Point(lat, lon) &&
                state.trip.route[Routes.Legs] == Point(base.baseLatitude, base.baseLongitude)
    {
      status := status[id := ReturnToBase];
      var position := CurrentPosition(resources, id);
      if position.None? {
        return Done(Some(ResourceCannotBeFound));
      }
      var (lat, lon) := position.value;
      var base := resources[ResourceIndex(resources, id)];
      var route := Routes.GetStraightRoute([lat, lon], [base.baseLatitude, base.baseLongitude]);
      Routes.StraightRouteEnds([lat, lon], [base.baseLatitude, base.baseLongitude], 0);
      state := Returning(ReturnTask(id, route, 0, id in missionChan));
    }

    /**
     * One tick of the mission loop: a message on the channel ends the
     * mission and starts the return to base; otherwise the quiet step
     * (which crashes at the hold without a mission id), or the index panic
     * when the route is empty.
     */
    method MissionTick(task: MissionTask) returns (state: TaskState)
      requires Valid() && task.id in missionChan && 0 <= task.i
      modifies this
      ensures Valid()
      ensures resources == old(resources) && drones == old(drones) && simu == old(simu)
      ensures |old(missionChan)[task.id]| > 0 ==>
                missionChan == old(missionChan)[task.id := old(missionChan)[task.id][1..]] &&
                status == old(status)[task.id := ReturnToBase] && locations == old(locations) &&
                (state.Returning? || state == Done(Some(ResourceCannotBeFound)))
      ensures |old(missionChan)[task.id]| == 0 ==>
                missionChan == old(missionChan) && status == old(status) &&
                if task.i < |task.route| then
                  state == QuietMissionStep(task).0 && locations == old(locations) + QuietMissionStep(task).1
                else state == Crashed(IndexOutOfRange) && locations == old(locations)
    {
      var id := task.id;
      if |missionChan[id]| > 0 {
        missionChan := missionChan[id := missionChan[id][1..]];
        state := BeginReturnToBase(id);
        return;
      }
      if task.i == |task.route| - 1 {
        if task.missionId.None? {
          return Crashed(NilDereference);
        }
        return OnMission(task);
      }
      var i := task.i + 1;
      if i >= |task.route| {
        return Crashed(IndexOutOfRange);
      }
      locations := locations + [LocationAt(id, task.route[i])];
      state := OnMission(task.(i := i));
    }

    /**
     * One tick of the return loop: a delivered message stops the return
     * and sets PATROL; arrival at the last waypoint sets PATROL and puts
     * every drone with the id on the ground; otherwise the next waypoint is sent.
     */
    method ReturnTick(task: ReturnTask) returns (state: TaskState)
      requires Valid() && 0 <= task.i < |task.route|
      requires task.listens ==> task.id in missionChan
      modifies this
      ensures Valid()
      ensures resources == old(resources) && simu == old(simu)
      ensures var heard := task.listens && |old(missionChan)[task.id]| > 0;
              var (next, sent, arrived) := QuietReturnStep(task);
              if heard then
                missionChan == old(missionChan)[task.id := old(missionChan)[task.id][1..]] &&
                status == old(status)[task.id := Patrol] && drones == old(drones) &&
                locations == old(locations) && state == Done(None)
              else
                missionChan == old(missionChan) && locations == old(locations) + sent &&
                (arrived ==> status == old(status)[task.id := Patrol] && state == Done(None) &&
                             |drones| == |old(drones)| &&
                             forall k :: 0 <= k < |drones| ==>
                               drones[k] == if old(drones)[k].droneId == task.id
                                            then old(drones)[k].(currAltitude := 0.0) else old(drones)[k]) &&
                (!arrived ==> status == old(status) && drones == old(drones) && state == Returning(next))
    {
      var id := task.id;
      if task.listens && |missionChan[id]| > 0 {
        missionChan := missionChan[id := missionChan[id][1..]];
        status := status[id := Patrol];
        return Done(None);
      }
      if task.i == |task.route| - 1 {
        status := status[id := Patrol];
        var before := drones;
        var landed := drones;
        for k := 0 to |landed|
          modifies {}
          invariant |landed| == |before|
          invariant forall j :: 0 <= j < k ==>
                      landed[j] == if before[j].droneId == id then before[j].(currAltitude := 0.0) else before[j]
          invariant forall j :: k <= j < |landed| ==> landed[j] == before[j]
        {
          if landed[k].droneId == id {
            landed := landed[k := landed[k].(currAltitude := 0.0)];
          }
        }
        drones := landed;
        return Done(None);
      }
      var i := task.i + 1;
      locations := locations + [LocationAt(id, task.route[i])];
      state := Returning(task.(i := i));
    }

    /** One tick of simulateResourcePatrol: wrap the index, and send that track point only while patrolling. */
    method PatrolTick(id: string, i: nat) returns (next: nat)
      requires id in simu && |simu[id]| > 0
      modifies this
      ensures resources == old(resources) && drones == old(drones) && status == old(status)
      ensures missionChan == old(missionChan) && simu == old(simu)
      ensures var j := i % |simu[id]|;
              if id in status && status[id] == Patrol then
                next == j + 1 && locations == old(locations) + [LocationAt(id, simu[id][j])]
              else next == j && locations == old(locations)
    {
      var j := i % |simu[id]|;
      next := j;
      if id in status && status[id] == Patrol {
        locations := locations + [LocationAt(id, simu[id][j])];
        next := j + 1;
      }
    }

    /** One tick of simulateBatteryDrop over every drone, in order. */
    method BatteryTick(batteryLife: real)
      requires Valid() && batteryLife > 0.0
      modifies this
      ensures Valid()
      ensures resources == old(resources) && status == old(status) && missionChan == old(missionChan) && simu == old(simu)
      ensures |drones| == |old(drones)| && forall k :: 0 <= k < |drones| ==> drones[k] == ChargeStep(old(drones)[k], batteryLife)
      ensures locations == old(locations) + Teleports(old(drones))
    {
      var charged, sent := ChargeAll(drones, batteryLife);
      forall k | 0 <= k < |drones| ensures 0.0 <= charged[k].battLevel <= 100.0 {
        ChargeStaysInRange(drones[k], batteryLife);
      }
      drones := charged;
      locations := locations + sent;
    }

    /**
     * updateLocations on the oldest message: the first resource with its id
     * takes the position, and the first drone with its id takes the position
     * and the heading from its previous position. Nothing else changes.
     */
    method UpdateLocations(heading: (Point, Point) -> real)
      requires Valid() && |locations| > 0
      modifies this
      ensures Valid()
      ensures var loc := old(locations)[0];
              locations == old(locations)[1..] &&
              resources == MoveResource(old(resources), loc) &&
              drones == MoveDrone(old(drones), loc, heading)
      ensures status == old(status) && missionChan == old(missionChan) && simu == old(simu)
    {
      var loc := locations[0];
      locations := locations[1..];
      resources := MoveResource(resources, loc);
      drones := MoveDrone(drones, loc, heading);
    }
  }

  /** The resources after a location report: the first resource with the id is at the location, the others are unchanged. */
  function MoveResource(resources: seq<Resource>, loc: Location): (moved: seq<Resource>)
    ensures |moved| == |resources|
    ensures var r := FirstResource(resources, loc.id);
            forall k :: 0 <= k < |moved| ==>
              moved[k] == if k == r then MovedResource(resources[k], loc) else resources[k]
    ensures forall k :: 0 <= k < |moved| ==> moved[k].id == resources[k].id
  {
    var r := FirstResource(resources, loc.id);
    if r < |resources| then resources[r := MovedResource(resources[r], loc)] else resources
  }

  /** The drones after a location report: the first drone with the id is moved, the others are unchanged. */
  function MoveDrone(drones: seq<DroneH3D>, loc: Location, heading: (Point, Point) -> real): (moved: seq<DroneH3D>)
    ensures |moved| == |drones|
    ensures var d := FirstDrone(drones, loc.id);
            forall k :: 0 <= k < |moved| ==>
              moved[k] == if k == d then MovedDrone(drones[k], loc, heading) else drones[k]
    ensures forall k :: 0 <= k < |moved| ==> moved[k].battLevel == drones[k].battLevel
  {
    var d := FirstDrone(drones, loc.id);
    if d < |drones| then drones[d := MovedDrone(drones[d], loc, heading)] else drones
  }

  /** A resource at the reported location. */
  function MovedResource(res: Resource, loc: Location): (moved: Resource)
    ensures moved.id == res.id
  {
    res.(latitude := loc.latitude, longitude := loc.longitude)
  }

  /** A drone at the reported location, heading the way it moved from its previous position. */
  function MovedDrone(drone: DroneH3D, loc: Location, heading: (Point, Point) -> real): (moved: DroneH3D)
    ensures moved.battLevel == drone.battLevel && moved.droneId == drone.droneId
  {
    var h := heading(Point(drone.currLat, drone.currLong), Point(loc.latitude, loc.longitude));
    drone.(currHeading := h, currLat := loc.latitude, currLong := loc.longitude)
  }
}
