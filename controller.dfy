/**
 * The route-request handler of controller/emulator-controller.go: the
 * required query parameters and the order they are checked in, the
 * travel-time and clearance rule of getRouteDetails, the route summary it
 * answers with, and handleErrors' classification of service errors into
 * HTTP statuses. An echo request is reduced to its query parameters; the
 * service calls and the clock are parameters.
 */
module Controller {
  import opened Wrappers
  import opened Segments
  import Text
  import ClearanceCheck
  import Routes
  import DroneRecords
  import EmulatorData
  import Emulator

  // ------------------------------------------------------------ statuses

  const StatusOK := 200
  const StatusBadRequest := 400
  const StatusInternalServerError := 500

  /** The route summary; the departure and arrival times are whole Unix seconds, as in ClearanceCheck.ClearanceZone. */
  datatype RouteSummary = RouteSummary(
    lengthInMeters: int,
    travelTimeInSeconds: int,
    departureTime: int,
    arrivalTime: int,
    clearanceRequired: bool,
    remainingOperationTimeAtLocation: int,
    clearanceZones: seq<ClearanceCheck.ClearanceZone>)

  /** The JSON body: an error text, or the route (its one leg repeats the summary and carries the points). */
  datatype Body = Message(text: string) | Route(summary: RouteSummary, points: seq<Routes.Waypoint>)

  /** What the handler does with the request: a JSON reply, or a panic of the Go code it calls. */
  datatype Reply = Json(status: int, body: Body) | Panic(reason: string)

  // ------------------------------------------------------------ bindParam*

  /** The query string of the request, parameter name to value. */
  type Query = map<string, string>

  /** c.QueryParam(name): the value, or "" when the parameter is absent. */
  function QueryParam(q: Query, name: string): string
  {
    if name in q then q[name] else ""
  }

  predicate Present(q: Query, name: string)
  {
    name in q && q[name] != ""
  }

  /** The error each binder returns; every one but computeBestOrder's reuses bindDroneIdParam's text. */
  function BindError(name: string): string
  {
    if name == "computeBestOrder" then "error in computeBestOrder" else "error in bindDroneIdParam"
  }

  /** bindParamQuery, bindParamRouteType, ...: the parameter's value when it is non-empty, else the binder's error. */
  function BindParam(q: Query, name: string): (r: Result<string, string>)
    ensures r.Success? <==> Present(q, name)
    ensures r.Success? ==> r.value == q[name]
    ensures r.Failure? ==> r.error == BindError(name)
  {
    var value := QueryParam(q, name);
    if value != "" then Success(value) else Failure(BindError(name))
  }

  /** Setting a parameter to a non-empty value makes it bind to that value; removing it makes it fail. */
  lemma BindParamRoundTrip(q: Query, name: string, v: string)
    requires v != ""
    ensures BindParam(q[name := v], name) == Success(v)
    ensures BindParam(q - {name}, name) == Failure(BindError(name))
  {
  }

  /**
   * bindParamResourceId as written: it checks that resourceId is non-empty
   * but returns the value of the "query" parameter.
   */
  function BindParamResourceIdAsWritten(q: Query): (r: Result<string, string>)
    ensures r.Success? <==> Present(q, "resourceId")
    ensures r.Success? ==> r.value == QueryParam(q, "query")
    ensures r.Failure? ==> r.error == BindError("resourceId")
  {
    var resourceId := QueryParam(q, "resourceId");
    if resourceId != "" then Success(QueryParam(q, "query")) else Failure(BindError("resourceId"))
  }

  /** A request naming drone-1 binds the coordinate query as its resource id. */
  lemma ResourceIdBinderReturnsQuery()
    ensures var q := map["query" := "48.85,2.35:48.86,2.29", "resourceId" := "drone-1"];
            BindParamResourceIdAsWritten(q) == Success("48.85,2.35:48.86,2.29") &&
            BindParam(q, "resourceId") == Success("drone-1")
  {
    var q := map["query" := "48.85,2.35:48.86,2.29", "resourceId" := "drone-1"];
    assert QueryParam(q, "query") == "48.85,2.35:48.86,2.29";
    assert QueryParam(q, "resourceId") == "drone-1";
  }

  /**
   * The consequence of the as-written binder: unless some drone's id is the
   * coordinate query itself, the remaining-time lookup for the request indexes
   * drones[-1] and panics, whatever drone the request named.
   */
  lemma AsWrittenRemainingTimePanics(drones: seq<DroneRecords.DroneH3D>, q: Query, t: real, batteryLife: real)
    requires batteryLife > 0.0 && Present(q, "resourceId")
    requires forall k :: 0 <= k < |drones| ==> drones[k].droneId != QueryParam(q, "query")
    ensures var id := BindParamResourceIdAsWritten(q).value;
            EmulatorData.GetRemainingOperationTimeAtLocation(drones, id, t, batteryLife) ==
            Failure(EmulatorData.IndexOutOfRange)
  {
    var id := BindParamResourceIdAsWritten(q).value;
    assert EmulatorData.CheckIndex(drones, id) == -1;
  }

  // ------------------------------------------------------------ required parameters

  /** The parameters getRouteDetails binds, in the order it binds them. */
  const RouteParamNames: seq<string> :=
    ["query", "routeType", "resourceId", "travelMode", "computeBestOrder", "routeRepresentation"]

  datatype RouteParams = RouteParams(query: string, routeType: string, resourceId: string,
                                     travelMode: string, computeBestOrder: string, routeRepresentation: string)

  /** The position of the first absent or empty name, or |names| when all are present. */
  function FirstMissing(q: Query, names: seq<string>): (k: nat)
    ensures k <= |names|
    ensures forall j :: 0 <= j < k ==> Present(q, names[j])
    ensures k < |names| ==> !Present(q, names[k])
  {
    if |names| == 0 then 0
    else if !Present(q, names[0]) then 0
    else 1 + FirstMissing(q, names[1..])
  }

  /**
   * The six binds at the head of getRouteDetails: the first parameter that is
   * absent or empty answers with its binder's error; with all six present the
   * request goes on with their values (resourceId bound by its own name).
   */
  function ValidateRouteQuery(q: Query): (r: Result<RouteParams, string>)
    ensures var k := FirstMissing(q, RouteParamNames);
            (r.Failure? <==> k < |RouteParamNames|) &&
            (r.Failure? ==> r.error == BindError(RouteParamNames[k]))
    ensures r.Success? ==>
              r.value == RouteParams(QueryParam(q, "query"), QueryParam(q, "routeType"), QueryParam(q, "resourceId"),
                                     QueryParam(q, "travelMode"), QueryParam(q, "computeBestOrder"),
                                     QueryParam(q, "routeRepresentation"))
  {
    var k := FirstMissing(q, RouteParamNames);
    assert RouteParamNames[0] == "query" && RouteParamNames[1] == "routeType" && RouteParamNames[2] == "resourceId";
    assert RouteParamNames[3] == "travelMode" && RouteParamNames[4] == "computeBestOrder";
    assert RouteParamNames[5] == "routeRepresentation";
    var query := BindParam(q, "query");
    if query.Failure? then Failure(query.error) else
    var routeType := BindParam(q, "routeType");
    if routeType.Failure? then Failure(routeType.error) else
    var resourceId := BindParam(q, "resourceId");
    if resourceId.Failure? then Failure(resourceId.error) else
    var travelMode := BindParam(q, "travelMode");
    if travelMode.Failure? then Failure(travelMode.error) else
    var computeBestOrder := BindParam(q, "computeBestOrder");
    if computeBestOrder.Failure? then Failure(computeBestOrder.error) else
    var routeRepresentation := BindParam(q, "routeRepresentation");
    if routeRepresentation.Failure? then Failure(routeRepresentation.error) else
    Success(RouteParams(query.value, routeType.value, resourceId.value,
                        travelMode.value, computeBestOrder.value, routeRepresentation.value))
  }

  /** A request that lacks only its last parameter still fails, and on that parameter. */
  lemma MissingRepresentationRefused(q: Query)
    requires forall k :: 0 <= k < 5 ==> Present(q, RouteParamNames[k])
    requires !Present(q, "routeRepresentation")
    ensures ValidateRouteQuery(q) == Failure("error in bindDroneIdParam")
  {
    assert RouteParamNames[5] == "routeRepresentation";
  }

  // ------------------------------------------------------------ travel time

  /** The fixed speed of calculateTime, in metres per second. */
  const Speed: real := 1.0

  /** calculateTime: the seconds to cover the distance at Speed. */
  function CalculateTime(distance: real): (time: real)
    ensures time * Speed == distance
  {
    distance / Speed
  }

  /** The two settings of the application configuration the route answer uses, in seconds, and the battery life in minutes. */
  datatype Config = Config(dispatchTime: int, clearanceTime: int, batteryLife: real)

  datatype Schedule = Schedule(travelTimeInSeconds: real, clearanceRequired: bool)

  /**
   * The travel-time rule of getRouteDetails: flying time plus the dispatch
   * time, plus the clearance time when the path crossed a restricted zone,
   * which is also exactly when clearance is required.
   */
  function TravelSchedule(distance: real, crossed: seq<ClearanceCheck.ClearanceZone>, config: Config): (s: Schedule)
    ensures s.clearanceRequired <==> |crossed| > 0
    ensures s.travelTimeInSeconds * Speed ==
            distance + (config.dispatchTime + (if |crossed| > 0 then config.clearanceTime else 0)) as real * Speed
  {
    var travelTimeInSeconds := CalculateTime(distance);
    if |crossed| > 0 then
      Schedule(travelTimeInSeconds + (config.clearanceTime + config.dispatchTime) as real, true)
    else
      Schedule(travelTimeInSeconds + config.dispatchTime as real, false)
  }

  /** Crossing a zone costs exactly the clearance time over the same flight without one; a longer flight never takes less time. */
  lemma ClearanceCostsClearanceTime(d: real, e: real, crossed: seq<ClearanceCheck.ClearanceZone>, config: Config)
    requires |crossed| > 0 && d <= e
    ensures TravelSchedule(d, crossed, config).travelTimeInSeconds ==
            TravelSchedule(d, [], config).travelTimeInSeconds + config.clearanceTime as real
    ensures TravelSchedule(d, crossed, config).travelTimeInSeconds <= TravelSchedule(e, crossed, config).travelTimeInSeconds
    ensures TravelSchedule(d, [], config).travelTimeInSeconds <= TravelSchedule(e, [], config).travelTimeInSeconds
  {
  }

  /**
   * The crossed list a route answer is given is the whole package-level
   * log of ClearanceCheck.ClearanceLog, which only grows: once any route
   * has crossed a zone, every later answer requires clearance and pays the
   * clearance time, whatever its own path.
   */
  lemma ClearanceIsSticky(earlier: seq<ClearanceCheck.ClearanceZone>, added: seq<ClearanceCheck.ClearanceZone>,
                          distance: real, config: Config)
    requires |earlier| > 0
    ensures TravelSchedule(distance, earlier + added, config).clearanceRequired
    ensures TravelSchedule(distance, earlier + added, config).travelTimeInSeconds ==
            TravelSchedule(distance, [], config).travelTimeInSeconds + config.clearanceTime as real
  {
    ClearanceCostsClearanceTime(distance, distance, earlier + added, config);
  }

  /** startTime.Add(time.Duration(seconds) * time.Second): the whole seconds of the travel time, truncated toward zero, after the start. */
  function EndTime(startTime: int, travelTimeInSeconds: real): (endTime: int)
    ensures (endTime - startTime) % ClearanceCheck.NanosPerSecond == 0
    ensures travelTimeInSeconds >= 0.0 ==>
              var seconds := (endTime - startTime) / ClearanceCheck.NanosPerSecond;
              0 <= seconds && seconds as real <= travelTimeInSeconds < seconds as real + 1.0
  {
    startTime + ClearanceCheck.TruncToInt(travelTimeInSeconds) * ClearanceCheck.NanosPerSecond
  }

  // ------------------------------------------------------------ getRouteDetails

  /** What service.GetPath answers for a query: the distance in metres and the zones crossed, an error, or a panic. */
  datatype PathOutcome = Path(distance: real, crossed: seq<ClearanceCheck.ClearanceZone>)
                       | PathError(err: string)
                       | PathPanic(reason: string)

  /** The number of waypoints of the route answer. */
  const NumWaypoints := 10

  /** The waypoints of the answer: NumWaypoints points from source to destination timed over [startTime, endTime]. */
  function RouteWaypoints(source: Point, destination: Point, startTime: int, endTime: int): (points: seq<Routes.Waypoint>)
    ensures |points| == NumWaypoints
    ensures forall i :: 0 <= i < NumWaypoints ==>
              points[i] == Routes.WaypointAt(source, destination, startTime, endTime, NumWaypoints, i)
  {
    seq(NumWaypoints, i requires 0 <= i < NumWaypoints =>
          Routes.WaypointAt(source, destination, startTime, endTime, NumWaypoints, i))
  }

  /**
   * getRouteDetails after the binds: ask the path service, add up the
   * schedule, read source and destination from the query, time the
   * waypoints, and look up the remaining battery time of the resource.
   */
  function RouteAnswer(params: RouteParams, getPath: string -> PathOutcome, parseFloat: string -> Option<real>,
                       drones: seq<DroneRecords.DroneH3D>, config: Config, startTime: int): (reply: Reply)
    requires config.batteryLife > 0.0
    ensures getPath(params.query).PathError? ==> reply == HandleErrors("getRouteDetails", getPath(params.query).err)
    ensures getPath(params.query).PathPanic? ==> reply == Panic(getPath(params.query).reason)
    ensures getPath(params.query).Path? && Routes.GetSourceDestinationPoints(params.query, parseFloat).Failure? ==>
              reply == Panic(Routes.GetSourceDestinationPoints(params.query, parseFloat).error)
    ensures getPath(params.query).Path? && Routes.GetSourceDestinationPoints(params.query, parseFloat).Success? ==>
              (reply.Json? && reply.status == StatusOK <==> EmulatorData.CheckIndex(drones, params.resourceId) >= 0) &&
              (EmulatorData.CheckIndex(drones, params.resourceId) < 0 ==> reply == Panic(EmulatorData.IndexOutOfRange))
    ensures reply.Json? && reply.status == StatusOK ==>
              getPath(params.query).Path? && EmulatorData.CheckIndex(drones, params.resourceId) >= 0 &&
              var path := getPath(params.query);
              var s := TravelSchedule(path.distance, path.crossed, config);
              reply.body.Route? &&
              var summary := reply.body.summary;
              summary.lengthInMeters == ClearanceCheck.TruncToInt(path.distance) &&
              summary.travelTimeInSeconds == ClearanceCheck.TruncToInt(s.travelTimeInSeconds) &&
              summary.remainingOperationTimeAtLocation ==
                ClearanceCheck.TruncToInt(EmulatorData.GetRemainingOperationTimeAtLocation(
                  drones, params.resourceId, s.travelTimeInSeconds, config.batteryLife).value)
    ensures reply.Json? && reply.status == StatusOK ==>
              getPath(params.query).Path? && reply.body.Route? &&
              Routes.GetSourceDestinationPoints(params.query, parseFloat).Success? &&
              var path := getPath(params.query);
              var s := TravelSchedule(path.distance, path.crossed, config);
              var summary := reply.body.summary;
              summary.clearanceRequired == (|path.crossed| > 0) &&
              summary.clearanceZones == path.crossed &&
              summary.departureTime == ClearanceCheck.WholeSeconds(startTime) &&
              summary.arrivalTime == ClearanceCheck.WholeSeconds(EndTime(startTime, s.travelTimeInSeconds)) &&
              reply.body.points ==
                RouteWaypoints(Routes.GetSourceDestinationPoints(params.query, parseFloat).value.0,
                               Routes.GetSourceDestinationPoints(params.query, parseFloat).value.1,
                               startTime, EndTime(startTime, s.travelTimeInSeconds))
  {
    match getPath(params.query)
    case PathError(err) => HandleErrors("getRouteDetails", err)
    case PathPanic(reason) => Panic(reason)
    case Path(distance, crossed) =>
      var schedule := TravelSchedule(distance, crossed, config);
      var endTime := EndTime(startTime, schedule.travelTimeInSeconds);
      var points := Routes.GetSourceDestinationPoints(params.query, parseFloat);
      if points.Failure? then Panic(points.error)
      else
        var (source, destination) := points.value;
        var waypoints := RouteWaypoints(source, destination, startTime, endTime);
        var remaining := EmulatorData.GetRemainingOperationTimeAtLocation(
                           drones, params.resourceId, schedule.travelTimeInSeconds, config.batteryLife);
        if remaining.Failure? then Panic(remaining.error)
        else
          var summary := RouteSummary(
            ClearanceCheck.TruncToInt(distance),
            ClearanceCheck.TruncToInt(schedule.travelTimeInSeconds),
            ClearanceCheck.WholeSeconds(startTime),
            ClearanceCheck.WholeSeconds(endTime),
            schedule.clearanceRequired,
            ClearanceCheck.TruncToInt(remaining.value),
            crossed);
          Json(StatusOK, Route(summary, waypoints))
  }

  /** getRouteDetails: a missing parameter is a 400 with its binder's error; otherwise the route answer. */
  function GetRouteDetails(q: Query, getPath: string -> PathOutcome, parseFloat: string -> Option<real>,
                           drones: seq<DroneRecords.DroneH3D>, config: Config, startTime: int): (reply: Reply)
    requires config.batteryLife > 0.0
    ensures ValidateRouteQuery(q).Failure? ==>
              reply == Json(StatusBadRequest, Message(ValidateRouteQuery(q).error))
    ensures ValidateRouteQuery(q).Success? ==>
              reply == RouteAnswer(ValidateRouteQuery(q).value, getPath, parseFloat, drones, config, startTime)
  {
    var params := ValidateRouteQuery(q);
    if params.Failure? then Json(StatusBadRequest, Message(params.error))
    else RouteAnswer(params.value, getPath, parseFloat, drones, config, startTime)
  }

  /** A request with a missing parameter is refused before any service is consulted: the path service and the drones do not matter. */
  lemma RefusalPrecedesServiceCalls(q: Query, getPath: string -> PathOutcome, otherPath: string -> PathOutcome,
                                    parseFloat: string -> Option<real>, drones: seq<DroneRecords.DroneH3D>,
                                    otherDrones: seq<DroneRecords.DroneH3D>, config: Config, startTime: int)
    requires config.batteryLife > 0.0
    requires exists k :: 0 <= k < |RouteParamNames| && !Present(q, RouteParamNames[k])
    ensures GetRouteDetails(q, getPath, parseFloat, drones, config, startTime) ==
            GetRouteDetails(q, otherPath, parseFloat, otherDrones, config, startTime)
    ensures GetRouteDetails(q, getPath, parseFloat, drones, config, startTime).status == StatusBadRequest
  {
    var k :| 0 <= k < |RouteParamNames| && !Present(q, RouteParamNames[k]);
    assert FirstMissing(q, RouteParamNames) <= k;
  }

  /**
   * A successful answer describes the trip: it starts at the source at the
   * start time, ends at the destination before the reported arrival second is over,
   * and its waypoint times never go back.
   */
  lemma AnsweredRouteSpansTrip(params: RouteParams, getPath: string -> PathOutcome, parseFloat: string -> Option<real>,
                               drones: seq<DroneRecords.DroneH3D>, config: Config, startTime: int, i: int, j: int)
    requires config.batteryLife > 0.0
    requires getPath(params.query).Path? && getPath(params.query).distance >= 0.0
    requires config.dispatchTime >= 0 && config.clearanceTime >= 0
    requires 0 <= i <= j < NumWaypoints
    requires var reply := RouteAnswer(params, getPath, parseFloat, drones, config, startTime);
             reply.Json? && reply.status == StatusOK
    ensures var reply := RouteAnswer(params, getPath, parseFloat, drones, config, startTime);
            var (source, destination) := Routes.GetSourceDestinationPoints(params.query, parseFloat).value;
            var points := reply.body.points;
            points[0].point == source && points[0].time == startTime &&
            points[NumWaypoints - 1].point == destination &&
            startTime <= points[NumWaypoints - 1].time < (reply.body.summary.arrivalTime + 1) * ClearanceCheck.NanosPerSecond &&
            points[i].time <= points[j].time
  {
    var reply := RouteAnswer(params, getPath, parseFloat, drones, config, startTime);
    var (source, destination) := Routes.GetSourceDestinationPoints(params.query, parseFloat).value;
    var path := getPath(params.query);
    var s := TravelSchedule(path.distance, path.crossed, config);
    var endTime := EndTime(startTime, s.travelTimeInSeconds);
    assert s.travelTimeInSeconds >= 0.0;
    assert startTime <= endTime;
    Routes.WaypointEnds(source, destination, startTime, endTime, NumWaypoints);
    Routes.WaypointTimes(source, destination, startTime, endTime, NumWaypoints, i, j);
    Routes.WaypointTimes(source, destination, startTime, endTime, NumWaypoints, 0, NumWaypoints - 1);
  }

  /**
   * The remaining time an answered route reports is the drone's current
   * charge, in seconds of flight, less the whole travel time (dispatch and
   * clearance included), truncated.
   */
  lemma AnsweredRemainingTime(params: RouteParams, getPath: string -> PathOutcome, parseFloat: string -> Option<real>,
                              drones: seq<DroneRecords.DroneH3D>, config: Config, startTime: int)
    requires config.batteryLife > 0.0
    requires var reply := RouteAnswer(params, getPath, parseFloat, drones, config, startTime);
             reply.Json? && reply.status == StatusOK
    ensures var reply := RouteAnswer(params, getPath, parseFloat, drones, config, startTime);
            var path := getPath(params.query);
            var s := TravelSchedule(path.distance, path.crossed, config);
            var drone := drones[EmulatorData.CheckIndex(drones, params.resourceId)];
            reply.body.summary.remainingOperationTimeAtLocation ==
              ClearanceCheck.TruncToInt(EmulatorData.ChargeSeconds(drone, config.batteryLife) - s.travelTimeInSeconds)
  {
    var path := getPath(params.query);
    var s := TravelSchedule(path.distance, path.crossed, config);
    EmulatorData.RemainingTimeIsChargeLessTrip(drones, params.resourceId, s.travelTimeInSeconds,
                                              s.travelTimeInSeconds, config.batteryLife);
  }

  // ------------------------------------------------------------ handleErrors

  const UnknownId := "Unknown id"
  const ValueTooLong := "Value too long for type"
  const NetworkUnreachable := "connect: network is unreachable"
  const DroneConnectionFailed := "connection to Drone has failed: network is unreachable"

  /**
   * handleErrors: an unknown id or an over-long value is the caller's fault
   * (400, the error's own text); an unreachable network is a 500 with a
   * fixed text; anything else is a 500 naming only the handler.
   */
  function HandleErrors(id: string, err: string): (reply: Reply)
    ensures reply.Json? && (reply.status == StatusBadRequest || reply.status == StatusInternalServerError)
    ensures reply.status == StatusBadRequest <==> Text.Contains(err, UnknownId) || Text.Contains(err, ValueTooLong)
    ensures reply.status == StatusBadRequest ==> reply.body == Message(err)
    ensures reply.status == StatusInternalServerError && Text.Contains(err, NetworkUnreachable) ==>
              reply.body == Message(DroneConnectionFailed)
    ensures reply.status == StatusInternalServerError && !Text.Contains(err, NetworkUnreachable) ==>
              reply.body == Message("Error during request: " + id)
  {
    if Text.Contains(err, UnknownId) || Text.Contains(err, ValueTooLong) then
      Json(StatusBadRequest, Message(err))
    else if Text.Contains(err, NetworkUnreachable) then
      Json(StatusInternalServerError, Message(DroneConnectionFailed))
    else
      Json(StatusInternalServerError, Message("Error during request: " + id))
  }

  /** A string without some character of `sub` cannot contain `sub`. */
  lemma MissingCharNotContained(s: string, sub: string, c: char)
    requires c in sub && c !in s
    ensures !Text.Contains(s, sub)
  {
  }

  /** An error text that starts with "Unknown id" is answered 400 with that very text. */
  lemma UnknownIdIsBadRequest(id: string, detail: string)
    ensures HandleErrors(id, UnknownId + detail) == Json(StatusBadRequest, Message(UnknownId + detail))
  {
    assert Text.OccursAt(UnknownId + detail, UnknownId, 0);
  }

  /** A network failure hides the underlying text behind the fixed message, whatever surrounds it. */
  lemma UnreachableNetworkHidesDetail(id: string, before: string, after: string)
    requires var err := before + NetworkUnreachable + after;
             !Text.Contains(err, UnknownId) && !Text.Contains(err, ValueTooLong)
    ensures HandleErrors(id, before + NetworkUnreachable + after) ==
            Json(StatusInternalServerError, Message(DroneConnectionFailed))
  {
    var err := before + NetworkUnreachable + after;
    assert err[|before|..|before| + |NetworkUnreachable|] == NetworkUnreachable;
    assert Text.OccursAt(err, NetworkUnreachable, |before|);
  }

  /** An error text without 'U', 'V' or ':' matches none of the phrases: a 500 naming only the handler. */
  lemma PlainErrorIsInternalError(id: string, err: string)
    requires 'U' !in err && 'V' !in err && ':' !in err
    ensures HandleErrors(id, err) == Json(StatusInternalServerError, Message("Error during request: " + id))
  {
    MissingCharNotContained(err, UnknownId, 'U');
    MissingCharNotContained(err, ValueTooLong, 'V');
    MissingCharNotContained(err, NetworkUnreachable, ':');
  }

  /**
   * StartResourceMission's and StopResourceMission's "resource not found"
   * matches none of the phrases, so an unknown resource is answered 500
   * "Error during request: " and the handler's name, not 400.
   */
  lemma UnknownResourceIsInternalError(id: string, err: string)
    requires err == Emulator.ResourceNotFound
    ensures HandleErrors(id, err) == Json(StatusInternalServerError, Message("Error during request: " + id))
  {
    assert 'U' !in err && 'V' !in err && ':' !in err;
    PlainErrorIsInternalError(id, err);
  }
}
