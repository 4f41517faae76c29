/**
 * models/drone-h3d.go: the emulator's drone record and the mapping that
 * turns a list of drones into the H3D listing records.
 */
module DroneRecords {
  import opened Wrappers
  import Text

  /** The mission block of a drone record: a list of [lat, lon] pairs and a name. */
  datatype DroneMission = DroneMission(waypoints: seq<seq<real>>, missionName: string)

  /** models.DroneH3D, without the free-form textualStatus map. */
  datatype DroneH3D = DroneH3D(
    droneId: string, droneName: string, createdBy: string, dbxId: string, company: string, serialNo: string,
    currLat: real, currLong: real, currAltitude: real, currHeading: real, distanceFromHome: real,
    gpsStatus: int, homeLat: real, homeLong: real, networkType: string, battLevel: real,
    signalStrength: string, errorCode: int, mission: DroneMission, temperature: string, timestampMs: int)

  /** models.DroneH3DResponse with its one-field wrappers ($oid, $date) flattened. */
  datatype DroneH3DResponse = DroneH3DResponse(
    droneOid: string, droneName: string, cameraId: string, createBy: string,
    dbxOid: string, status: string, company: string, createAtDate: int)

  /** The record built for one drone. */
  function ResponseOf(drone: DroneH3D): DroneH3DResponse
  {
    DroneH3DResponse(drone.droneId, drone.droneName, drone.serialNo, drone.createdBy,
                     drone.dbxId, Text.Itoa(drone.gpsStatus), drone.company, drone.timestampMs)
  }

  /** TransformDroneH3dFromDrone: one record per drone, appended in input order. */
  function TransformDroneH3dFromDrone(drones: seq<DroneH3D>): (responses: seq<DroneH3DResponse>)
    ensures |responses| == |drones|
    ensures forall i :: 0 <= i < |drones| ==> responses[i] == ResponseOf(drones[i])
  {
    if |drones| == 0 then []
    else TransformDroneH3dFromDrone(drones[..|drones| - 1]) + [ResponseOf(drones[|drones| - 1])]
  }

  /**
   * Each record carries its drone's identity fields under the listing's
   * names, the GPS status as a decimal string that reads back to the number,
   * and the timestamp as the creation date.
   */
  lemma TransformFields(drones: seq<DroneH3D>, i: int)
    requires 0 <= i < |drones|
    ensures var r := TransformDroneH3dFromDrone(drones)[i];
            var d := drones[i];
            r.droneOid == d.droneId && r.dbxOid == d.dbxId && r.cameraId == d.serialNo &&
            r.createBy == d.createdBy && r.droneName == d.droneName && r.company == d.company &&
            r.createAtDate == d.timestampMs &&
            Text.ParseDecimal(r.status) == Some(d.gpsStatus)
  {
    Text.ItoaRoundTrip(drones[i].gpsStatus);
  }

  /** Two drones with different GPS statuses never share a status string. */
  lemma StatusDistinguishes(a: DroneH3D, b: DroneH3D)
    requires a.gpsStatus != b.gpsStatus
    ensures ResponseOf(a).status != ResponseOf(b).status
  {
    if ResponseOf(a).status == ResponseOf(b).status {
      Text.ItoaInjective(a.gpsStatus, b.gpsStatus);
    }
  }
}
