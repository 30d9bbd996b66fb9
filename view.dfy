/**
 * Response rows (app/view/view.go). Both populate functions allocate a
 * result of the input's length and fill it index by index, so the response
 * keeps the length and the order of the store rows it was built from. The
 * inputs are sequence values, which the functions cannot change.
 */
module View {
  import Mcass
  import Mredis

  datatype Location = Location(lat: real, lng: real)

  /** view.User: the id of a new driver or passenger. */
  datatype User = User(id: int)

  /** view.DriverLocation: a driver id with its coordinates. */
  datatype DriverLocation = DriverLocation(id: int, location: Location)

  /** view.DriverHistory: a sample's time in Unix seconds with its coordinates. */
  datatype DriverHistory = DriverHistory(timestamp: int, location: Location)

  /** One response row per geo row, in the same order, carrying its id and coordinates. */
  method PopulateDriverRequests(drivers: seq<Mredis.DriverLocation>) returns (res: array<DriverLocation>)
    ensures res.Length == |drivers|
    ensures forall i :: 0 <= i < |drivers| ==>
              res[i].id == drivers[i].driverId && res[i].location == Location(drivers[i].lat, drivers[i].lng)
  {
    res := new DriverLocation[|drivers|];
    for i := 0 to |drivers|
      invariant forall k :: 0 <= k < i ==>
                  res[k].id == drivers[k].driverId && res[k].location == Location(drivers[k].lat, drivers[k].lng)
    {
      res[i] := DriverLocation(drivers[i].driverId, Location(drivers[i].lat, drivers[i].lng));
    }
  }

  /** One response row per history sample, in the same order, with its time and coordinates. */
  method PopulateDriverHistory(driverLocations: seq<Mcass.DriverLocation>) returns (resp: array<DriverHistory>)
    ensures resp.Length == |driverLocations|
    ensures forall i :: 0 <= i < |driverLocations| ==>
              && resp[i].timestamp == driverLocations[i].createdAt
              && resp[i].location == Location(driverLocations[i].lat, driverLocations[i].lng)
  {
    resp := new DriverHistory[|driverLocations|];
    for i := 0 to |driverLocations|
      invariant forall k :: 0 <= k < i ==>
                  && resp[k].timestamp == driverLocations[k].createdAt
                  && resp[k].location == Location(driverLocations[k].lat, driverLocations[k].lng)
    {
      resp[i] := DriverHistory(driverLocations[i].createdAt, Location(driverLocations[i].lat, driverLocations[i].lng));
    }
  }
}
