/** Rows of the driver table (model/mpg/postgresql.go). */
module Mpg {

  /** The two recognised driver states (model/mpg/postgresql.go and model/model.go agree on them). */
  const StateAvailable: string := "available"
  const StateBusy: string := "busy"

  /** A row of table drivers. The store assigns `id`; `state` is "" until the first state update. */
  datatype Driver = Driver(id: int, name: string, state: string)

  /** A row of table passengers. */
  datatype Passenger = Passenger(id: int, name: string)
}

/** Rows of the location history (model/mcass/cassandra.go). */
module Mcass {

  /** One location sample; `createdAt` is in Unix seconds. */
  datatype DriverLocation = DriverLocation(driverId: int, lat: real, lng: real, createdAt: int)
}

/** Rows returned by a radius query on the geo index. */
module Mredis {

  datatype DriverLocation = DriverLocation(driverId: int, lat: real, lng: real)
}
