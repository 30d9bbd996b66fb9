/**
 * The three stores the handlers talk to, reduced to the contracts the
 * handlers rely on (database/postgresql.go, database/redis.go,
 * database/cassandra.go). Each store is an object whose state is a map or a
 * sequence. A call that reaches the real backend may fail; the failure is
 * the `fail` parameter of each call, and a failed call changes nothing.
 */
module Database {
  import opened Wrappers
  import Mpg
  import Mcass
  import Mredis

  /** The driver and passenger tables (PgI). Ids come from a serial counter starting at 1. */
  class Pg {
    var drivers: map<int, Mpg.Driver>
    var passengers: map<int, Mpg.Passenger>
    var nextDriverId: int
    var nextPassengerId: int

    /** Every row sits under its own id, and every id was handed out by the counter. */
    ghost predicate Valid()
      reads this
    {
      && 1 <= nextDriverId
      && 1 <= nextPassengerId
      && (forall id :: id in drivers ==> 1 <= id < nextDriverId && drivers[id].id == id)
      && (forall id :: id in passengers ==> 1 <= id < nextPassengerId && passengers[id].id == id)
    }

    constructor ()
      ensures Valid()
      ensures drivers == map[] && passengers == map[]
      ensures nextDriverId == 1 && nextPassengerId == 1
    {
      drivers, passengers := map[], map[];
      nextDriverId, nextPassengerId := 1, 1;
    }

    /**
     * Inserts a driver row. The store assigns the id, which reaches the
     * caller through the returned row (the Go code writes it back through
     * the pointer it was given).
     */
    method CreateDriver(driver: Mpg.Driver, fail: bool) returns (inserted: Mpg.Driver, err: bool)
      requires Valid()
      modifies this
      ensures Valid()
      ensures err == fail
      ensures err ==> inserted == driver && unchanged(this)
      ensures !err ==> && inserted == driver.(id := old(nextDriverId))
                       && inserted.id !in old(drivers)
                       && drivers == old(drivers)[inserted.id := inserted]
                       && nextDriverId == old(nextDriverId) + 1
      ensures passengers == old(passengers) && nextPassengerId == old(nextPassengerId)
    {
      err := fail;
      inserted := driver;
      if !err {
        inserted := driver.(id := nextDriverId);
        drivers := drivers[nextDriverId := inserted];
        nextDriverId := nextDriverId + 1;
      }
    }

    /** Inserts a passenger row; the store assigns the id, as for drivers. */
    method CreatePassenger(passenger: Mpg.Passenger, fail: bool) returns (inserted: Mpg.Passenger, err: bool)
      requires Valid()
      modifies this
      ensures Valid()
      ensures err == fail
      ensures err ==> inserted == passenger && unchanged(this)
      ensures !err ==> && inserted == passenger.(id := old(nextPassengerId))
                       && inserted.id !in old(passengers)
                       && passengers == old(passengers)[inserted.id := inserted]
                       && nextPassengerId == old(nextPassengerId) + 1
      ensures drivers == old(drivers) && nextDriverId == old(nextDriverId)
    {
      err := fail;
      inserted := passenger;
      if !err {
        inserted := passenger.(id := nextPassengerId);
        passengers := passengers[nextPassengerId := inserted];
        nextPassengerId := nextPassengerId + 1;
      }
    }

    /** `UPDATE drivers SET state = ? WHERE id = ?`: an unknown id updates no row and is no error. */
    method UpdateDriverState(driverId: int, state: string, fail: bool) returns (err: bool)
      requires Valid()
      modifies this`drivers
      ensures Valid()
      ensures err == fail
      ensures err || driverId !in old(drivers) ==> drivers == old(drivers)
      ensures !err && driverId in old(drivers) ==>
                drivers == old(drivers)[driverId := old(drivers)[driverId].(state := state)]
    {
      err := fail;
      if !err && driverId in drivers {
        drivers := drivers[driverId := drivers[driverId].(state := state)];
      }
    }

    /** The driver row with this id, None when there is none; None too when the call fails. */
    method GetDriver(driverId: int, fail: bool) returns (driver: Option<Mpg.Driver>, err: bool)
      requires Valid()
      ensures err == fail
      ensures err ==> driver == None
      ensures !err && driverId in drivers ==> driver == Some(drivers[driverId]) && driver.value.id == driverId
      ensures !err && driverId !in drivers ==> driver == None
    {
      err := fail;
      driver := None;
      if !err && driverId in drivers {
        driver := Some(drivers[driverId]);
      }
    }
  }

  /** A member of the geo set: the coordinates stored under a driver id. */
  datatype GeoPoint = GeoPoint(lat: real, lng: real)

  /** A radius query as it reached the geo index, with the answer it got. */
  datatype GeoQuery = GeoQuery(lat: real, lng: real, radius: real, limit: int, answer: seq<Mredis.DriverLocation>)

  /**
   * An answer the geo index may give to a radius query: members of the set,
   * each at most once, no more than `limit` of them when `limit` is positive.
   */
  predicate NearestAnswer(geo: map<int, GeoPoint>, limit: int, answer: seq<Mredis.DriverLocation>) {
    && (limit > 0 ==> |answer| <= limit)
    && (forall i :: 0 <= i < |answer| ==> answer[i].driverId in geo)
    && (forall i, j :: 0 <= i < j < |answer| ==> answer[i].driverId != answer[j].driverId)
  }

  /**
   * The geo set of drivers (RedisI). Its members are named by the driver id
   * (strconv.Itoa, which is injective), so the set holds at most one entry
   * per driver and is modelled as a map from id to coordinates.
   */
  class Redis {
    var geo: map<int, GeoPoint>
    /** Every radius query issued so far, in order. */
    ghost var queries: seq<GeoQuery>

    constructor ()
      ensures geo == map[] && queries == []
    {
      geo := map[];
      queries := [];
    }

    /** GEOADD: inserts the driver's entry or replaces its coordinates. */
    method PushDriverLocationGeo(driverId: int, lat: real, lng: real, fail: bool) returns (err: bool)
      modifies this`geo
      ensures err == fail
      ensures err ==> geo == old(geo)
      ensures !err ==> geo == old(geo)[driverId := GeoPoint(lat, lng)]
    {
      err := fail;
      if !err {
        geo := geo[driverId := GeoPoint(lat, lng)];
      }
    }

    /** ZREM: deletes the driver's entry; deleting an absent entry is no error. */
    method RemoveDriverLocationGeo(driverId: int, fail: bool) returns (err: bool)
      modifies this`geo
      ensures err == fail
      ensures err ==> geo == old(geo)
      ensures !err ==> geo == old(geo) - {driverId}
    {
      err := fail;
      if !err {
        geo := geo - {driverId};
      }
    }

    /**
     * GEORADIUS: some members near (lat, lng). Which members, in which order,
     * is up to the index; the model only promises what NearestAnswer says.
     */
    method GetNearestDrivers(lat: real, lng: real, radius: real, limit: int, fail: bool)
      returns (drivers: seq<Mredis.DriverLocation>, err: bool)
      modifies this`queries
      ensures err == fail
      ensures err ==> drivers == []
      ensures NearestAnswer(geo, limit, drivers)
      ensures queries == old(queries) + [GeoQuery(lat, lng, radius, limit, drivers)]
    {
      err := fail;
      assert NearestAnswer(geo, limit, []);
      if err {
        drivers := [];
      } else {
        drivers :| NearestAnswer(geo, limit, drivers);
      }
      queries := queries + [GeoQuery(lat, lng, radius, limit, drivers)];
    }
  }

  /** The samples of one driver observed strictly after `from`, in log order. */
  function Window(samples: seq<Mcass.DriverLocation>, driverId: int, from: int): (r: seq<Mcass.DriverLocation>)
    ensures |r| <= |samples|
    ensures forall x :: x in r <==> x in samples && x.driverId == driverId && x.createdAt > from
  {
    if samples == [] then []
    else
      (if samples[0].driverId == driverId && samples[0].createdAt > from then [samples[0]] else [])
      + Window(samples[1..], driverId, from)
  }

  /** Appending a sample extends the window by that sample exactly when it belongs to it. */
  lemma {:induction false} WindowAppend(samples: seq<Mcass.DriverLocation>, x: Mcass.DriverLocation, driverId: int, from: int)
    ensures Window(samples + [x], driverId, from) ==
      Window(samples, driverId, from) + (if x.driverId == driverId && x.createdAt > from then [x] else [])
  {
    if samples != [] {
      assert (samples + [x])[1..] == samples[1..] + [x];
      WindowAppend(samples[1..], x, driverId, from);
    }
  }

  /** Whether the driver has reported a location at least once. */
  predicate Reported(samples: seq<Mcass.DriverLocation>, driverId: int) {
    exists i :: 0 <= i < |samples| && samples[i].driverId == driverId
  }

  /** The append-only location history (CassandraI). */
  class Cassandra {
    var locations: seq<Mcass.DriverLocation>

    constructor ()
      ensures locations == []
    {
      locations := [];
    }

    /** INSERT: appends the sample; the record handed in comes back as it was. */
    method CreateDriverLocation(location: Mcass.DriverLocation, fail: bool)
      returns (stored: Mcass.DriverLocation, err: bool)
      modifies this
      ensures err == fail && stored == location
      ensures err ==> locations == old(locations)
      ensures !err ==> locations == old(locations) + [location]
    {
      err := fail;
      stored := location;
      if !err {
        locations := locations + [location];
      }
    }

    /** `WHERE driver_id = ? AND created_at > ?`: the driver's samples after `from`. */
    method GetDriverHistory(driverId: int, from: int, fail: bool)
      returns (history: seq<Mcass.DriverLocation>, err: bool)
      ensures err == fail
      ensures err ==> history == []
      ensures !err ==> history == Window(locations, driverId, from)
    {
      err := fail;
      history := if err then [] else Window(locations, driverId, from);
    }

    /**
     * `WHERE driver_id = ? LIMIT 1`: one of the driver's samples, or None
     * when the driver has none. Which one is first depends on the table's
     * clustering order, which the model leaves open.
     */
    method GetDriverLatestLocation(driverId: int, fail: bool)
      returns (latest: Option<Mcass.DriverLocation>, err: bool)
      ensures err == fail
      ensures err ==> latest == None
      ensures !err ==> (latest.Some? <==> Reported(locations, driverId))
      ensures latest.Some? ==> latest.value in locations && latest.value.driverId == driverId
    {
      err := fail;
      latest := None;
      if !err && Reported(locations, driverId) {
        var i :| 0 <= i < |locations| && locations[i].driverId == driverId;
        latest := Some(locations[i]);
      }
    }
  }
}
