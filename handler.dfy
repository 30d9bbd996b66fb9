/**
 * The HTTP handlers (app/handler/handler.go). A Handler holds the three
 * stores; each handler runs a fixed sequence of store calls and stops at the
 * first failure with a response. Request bodies arrive already bound; the
 * `:id` path parameter arrives as text. Whether each store call fails is
 * given by a Faults record, and the clock by a `now` parameter (Unix
 * seconds). A failure answered with InternalServerError is the panic that
 * util.RespInternalServerError raises after writing the 500 response.
 */
module Handler {
  import opened Wrappers
  import Mpg
  import Mcass
  import Mredis
  import Form
  import View
  import Strconv
  import opened Database

  /** Which store calls of one request fail. */
  datatype Faults = Faults(
    pgInsert: bool,
    pgGet: bool,
    pgUpdate: bool,
    geoPush: bool,
    geoRemove: bool,
    geoQuery: bool,
    historyAppend: bool,
    historyQuery: bool,
    historyLatest: bool)

  datatype Body =
    | UserBody(user: View.User)
    | DriverListBody(drivers: seq<View.DriverLocation>)
    | DriverLocationBody(driver: View.DriverLocation)
    | HistoryBody(history: seq<View.DriverHistory>)
    | EmptyBody

  datatype Response = Ok(body: Body) | BadRequest(message: string) | NotFound | InternalServerError

  /** The outcome of resolving the `:id` parameter to a driver row. */
  datatype Lookup = Found(driver: Mpg.Driver) | Failed(resp: Response)

  /** The ride-request query: 5 km, at most 5 drivers, asked once. */
  const DefaultRadius: real := 5.0
  const NumberOfTop: int := 5

  /** The history window: the last 30 minutes, in seconds. */
  const HistoryWindow: int := 30 * 60

  class Handler {
    const pg: Pg
    const cass: Cassandra
    const redis: Redis

    ghost predicate Valid()
      reads this, pg
    {
      pg.Valid()
    }

    /** NewEngine: a handler over the three given stores. */
    constructor (pg: Pg, cass: Cassandra, redis: Redis)
      requires pg.Valid()
      ensures Valid()
      ensures this.pg == pg && this.cass == cass && this.redis == redis
    {
      this.pg := pg;
      this.cass := cass;
      this.redis := redis;
    }

    /**
     * What the id-taking handlers make of `:id`: text that is not an integer
     * is NotFound, a failing lookup is InternalServerError, an id with no
     * row is NotFound, and otherwise the row under that id.
     */
    ghost function Resolve(idParam: string, fail: bool): (r: Lookup)
      requires Valid()
      reads this, pg
      ensures r.Found? <==>
        Strconv.Atoi(idParam).Some? && !fail && Strconv.Atoi(idParam).value in pg.drivers
      ensures r.Found? ==>
        r.driver == pg.drivers[Strconv.Atoi(idParam).value] && r.driver.id == Strconv.Atoi(idParam).value
      ensures r.Failed? ==>
        r.resp == (if Strconv.Atoi(idParam).Some? && fail then InternalServerError else NotFound)
    {
      match Strconv.Atoi(idParam)
      case None => Failed(NotFound)
      case Some(id) =>
        if fail then Failed(InternalServerError)
        else if id in pg.drivers then Found(pg.drivers[id])
        else Failed(NotFound)
    }

    /** The lookup the three id-taking handlers share: parse, then GetDriver. No store is written. */
    method LookupDriver(idParam: string, fail: bool) returns (r: Lookup)
      requires Valid()
      ensures r == Resolve(idParam, fail)
    {
      var driverId := Strconv.Atoi(idParam);
      if driverId.None? {
        return Failed(NotFound);
      }
      var driver, err := pg.GetDriver(driverId.value, fail);
      if err {
        return Failed(InternalServerError);
      }
      if driver.None? {
        return Failed(NotFound);
      }
      return Found(driver.value);
    }

    /** Sign-up of a passenger: validate the name, insert one row, answer with its new id. */
    method CreatePassenger(input: Form.Passenger, f: Faults) returns (resp: Response)
      requires Valid()
      modifies pg
      ensures Valid()
      ensures Form.ValidatePassenger(input).Some? ==>
                resp == BadRequest(Form.ErrEmptyName) && unchanged(pg)
      ensures Form.ValidatePassenger(input).None? && f.pgInsert ==>
                resp == InternalServerError && unchanged(pg)
      ensures Form.ValidatePassenger(input).None? && !f.pgInsert ==>
                var id := old(pg.nextPassengerId);
                && resp == Ok(UserBody(View.User(id)))
                && id !in old(pg.passengers)
                && pg.passengers == old(pg.passengers)[id := Mpg.Passenger(id, input.name)]
                && pg.nextPassengerId == id + 1
      ensures pg.drivers == old(pg.drivers) && pg.nextDriverId == old(pg.nextDriverId)
    {
      var err := Form.ValidatePassenger(input);
      if err.Some? {
        return BadRequest(err.value);
      }
      var passenger, failed := pg.CreatePassenger(Mpg.Passenger(0, input.name), f.pgInsert);
      if failed {
        return InternalServerError;
      }
      resp := Ok(UserBody(View.User(passenger.id)));
    }

    /**
     * Sign-up of a driver: validate the name, insert one row whose state is
     * still empty, answer with its new id.
     */
    method CreateDriver(input: Form.Driver, f: Faults) returns (resp: Response)
      requires Valid()
      modifies pg
      ensures Valid()
      ensures Form.ValidateDriver(input).Some? ==>
                resp == BadRequest(Form.ErrEmptyName) && unchanged(pg)
      ensures Form.ValidateDriver(input).None? && f.pgInsert ==>
                resp == InternalServerError && unchanged(pg)
      ensures Form.ValidateDriver(input).None? && !f.pgInsert ==>
                var id := old(pg.nextDriverId);
                && resp == Ok(UserBody(View.User(id)))
                && id !in old(pg.drivers)
                && pg.drivers == old(pg.drivers)[id := Mpg.Driver(id, input.name, "")]
                && pg.nextDriverId == id + 1
      ensures pg.passengers == old(pg.passengers) && pg.nextPassengerId == old(pg.nextPassengerId)
    {
      var err := Form.ValidateDriver(input);
      if err.Some? {
        return BadRequest(err.value);
      }
      var driver, failed := pg.CreateDriver(Mpg.Driver(0, input.name, ""), f.pgInsert);
      if failed {
        return InternalServerError;
      }
      resp := Ok(UserBody(View.User(driver.id)));
    }

    /**
     * A ride request: validate it, then ask the geo index once for at most 5
     * drivers within 5 km, and answer with the rows it gave, in its order.
     * There is no retry and no wider second query. The geo entries do not change.
     */
    method RequestDrivers(input: Form.RequestRide, f: Faults) returns (resp: Response)
      requires Valid()
      modifies redis`queries
      ensures Valid()
      ensures Form.ValidateRequestRide(input).Some? ==>
                resp == BadRequest(Form.ValidateRequestRide(input).value) && redis.queries == old(redis.queries)
      ensures Form.ValidateRequestRide(input).None? ==>
                && |redis.queries| == |old(redis.queries)| + 1
                && redis.queries[..|old(redis.queries)|] == old(redis.queries)
                && var q := redis.queries[|old(redis.queries)|];
                   && q.lat == input.location.lat && q.lng == input.location.lng
                   && q.radius == DefaultRadius && q.limit == NumberOfTop
                   && (f.geoQuery ==> resp == InternalServerError)
                   && (!f.geoQuery ==>
                         && resp.Ok? && resp.body.DriverListBody?
                         && |resp.body.drivers| == |q.answer| <= NumberOfTop
                         && forall i :: 0 <= i < |q.answer| ==>
                              && resp.body.drivers[i].id == q.answer[i].driverId
                              && resp.body.drivers[i].id in redis.geo
                              && resp.body.drivers[i].location == View.Location(q.answer[i].lat, q.answer[i].lng))
    {
      var err := Form.ValidateRequestRide(input);
      if err.Some? {
        return BadRequest(err.value);
      }
      var drivers, failed := redis.GetNearestDrivers(input.location.lat, input.location.lng,
                                                    DefaultRadius, NumberOfTop, f.geoQuery);
      if failed {
        return InternalServerError;
      }
      var rows := View.PopulateDriverRequests(drivers);
      resp := Ok(DriverListBody(rows[..]));
    }

    /**
     * A location update: resolve the driver, upsert its geo entry, then append
     * one sample to the history. The driver's state is never consulted, so a
     * busy driver is put back into the geo index. When the geo write fails no
     * sample is appended; when the append fails the geo write stays.
     */
    method UpdateDriverLocation(idParam: string, input: Form.Location, now: int, f: Faults)
      returns (resp: Response)
      requires Valid()
      modifies redis`geo, cass
      ensures Valid()
      ensures Resolve(idParam, f.pgGet).Failed? ==>
                && resp == Resolve(idParam, f.pgGet).resp
                && redis.geo == old(redis.geo) && cass.locations == old(cass.locations)
      ensures Resolve(idParam, f.pgGet).Found? && f.geoPush ==>
                && resp == InternalServerError
                && redis.geo == old(redis.geo) && cass.locations == old(cass.locations)
      ensures Resolve(idParam, f.pgGet).Found? && !f.geoPush ==>
                var id := Resolve(idParam, f.pgGet).driver.id;
                && redis.geo == old(redis.geo)[id := GeoPoint(input.lat, input.lng)]
                && (f.historyAppend ==> resp == InternalServerError && cass.locations == old(cass.locations))
                && (!f.historyAppend ==>
                      && cass.locations == old(cass.locations) + [Mcass.DriverLocation(id, input.lat, input.lng, now)]
                      && resp == Ok(DriverLocationBody(View.DriverLocation(id, View.Location(input.lat, input.lng)))))
    {
      var lookup := LookupDriver(idParam, f.pgGet);
      if lookup.Failed? {
        return lookup.resp;
      }
      var driver := lookup.driver;
      var failed := redis.PushDriverLocationGeo(driver.id, input.lat, input.lng, f.geoPush);
      if failed {
        return InternalServerError;
      }
      var location := Mcass.DriverLocation(driver.id, input.lat, input.lng, now);
      location, failed := cass.CreateDriverLocation(location, f.historyAppend);
      if failed {
        return InternalServerError;
      }
      resp := Ok(DriverLocationBody(View.DriverLocation(driver.id, View.Location(location.lat, location.lng))));
    }

    /**
     * A driver's history: resolve the driver, then answer with its samples of
     * the last 30 minutes, one row each, in the order the history gave them.
     * No store is written.
     */
    method GetDriverHistory(idParam: string, now: int, f: Faults) returns (resp: Response)
      requires Valid()
      ensures Resolve(idParam, f.pgGet).Failed? ==> resp == Resolve(idParam, f.pgGet).resp
      ensures Resolve(idParam, f.pgGet).Found? && f.historyQuery ==> resp == InternalServerError
      ensures Resolve(idParam, f.pgGet).Found? && !f.historyQuery ==>
                var rows := Window(cass.locations, Resolve(idParam, f.pgGet).driver.id, now - HistoryWindow);
                && resp.Ok? && resp.body.HistoryBody?
                && |resp.body.history| == |rows|
                && forall i :: 0 <= i < |rows| ==>
                     resp.body.history[i] == View.DriverHistory(rows[i].createdAt, View.Location(rows[i].lat, rows[i].lng))
    {
      var lookup := LookupDriver(idParam, f.pgGet);
      if lookup.Failed? {
        return lookup.resp;
      }
      var history, failed := cass.GetDriverHistory(lookup.driver.id, now - HistoryWindow, f.historyQuery);
      if failed {
        return InternalServerError;
      }
      var rows := View.PopulateDriverHistory(history);
      resp := Ok(HistoryBody(rows[..]));
    }

    /**
     * A state change: validate the state before anything else, resolve the
     * driver, write the state, then bring the geo index along: "busy" removes
     * the entry; "available" reads one of the driver's samples and upserts the
     * entry with it. The state write is never undone: every failure after it
     * (including a driver with no sample, whose nil sample the code
     * dereferences) leaves the new state beside the old geo entry.
     */
    method UpdateDriverState(idParam: string, input: Form.DriverState, f: Faults) returns (resp: Response)
      requires Valid()
      modifies pg`drivers, redis`geo
      ensures Valid()
      ensures Form.ValidateDriverState(input).Some? ==>
                resp == BadRequest(Form.ErrInvalidState) && pg.drivers == old(pg.drivers) && redis.geo == old(redis.geo)
      ensures Form.ValidateDriverState(input).None? && old(Resolve(idParam, f.pgGet)).Failed? ==>
                && resp == old(Resolve(idParam, f.pgGet)).resp
                && pg.drivers == old(pg.drivers) && redis.geo == old(redis.geo)
      ensures Form.ValidateDriverState(input).None? && old(Resolve(idParam, f.pgGet)).Found? ==>
                var driver := old(Resolve(idParam, f.pgGet)).driver;
                && (f.pgUpdate ==>
                      resp == InternalServerError && pg.drivers == old(pg.drivers) && redis.geo == old(redis.geo))
                && (!f.pgUpdate ==>
                      && pg.drivers == old(pg.drivers)[driver.id := driver.(state := input.state)]
                      && (input.state == Mpg.StateBusy ==>
                            && (f.geoRemove ==> resp == InternalServerError && redis.geo == old(redis.geo))
                            && (!f.geoRemove ==> resp == Ok(EmptyBody) && redis.geo == old(redis.geo) - {driver.id}))
                      && (input.state == Mpg.StateAvailable ==>
                            && (f.historyLatest || !Reported(cass.locations, driver.id) || f.geoPush ==>
                                  resp == InternalServerError && redis.geo == old(redis.geo))
                            && (!f.historyLatest && Reported(cass.locations, driver.id) && !f.geoPush ==>
                                  && resp == Ok(EmptyBody)
                                  && exists s :: s in cass.locations && s.driverId == driver.id &&
                                       redis.geo == old(redis.geo)[driver.id := GeoPoint(s.lat, s.lng)])))
    {
      var err := Form.ValidateDriverState(input);
      if err.Some? {
        return BadRequest(err.value);
      }
      var lookup := LookupDriver(idParam, f.pgGet);
      if lookup.Failed? {
        return lookup.resp;
      }
      var driver := lookup.driver;
      var failed := pg.UpdateDriverState(driver.id, input.state, f.pgUpdate);
      if failed {
        return InternalServerError;
      }
      if input.state == Mpg.StateAvailable {
        var latestLocation, latestFailed := cass.GetDriverLatestLocation(driver.id, f.historyLatest);
        if latestFailed {
          return InternalServerError;
        }
        if latestLocation.None? {
          // nil pointer dereference: the panic is recovered as a 500 response
          return InternalServerError;
        }
        failed := redis.PushDriverLocationGeo(driver.id, latestLocation.value.lat, latestLocation.value.lng, f.geoPush);
        if failed {
          return InternalServerError;
        }
      } else if input.state == Mpg.StateBusy {
        failed := redis.RemoveDriverLocationGeo(driver.id, f.geoRemove);
        if failed {
          return InternalServerError;
        }
      }
      resp := Ok(EmptyBody);
    }
  }
}
