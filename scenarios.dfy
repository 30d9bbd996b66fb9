/**
 * End-to-end runs of the handlers over fresh in-memory stores, proved from
 * the handlers' contracts alone. They show what the handler code does to the
 * three stores when requests arrive in a given order.
 */
module Scenarios {
  import opened Wrappers
  import Mpg
  import Mcass
  import Form
  import View
  import Strconv
  import opened Database
  import opened Handler

  const NoFaults: Faults := Faults(false, false, false, false, false, false, false, false, false)

  /** Fresh stores behind a fresh handler. */
  method NewHandler() returns (h: Handler)
    ensures fresh(h) && fresh(h.pg) && fresh(h.cass) && fresh(h.redis)
    ensures h.Valid()
    ensures h.pg.drivers == map[] && h.pg.nextDriverId == 1
    ensures h.cass.locations == [] && h.redis.geo == map[]
  {
    var pg := new Pg();
    var cass := new Cassandra();
    var redis := new Redis();
    h := new Handler(pg, cass, redis);
  }

  /**
   * A busy driver that reports a location is put back into the geo index,
   * because the location update never looks at the driver's state.
   */
  method BusyDriverReindexed() returns (state: string, indexed: bool)
    ensures state == Mpg.StateBusy && indexed
  {
    var h := NewHandler();
    Strconv.PathParameters();
    var resp := h.CreateDriver(Form.Driver("Alice"), NoFaults);
    assert 1 in h.pg.drivers;
    resp := h.UpdateDriverLocation("1", Form.Location(10.0, 106.0), 1000, NoFaults);
    resp := h.UpdateDriverState("1", Form.DriverState(Mpg.StateBusy), NoFaults);
    assert 1 !in h.redis.geo && h.pg.drivers[1].state == Mpg.StateBusy;
    resp := h.UpdateDriverLocation("1", Form.Location(10.5, 106.5), 1006, NoFaults);
    state := h.pg.drivers[1].state;
    indexed := 1 in h.redis.geo;
  }

  /**
   * A driver set busy is in no ride-request answer, and a driver set back to
   * available without a new location is indexed again at its recorded sample.
   */
  method BusyThenAvailable() returns (whileBusy: Response, afterwards: Option<GeoPoint>)
    ensures whileBusy == Ok(DriverListBody([]))
    ensures afterwards == Some(GeoPoint(10.0, 106.0))
  {
    var h := NewHandler();
    Strconv.PathParameters();
    var resp := h.CreateDriver(Form.Driver("Alice"), NoFaults);
    resp := h.UpdateDriverLocation("1", Form.Location(10.0, 106.0), 1000, NoFaults);
    resp := h.UpdateDriverState("1", Form.DriverState(Mpg.StateBusy), NoFaults);
    assert h.redis.geo == map[];
    whileBusy := h.RequestDrivers(Form.RequestRide(1, Form.Location(10.0, 106.0)), NoFaults);
    if |whileBusy.body.drivers| > 0 {
      assert whileBusy.body.drivers[0].id in h.redis.geo;
    }
    assert h.cass.locations == [Mcass.DriverLocation(1, 10.0, 106.0, 1000)];
    assert Reported(h.cass.locations, 1) by {
      assert h.cass.locations[0].driverId == 1;
    }
    resp := h.UpdateDriverState("1", Form.DriverState(Mpg.StateAvailable), NoFaults);
    afterwards := if 1 in h.redis.geo then Some(h.redis.geo[1]) else None;
  }

  /**
   * A driver that never reported a location and is set available gets a 500
   * response, yet its new state is already written and it has no geo entry.
   */
  method AvailableWithoutLocation() returns (resp: Response, state: string, indexed: bool)
    ensures resp == InternalServerError && state == Mpg.StateAvailable && !indexed
  {
    var h := NewHandler();
    Strconv.PathParameters();
    resp := h.CreateDriver(Form.Driver("Alice"), NoFaults);
    assert h.pg.drivers[1].state == "";
    resp := h.UpdateDriverState("1", Form.DriverState(Mpg.StateAvailable), NoFaults);
    state := h.pg.drivers[1].state;
    indexed := 1 in h.redis.geo;
  }

  /** A failing geo write after the state write leaves a busy driver in the geo index. */
  method BusyWithStaleEntry() returns (resp: Response, state: string, indexed: bool)
    ensures resp == InternalServerError && state == Mpg.StateBusy && indexed
  {
    var h := NewHandler();
    Strconv.PathParameters();
    resp := h.CreateDriver(Form.Driver("Alice"), NoFaults);
    resp := h.UpdateDriverLocation("1", Form.Location(10.0, 106.0), 1000, NoFaults);
    resp := h.UpdateDriverState("1", Form.DriverState(Mpg.StateBusy), NoFaults.(geoRemove := true));
    state := h.pg.drivers[1].state;
    indexed := 1 in h.redis.geo;
  }
}
