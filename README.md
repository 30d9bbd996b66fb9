# gruber ride dispatch: a Dafny model of the handlers, validators and views

gruber is a small HTTP service for ride dispatch. Drivers and passengers sign
up. Drivers report locations and switch between "available" and "busy".
Passengers ask for the nearest drivers. Three stores back it:

- a driver table, the state of record (PostgreSQL, `Pg`);
- a geo set with one member per driver, used for nearest-driver queries (Redis, `Redis`);
- an append-only history of location samples (Cassandra, `Cassandra`).

This project models three parts of the service:

- **Form** (`form.dfy`): the request validators, as pure functions.
- **Handler** (`handler.dfy`): the six handlers, as methods of a `Handler` class over the three stores.
  Each handler runs a fixed sequence of store calls and stops at the first failure.
  Its contract says which stores change, in what order, and what is left behind when a step fails.
- **View** (`view.dfy`): the loops that build response rows, as methods filling an array.

Supporting modules:

- `database.dfy`: the stores, reduced to the contracts the handlers rely on.
  Each store is a class whose state is a map or a sequence.
  Every call takes a `fail` flag; a failed call changes nothing.
- `strconv.dfy`: Go's `strconv.Atoi`, which parses the `:id` path parameter, and `strconv.Itoa`, which names geo members.
- `model.dfy`: the store records.
- `scenarios.dfy`: end-to-end runs proved from the handler contracts alone.

Inputs the model takes as parameters:

- A request arrives already bound to its record; the `:id` parameter arrives as text.
- Whether each store call of a request fails is a `Faults` record.
- The clock is a `now` parameter in Unix seconds.
- A store error reaches `util.RespInternalServerError`, which writes a 500 response and panics; Gin recovers the panic.
  The model ends the handler with `InternalServerError`.

What the code does, as the model states it:

- `UpdateDriverState` checks the state before it parses the id or reads any store.
- It writes the new state, then updates the geo set. A failure after the write never undoes the write.
  A driver with no recorded sample makes the code dereference a nil pointer (app/handler/handler.go:260).
  That ends the request with a 500, with the new state already written.
- `UpdateDriverLocation` upserts the geo entry first and appends the history sample second.
  It never reads the driver's state, so a busy driver is put back into the geo set (`Scenarios.BusyDriverReindexed`).
- `RequestDrivers` issues exactly one geo query: radius 5 km, at most 5 drivers.

Things the code does not do, which the model therefore does not do either:

- It never widens the radius when too few drivers are found. The comment at app/handler/handler.go:85 leaves that as a TODO.
- It never skips a state change that repeats the current state.
- It never checks a driver's state before indexing a new location.
- It never writes the history before the geo set.
- It never reconciles the stores after a partial failure.
- It never locks a driver across the steps of a request.

## Model

| member | source | states |
|---|---|---|
| Form.ValidateRequestRideAsWritten | app/form/form.go:37-51 | The passenger id is checked first: `passengerId <= 0` gives "Not found passenger" whatever the coordinates. Then latitude: outside [-90, 90] gives "Invalid latitude". A longitude outside [-180, 180] also gives "Invalid latitude", as written. No error exactly when all three checks pass. |
| Form.ValidateRequestRide | app/form/form.go:37-51 | The same checks in the same order, with the longitude error "Invalid longitude", as the table test expects. No error exactly when all three checks pass. The handler uses this version. |
| Form.AsWrittenDiffersOnlyInLongitudeMessage | app/form/form.go:46-48 | For every request, the as-written validator gives the same answer as the corrected one, except that "Invalid longitude" becomes "Invalid latitude". |
| Form.LongitudeMessageCounterexample | app/form/form_test.go:30-38 | On the test row with longitude 181, the code answers "Invalid latitude" where the test expects "Invalid longitude". |
| Form.RequestRideTable | app/form/form_test.go:10-59 | The five rows of the ride-request table test hold of the corrected validator. |
| Form.ValidateDriverState | app/form/form.go:54-60 | No error exactly for "available" and "busy". Every other string, "" included, gives "Invalid state". |
| Form.DriverStateTable | app/form/form_test.go:81-104 | The four rows of the driver-state table test. |
| Form.ValidateDriver | app/form/form.go:63-69 | Fails exactly on the empty name, with "Name can not be empty". |
| Form.ValidatePassenger | app/form/form.go:72-78 | Fails exactly on the empty name, with "Name can not be empty". |
| Strconv.Atoi | app/handler/handler.go:135-139 | A parsed `:id` is a 64-bit integer. Parsing succeeds only on an optional sign followed by at least one digit. |
| Strconv.AtoiRejectsNonDigit | app/handler/handler.go:135-139 | Text with a character that is neither a digit nor a leading sign does not parse, so the handler answers NotFound. |
| Strconv.PathParameters | app/handler/handler_test.go:42-45 | The path parameters of the handler tests: "1", "0" and "-1" parse; "abc" and "" do not. |
| Strconv.AtoiItoa | database/redis.go:47-53 | Parsing the member name Itoa gives a driver id returns that id, for every 64-bit id. |
| Strconv.ItoaInjective | database/redis.go:47-53 | Distinct driver ids get distinct geo member names, so the geo set holds at most one entry per driver. |
| Database.Pg.CreateDriver | database/postgresql.go:50-52 | On success, one row is inserted under a fresh id taken from the counter. The caller gets the row back with that id. Passengers are untouched. |
| Database.Pg.CreatePassenger | database/postgresql.go:55-57 | On success, one row is inserted under a fresh id taken from the counter. The caller gets the row back with that id. Drivers are untouched. |
| Database.Pg.UpdateDriverState | database/postgresql.go:60-63 | Sets the state of the row with that id. An unknown id changes nothing and is no error. |
| Database.Pg.GetDriver | database/postgresql.go:66-74 | Returns the row under that id, or None when there is none or the call fails. |
| Database.Redis.PushDriverLocationGeo | database/redis.go:47-59 | Inserts the driver's single entry, or replaces its coordinates. |
| Database.Redis.RemoveDriverLocationGeo | database/redis.go:62-69 | Deletes the driver's entry; deleting an absent entry is no error. |
| Database.Redis.GetNearestDrivers | database/redis.go:72-86 | Logs the query with its radius and limit. The answer holds only drivers with an entry, each at most once, no more than `limit` of them; a failed query answers nothing. |
| Database.Window | database/cassandra.go:54-75 | The history query keeps exactly the samples of one driver observed strictly after `from`. |
| Database.WindowAppend | database/cassandra.go:45-75 | Appending a sample extends the history query's result by that sample, at the end, exactly when the sample belongs to it. |
| Database.Cassandra.CreateDriverLocation | database/cassandra.go:45-51 | On success, the history grows by exactly the given sample. The record comes back unchanged. |
| Database.Cassandra.GetDriverHistory | database/cassandra.go:54-75 | Returns the samples of the driver after `from`, as Window gives them. |
| Database.Cassandra.GetDriverLatestLocation | database/cassandra.go:78-104 | Returns one of the driver's samples, or None exactly when the driver has none. |
| View.PopulateDriverRequests | app/view/view.go:56-70 | The result has the input's length. Row i carries the driver id and the coordinates of input row i, in order. Empty input gives an empty array. |
| View.PopulateDriverHistory | app/view/view.go:72-85 | The result has the input's length. Row i carries the time in seconds and the coordinates of sample i, in order. |
| Handler.Handler.constructor | app/handler/handler.go:25-31 | A handler over the three given stores. |
| Handler.Handler.Resolve | app/handler/handler.go:134-150 | The shared id lookup. A non-integer `:id` gives NotFound. A failing GetDriver gives InternalServerError. A missing row gives NotFound. Otherwise the lookup finds the row under that id. |
| Handler.Handler.LookupDriver | app/handler/handler.go:134-150 | Parses `:id`, then calls GetDriver, with the outcome Resolve describes. Writes no store. |
| Handler.Handler.CreatePassenger | app/handler/handler.go:46-70 | An empty name gives BadRequest and leaves the store untouched. A failed insert gives InternalServerError. Otherwise one passenger row is added and the response carries the store-assigned id. |
| Handler.Handler.CreateDriver | app/handler/handler.go:100-124 | An empty name gives BadRequest and leaves the store untouched. A failed insert gives InternalServerError. Otherwise one driver row with an empty state is added and the response carries the store-assigned id. |
| Handler.Handler.RequestDrivers | app/handler/handler.go:73-97 | A failed validation gives BadRequest with the validator's message, and no geo query is made. Otherwise exactly one query is made, for radius 5 and limit 5, and the geo entries do not change. The response rows are the answer's rows, in order. |
| Handler.Handler.UpdateDriverLocation | app/handler/handler.go:127-179 | After the shared lookup, the geo entry is upserted whatever the driver's state, and then one sample is appended. A failed geo write appends nothing. A failed append leaves the geo write in place. The response carries the driver id and the sample's coordinates. |
| Handler.Handler.GetDriverHistory | app/handler/handler.go:182-211 | After the shared lookup, the response rows are the driver's samples of the last 30 minutes, one per sample, in order. No store is written. |
| Handler.Handler.UpdateDriverState | app/handler/handler.go:214-274 | A bad state gives BadRequest and changes nothing. After the shared lookup, the state is written. Busy then deletes the geo entry. Available then reads one recorded sample and upserts the entry with its coordinates. Any failure after the state write, including a driver with no sample, answers 500 and keeps the new state beside the unchanged geo set. |
| Scenarios.BusyDriverReindexed | app/handler/handler.go:152-168 | A busy driver that reports a location gets a geo entry again while its state stays busy. |
| Scenarios.BusyThenAvailable | app/handler/handler.go:250-270 | Once a driver is set busy, a ride request answers with no drivers. Setting it available again, with no new location, restores its entry from its recorded sample. |
| Scenarios.AvailableWithoutLocation | app/handler/handler.go:244-263 | A new driver with no sample, set available, gets a 500. Its state is already "available" and it has no geo entry. |
| Scenarios.BusyWithStaleEntry | app/handler/handler.go:244-268 | When the geo delete fails, the driver is busy in the table but still in the geo set. |

## Findings

| source | as written | input that shows it | evidently intended | confidence | as-written member | corrected member |
|---|---|---|---|---|---|---|
| app/form/form.go:46-48 | a longitude outside [-180, 180] is reported as "Invalid latitude" | passenger 1 at latitude 10.23423, longitude 181 (app/form/form_test.go:30-38) | "Invalid longitude", as the table test expects | high; not executed | Form.ValidateRequestRideAsWritten (exhibited by Form.LongitudeMessageCounterexample) | Form.ValidateRequestRide |

`Handler.Handler.RequestDrivers` uses the corrected validator. For an out-of-range longitude it therefore answers "Invalid longitude", where the code as written answers "Invalid latitude". Every other outcome is the same (`Form.AsWrittenDiffersOnlyInLongitudeMessage`).

## Left out

- Request binding (`c.Bind`), its "Invalid format" answer, and routing in `NewEngine`. The model starts from bound records.
- JSON encoding, including `timestamp.MarshalJSON`. A history row carries its time as Unix seconds.
- The `fmt.Println` and `fmt.Printf` logging in the handlers: output only.
- Coordinates are `real`. The float32 and float64 types and NaN are not modelled. The source passes float32 form fields where float64 parameters and fields are declared, with no conversion (app/handler/handler.go:88, :153, :161-162). The code only compares and copies coordinates.
- The store adapters themselves (go-pg, go-redis, gocql). Only the contracts the handlers use are modelled.
- Database.Redis.GetNearestDrivers: does not model great-circle distance, the 5 km radius, or the ascending-distance order of GEORADIUS. Distance needs trigonometry on reals. Redis stores coordinates as geohashes, so the coordinates it returns are approximations of the stored ones.
- The Redis adapter's GetNearestDrivers discards the GEORADIUS reply and always returns an empty list (database/redis.go:72-86). The model gives the interface's contract instead.
- Database.Cassandra.GetDriverLatestLocation: returns one of the driver's samples, not necessarily the newest. `LIMIT 1` takes the first row in the table's clustering order, and that order is not part of the sources.
- Handler.Handler.RequestDrivers: validates with the corrected `Form.ValidateRequestRide`, not with the validator as written, which is the one app/handler/handler.go:80-81 calls. For a valid passenger id and latitude with a longitude outside [-180, 180], the model answers BadRequest "Invalid longitude" where the code answers BadRequest "Invalid latitude". Every other outcome is the same, by `Form.AsWrittenDiffersOnlyInLongitudeMessage`.
- Database.Cassandra.CreateDriverLocation: promises the record comes back unchanged, as the production adapter leaves it (database/cassandra.go:45-51). The `CassandraI` interface would let an implementation rewrite the record through its pointer, as the test double at app/handler/handler_test.go:333-338 does. app/handler/handler.go:170-174 builds the response from that record, so `Handler.Handler.UpdateDriverLocation`'s promise that the response carries the input coordinates holds only for adapters that leave it alone.
- Database.Cassandra.GetDriverHistory: returns samples in append order, because the real order is the clustering order, which is not shown.
- A failed store call is modelled as changing nothing. A write that timed out but still landed is not modelled.
- Database.Pg.CreateDriver: models the ids as a counter starting at 1. A failed insert does not use up an id, and the counter never overflows. The table schema is not part of the sources.
- The `created_at` columns of drivers and passengers, and the UUID of each history row. The adapter sets the UUID on insert and reads it back (database/cassandra.go:49, :68, :93), but the handlers never use it.
- Redis's own coordinate limits (GEOADD refuses latitudes beyond about ±85.05). A refusal is a failing geo call, the `geoPush` fault.
- Concurrency: the code has no locking, retries or reconciliation, and each handler is modelled as one sequential run.
- The Cassandra client's 6-second timeout (database/cassandra.go:33). A call that times out is a failing call, which the `Faults` flags already cover.
- The older `handler/`, `form/`, `model/` and `database/database.go` files, `config/config.go` and `main.go`: configuration, startup and a superseded version of the handlers.
- model/mredis is not part of this model's sources. Its row type is taken from how app/view/view.go reads it: a driver id, a latitude and a longitude.
