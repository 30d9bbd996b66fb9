/**
 * The input validators of the HTTP layer (app/form/form.go). Each validator
 * is a predicate over an already-bound request record and returns either no
 * error or the text of the error the handler answers with. Being functions on
 * values, none of them can change the record it checks.
 */
module Form {
  import opened Wrappers
  import Mpg

  const ErrNotFoundPassenger: string := "Not found passenger"
  const ErrInvalidLatitude: string := "Invalid latitude"
  const ErrInvalidLongitude: string := "Invalid longitude"
  const ErrInvalidState: string := "Invalid state"
  const ErrEmptyName: string := "Name can not be empty"

  datatype Location = Location(lat: real, lng: real)

  datatype RequestRide = RequestRide(passengerId: int, location: Location)

  datatype DriverState = DriverState(state: string)

  datatype Driver = Driver(name: string)

  datatype Passenger = Passenger(name: string)

  /** Latitudes accepted for a ride request: the closed interval [-90, 90]. */
  predicate ValidLatitude(lat: real) {
    -90.0 <= lat <= 90.0
  }

  /** Longitudes accepted for a ride request: the closed interval [-180, 180]. */
  predicate ValidLongitude(lng: real) {
    -180.0 <= lng <= 180.0
  }

  /**
   * RequestRide.Validate as the code is written: the passenger id is checked
   * first, then the latitude, then the longitude, and an out-of-range
   * longitude is reported with the latitude message.
   */
  function ValidateRequestRideAsWritten(input: RequestRide): (err: Option<string>)
    ensures err.None? <==>
      input.passengerId > 0 && ValidLatitude(input.location.lat) && ValidLongitude(input.location.lng)
    ensures input.passengerId <= 0 ==> err == Some(ErrNotFoundPassenger)
    ensures input.passengerId > 0 && !ValidLatitude(input.location.lat) ==> err == Some(ErrInvalidLatitude)
    ensures input.passengerId > 0 && ValidLatitude(input.location.lat) && !ValidLongitude(input.location.lng) ==>
              err == Some(ErrInvalidLatitude)
  {
    if input.passengerId <= 0 then Some(ErrNotFoundPassenger)
    else if input.location.lat > 90.0 || input.location.lat < -90.0 then Some(ErrInvalidLatitude)
    else if input.location.lng > 180.0 || input.location.lng < -180.0 then Some(ErrInvalidLatitude)
    else None
  }

  /**
   * RequestRide.Validate as its table test expects it: the same checks in the
   * same order, with an out-of-range longitude reported as such.
   */
  function ValidateRequestRide(input: RequestRide): (err: Option<string>)
    ensures err.None? <==>
      input.passengerId > 0 && ValidLatitude(input.location.lat) && ValidLongitude(input.location.lng)
    ensures input.passengerId <= 0 ==> err == Some(ErrNotFoundPassenger)
    ensures input.passengerId > 0 && !ValidLatitude(input.location.lat) ==> err == Some(ErrInvalidLatitude)
    ensures input.passengerId > 0 && ValidLatitude(input.location.lat) && !ValidLongitude(input.location.lng) ==>
              err == Some(ErrInvalidLongitude)
  {
    if input.passengerId <= 0 then Some(ErrNotFoundPassenger)
    else if input.location.lat > 90.0 || input.location.lat < -90.0 then Some(ErrInvalidLatitude)
    else if input.location.lng > 180.0 || input.location.lng < -180.0 then Some(ErrInvalidLongitude)
    else None
  }

  /** The two versions agree everywhere except on the message for a bad longitude. */
  lemma AsWrittenDiffersOnlyInLongitudeMessage(input: RequestRide)
    ensures ValidateRequestRideAsWritten(input) ==
      if ValidateRequestRide(input) == Some(ErrInvalidLongitude) then Some(ErrInvalidLatitude)
      else ValidateRequestRide(input)
  {
  }

  /** The table-test row with longitude 181 tells the two versions apart. */
  lemma LongitudeMessageCounterexample()
    ensures ValidateRequestRideAsWritten(RequestRide(1, Location(10.23423, 181.0))) == Some(ErrInvalidLatitude)
    ensures ValidateRequestRide(RequestRide(1, Location(10.23423, 181.0))) == Some(ErrInvalidLongitude)
  {
  }

  /** The five rows of the ride-request table test hold of the corrected validator. */
  lemma RequestRideTable()
    ensures ValidateRequestRide(RequestRide(1, Location(10.823099, 106.629664))) == None
    ensures ValidateRequestRide(RequestRide(1, Location(100.0, 106.629664))) == Some(ErrInvalidLatitude)
    ensures ValidateRequestRide(RequestRide(1, Location(10.23423, 181.0))) == Some(ErrInvalidLongitude)
    ensures ValidateRequestRide(RequestRide(0, Location(10.23423, 101.0))) == Some(ErrNotFoundPassenger)
    ensures ValidateRequestRide(RequestRide(-10, Location(10.23423, 101.0))) == Some(ErrNotFoundPassenger)
  {
  }

  /** DriverState.Validate: exactly the two recognised states pass. */
  function ValidateDriverState(input: DriverState): (err: Option<string>)
    ensures err.None? <==> input.state == Mpg.StateAvailable || input.state == Mpg.StateBusy
    ensures err.Some? ==> err == Some(ErrInvalidState)
  {
    if input.state == "" || (input.state != Mpg.StateAvailable && input.state != Mpg.StateBusy) then
      Some(ErrInvalidState)
    else
      None
  }

  /** The four rows of the driver-state table test. */
  lemma DriverStateTable()
    ensures ValidateDriverState(DriverState("")) == Some(ErrInvalidState)
    ensures ValidateDriverState(DriverState("availableeee")) == Some(ErrInvalidState)
    ensures ValidateDriverState(DriverState("available")) == None
    ensures ValidateDriverState(DriverState("busy")) == None
  {
  }

  /** Driver.Validate: a driver sign-up fails exactly when the name is empty. */
  function ValidateDriver(input: Driver): (err: Option<string>)
    ensures err.None? <==> input.name != ""
    ensures err.Some? ==> err == Some(ErrEmptyName)
  {
    if input.name == "" then Some(ErrEmptyName) else None
  }

  /** Passenger.Validate: a passenger sign-up fails exactly when the name is empty. */
  function ValidatePassenger(input: Passenger): (err: Option<string>)
    ensures err.None? <==> input.name != ""
    ensures err.Some? ==> err == Some(ErrEmptyName)
  {
    if input.name == "" then Some(ErrEmptyName) else None
  }
}
