/**
 * The records the pipeline reads and writes: the two fleets' raw rows and
 * the unified trip record every later stage works on.
 */
module Schema {
  import opened Wrappers

  datatype TaxiType = Yellow | Green

  datatype Date = Date(year: int, month: int, day: int)

  /**
   * An instant: seconds since the epoch, plus the calendar fields the
   * queries extract from it (EXTRACT YEAR/MONTH/HOUR/DOW and DATE), taken
   * as given rather than derived from the seconds.
   */
  datatype Timestamp = Timestamp(epochSeconds: int, date: Date, hour: int, weekday: int)

  /** DATE_TRUNC('month', t): a calendar month. */
  datatype Month = Month(year: int, month: int)

  /** A yellow-taxi row, in the columns the pipeline selects from it. */
  datatype YellowRow = YellowRow(
    tpepPickupDatetime: Timestamp,
    tpepDropoffDatetime: Option<Timestamp>,
    puLocationId: int,
    doLocationId: int,
    tripDistance: Option<real>,
    fareAmount: Option<real>,
    tipAmount: Option<real>,
    totalAmount: Option<real>,
    congestionSurcharge: Option<real>)

  /** A green-taxi row: the same columns, with lpep_ time stamps. */
  datatype GreenRow = GreenRow(
    lpepPickupDatetime: Timestamp,
    lpepDropoffDatetime: Option<Timestamp>,
    puLocationId: int,
    doLocationId: int,
    tripDistance: Option<real>,
    fareAmount: Option<real>,
    tipAmount: Option<real>,
    totalAmount: Option<real>,
    congestionSurcharge: Option<real>)

  /** A row of unified_trips. */
  datatype Trip = Trip(
    taxiType: TaxiType,
    pickupTime: Timestamp,
    dropoffTime: Option<Timestamp>,
    pickupLoc: int,
    dropoffLoc: int,
    tripDistance: Option<real>,
    fare: Option<real>,
    tipAmount: Option<real>,
    totalAmount: Option<real>,
    congestionSurcharge: Option<real>)

  function PickupYear(t: Trip): int {
    t.pickupTime.date.year
  }

  function PickupMonth(t: Trip): Month {
    Month(t.pickupTime.date.year, t.pickupTime.date.month)
  }

  /** EXTRACT(EPOCH FROM (dropoff_time - pickup_time)); NULL when the dropoff is. */
  function ElapsedSeconds(t: Trip): Option<int> {
    match t.dropoffTime
    case None => None
    case Some(d) => Some(d.epochSeconds - t.pickupTime.epochSeconds)
  }

  /** EXTRACT(EPOCH FROM (dropoff_time - pickup_time)) / 60. */
  function DurationMinutes(t: Trip): Option<real> {
    match ElapsedSeconds(t)
    case None => None
    case Some(e) => Some((e as real) / 60.0)
  }
}
