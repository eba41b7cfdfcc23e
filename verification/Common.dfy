/** What several components share. */
module Common {

  datatype Option<+T> = None | Some(value: T)

  datatype Result<+T, +E> = Ok(value: T) | Err(error: E)

  /** Times are in nanoseconds. */
  const SECOND: int := 1_000_000_000

  function Min(a: int, b: int): int { if a <= b then a else b }

  function Max(a: int, b: int): int { if a <= b then b else a }

  /** The status of a trip, and anything else a request may spell. */
  datatype TripStatus = Requested | Accepted | Arriving | InRide | Completed | Cancelled | UnknownStatus(name: string)

  /** Likewise the availability of a driver. */
  datatype DriverAvailability = Online | Offline | UnknownAvailability(name: string)
}
