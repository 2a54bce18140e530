/** Shared value types: optional values, results of calls that can raise, and the time unit. */
module Prelude {

  datatype Option<+T> = None | Some(value: T)

  /** The exceptions the services raise; messages are not modelled. */
  datatype Error = KeyError | ValueError | TypeError | RuntimeError | OsError

  datatype Result<+T> = Ok(value: T) | Err(error: Error)

  /** Clock readings are whole microseconds, the resolution of the source's datetimes. */
  const SECOND := 1_000_000
  const HOUR := 3600 * SECOND
  const DAY := 24 * HOUR
}
