/** What every module shares. */
module Basics {

  datatype Option<+T> = None | Some(value: T)

  datatype Result<+T> = Success(value: T) | Failure

  /** Timestamps and durations, in microseconds. */
  type Time = int

  const SECOND: Time := 1_000_000
}
