/** Types shared by every part of the model. */
module Common {

  datatype Option<+T> = None | Some(value: T)

  /** Nanoseconds on a clock shared by all processes; ZERO_TIME is Go's zero `time.Time`. */
  type Time = int

  const ZERO_TIME: Time := 0
  const SECOND: int := 1_000_000_000
  const MINUTE: int := 60 * SECOND
  const HOUR: int := 60 * MINUTE
  const DAY: int := 24 * HOUR

  /** How one call to an external system (PostgreSQL, JetStream, Redis) ends:
      it works; it fails without any effect; or its effect lands but the caller sees an error. */
  datatype Fault = Works | NoEffect | LandsWithError {
    predicate Lands() { !NoEffect? }
  }

  datatype Result<+T> = Ok(value: T) | Error(message: string)
}
