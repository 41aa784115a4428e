/** Result types shared by the primer design modules. */
module Outcomes {

  /** The ways in which designing one window's primers can fail. */
  datatype Error =
    | InsufficientSequence      // a slice would read before the start or past the end of the sequence
    | MeltingTempNeverReached   // an extension loop exhausted the sequence below its threshold

  datatype Result<+T> = Ok(value: T) | Err(error: Error)

  datatype Option<+T> = None | Some(value: T)
}
