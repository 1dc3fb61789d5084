/** Failure-carrying return types shared by the emission-engine modules. */
module Outcomes {

  /** A value that may be absent, as a Python method that falls through and returns None. */
  datatype Option<+T> = None | Some(value: T)

  /** Either a computed value or the error the source would raise instead. */
  datatype Result<+T, +E> = Ok(value: T) | Err(error: E)
}
