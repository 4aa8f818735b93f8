/** Failure-carrying return types: PHP exceptions become explicit error values. */
module Wrappers {

  datatype Option<+T> = None | Some(value: T)

  /** The value of a call that either returns or throws. */
  datatype Result<+R, +E> = Ok(value: R) | Err(error: E)

  /** The outcome of a call whose only result is "did it throw". */
  datatype Outcome<+E> = Pass | Fail(error: E)
}
