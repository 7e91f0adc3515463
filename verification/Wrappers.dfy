/** Failure-carrying results and outside calls, shared by the whole model. */
module Wrappers {
  datatype Option<+T> = None | Some(value: T)

  datatype Result<+T, +E> = Ok(value: T) | Err(error: E)

  /** A call outside the model: it succeeds or fails. */
  method External() returns (ok: bool) {
    ok := *;
  }
}
