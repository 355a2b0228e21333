/** Failure-carrying values shared by the modules of this model. */
module Wrappers {

  /** A value that may be absent. */
  datatype Option<+T> = None | Some(value: T)

  /** Either a computed value or an error message (Go's `(value, error)` pair
      where exactly one side is meaningful). */
  datatype Result<+R, +E> = Success(value: R) | Failure(error: E)
}
