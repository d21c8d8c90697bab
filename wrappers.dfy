/** Failure-carrying values shared by the inventory and the bundle upload models. */
module Wrappers {

  datatype Option<+T> = None | Some(value: T)

  /** The `(value, error)` pair that Go functions return, with exactly one side set. */
  datatype Result<+R, +E> = Success(value: R) | Failure(error: E)
}
