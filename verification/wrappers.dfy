/** Option and Result shapes of the adapter's `(value, ok)` and
    `(value, error)` returns: a lookup that may find nothing, and a
    projection that may fail. */
module Wrappers {

  /** A value that may be absent (a nil pointer or a nil map in the adapter). */
  datatype Option<+T> = None | Some(value: T)

  /** A value or an error (the adapter's `(value, error)` pair). */
  datatype Result<+R, +E> = Success(value: R) | Failure(error: E)
}
