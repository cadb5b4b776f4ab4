/** Failure-carrying values shared by the schema and the store. */
module Wrappers {

  /** A value that may be absent: the Go schema's nil-able pointer fields. */
  datatype Option<+T> = None | Some(value: T)

  /** A value or an error: a Go `(value, error)` return pair. */
  datatype Result<+T, +E> = Success(value: T) | Failure(error: E)

  /** Success or an error and nothing else: a Go function returning only `error`. */
  datatype Outcome<+E> = Pass | Fail(error: E)
}
