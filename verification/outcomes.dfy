/** Failure-carrying values shared by the whole model: a Go `(T, error)`
    pair becomes a `Result`, a nullable lookup an `Option`. */
module Outcomes {

  datatype Option<+T> = None | Some(value: T)

  datatype Result<+T, +E> = Success(value: T) | Failure(error: E)
}
