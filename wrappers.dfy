/** Option and Result values used for the Go functions that return `(T, error)`. */
module Wrappers {

  datatype Option<+T> = None | Some(value: T)

  /** `Failure` carries the text of the Go `error` that would have been returned. */
  datatype Result<+T> = Success(value: T) | Failure(error: string)
}
