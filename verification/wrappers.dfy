/** Option and Result values: the model's stand-ins for the source's nullable values and thrown errors. */
module Wrappers {

  /** A value that may be absent (`null` / `undefined` in the client, an empty `Optional` in the backend). */
  datatype Option<+T> = None | Some(value: T)

  /** The outcome of a call that either returns a value or fails with an error. */
  datatype Result<+T, +E> = Success(value: T) | Failure(error: E)
}
