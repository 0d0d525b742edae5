/** Option and Result values shared by the carousel modules. */
module Wrappers {

  /** A value that may be absent: an omitted prop (`undefined`) is `None`. */
  datatype Option<+T> = None | Some(value: T)

  /** The outcome of a step that can throw: `Failure` carries what was thrown. */
  datatype Result<+T, +E> = Success(value: T) | Failure(error: E)
}
