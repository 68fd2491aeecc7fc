/** Failure-carrying values used by the room operations. */
module Wrappers {

  /** A value that may be absent: a JSON field the client did not send. */
  datatype Option<+T> = None | Some(value: T)

  /** The outcome of an HTTP room operation: the document, or the error it answers with. */
  datatype Result<+R, +E> = Success(value: R) | Failure(error: E)
}
