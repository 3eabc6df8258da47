/** Failure-carrying datatypes shared by every handler of the model. */
module Wrappers {

  /** A value that may be absent: an optional JSON body field or header. */
  datatype Option<+T> = None | Some(value: T)

  /** The outcome of a handler: a payload, or the error the route answers with. */
  datatype Result<+R, +E> = Success(value: R) | Failure(error: E)
}
