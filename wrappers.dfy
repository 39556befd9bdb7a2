/** Optional values and results with an error message, shared by every module of the model. */
module Wrappers {

  /** A value that may be missing: JavaScript's `undefined`, a failed parse. */
  datatype Option<+T> = None | Some(value: T)

  /** The outcome of a step that can throw: the value, or the error's message. */
  datatype Result<+T> = Success(value: T) | Failure(message: string)
}
