/** Optional values and failure results shared by the parser and the renderer. */
module Wrappers {

  /** Python's `None` or a present value. */
  datatype Option<+T> = None | Some(value: T)

  /** The outcome of a conversion step that can fail with a message. */
  datatype Result<+T> = Success(value: T) | Failure(message: string)
}
