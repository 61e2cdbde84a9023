/** The optional value used wherever the source returns `None` or a value, and the outcome of
    a step that may raise. */
module Wrappers {
  datatype Option<+T> = None | Some(value: T)

  /** What a step that may raise gives: its value, or the exception it raises. */
  datatype Result<+T> = Success(value: T) | Failure(error: string)
}
