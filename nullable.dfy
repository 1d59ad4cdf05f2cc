/** The two wrappers the model uses for the source's `null` and its exceptions. */
module Nullable {

  /** A reference that may be `null` in the source. */
  datatype Option<+T> = None | Some(value: T) {
    function GetOr(default: T): T {
      match this
      case Some(v) => v
      case None => default
    }
  }

  /** The outcome of an operation that may throw: its value, or the reason it threw. */
  datatype Result<+T, +E> = Success(value: T) | Failure(error: E)
}
