/** Failure-carrying datatypes used by every route model. */
module Wrappers {

  /** A value that may be absent: a missing query parameter, a document not found. */
  datatype Option<+T> = None | Some(value: T) {

    /** The carried value, or `default` when there is none (the `x || default` idiom on objects). */
    function GetOr(default: T): T {
      match this
      case Some(v) => v
      case None => default
    }
  }

  /** Either the value a step produced or the reason it stopped. */
  datatype Result<+T, +E> = Success(value: T) | Failure(error: E)
}
