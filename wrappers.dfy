/** Optional values and results with an error, as used by both checkout evaluators. */
module Wrappers {

  /** A value that may be absent (an undefined or null field in the host's payload). */
  datatype Option<+T> = None | Some(value: T) {

    /** The value when present, otherwise `default` (the `??` operator). */
    function GetOr(default: T): T {
      match this
      case Some(v) => v
      case None => default
    }

    /** The value as a one-element sequence, or the empty sequence. */
    function ToSeq(): (s: seq<T>)
      ensures |s| <= 1
    {
      match this
      case Some(v) => [v]
      case None => []
    }
  }

  /** The outcome of an evaluation that may raise instead of returning. */
  datatype Result<+R, +E> = Success(value: R) | Failure(error: E)
}
