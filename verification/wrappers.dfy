/** Optional values and success/failure results, used wherever the
    TypeScript source has `T | undefined`, `T | null` or a thrown error. */
module Wrappers {

  /** An optional value: the source's `field?: T` and `T | null`. */
  datatype Option<+T> = None | Some(value: T) {

    /** The `??` operator: the value when present, otherwise the default. */
    function GetOr(default: T): T {
      match this
      case Some(v) => v
      case None => default
    }
  }

  /** The outcome of an operation that can fail with an error value. */
  datatype Result<+R, +E> = Ok(value: R) | Err(error: E)
}
