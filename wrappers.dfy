/** Optional values and failure results, the model's stand-in for JavaScript's
    `undefined`/`null` and for rejected promises. */
module Wrappers {

  datatype Option<+T> = None | Some(value: T) {
    /** The value, or `default` when there is none. */
    function GetOr(default: T): T {
      match this
      case Some(v) => v
      case None => default
    }
  }

  datatype Result<+T> = Ok(value: T) | Failure(message: string)
}
