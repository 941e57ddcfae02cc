/** Optional values and success-or-error results, used for the source's
    `undefined`/`null` values and its thrown errors. */
module Wrappers {

  datatype Option<+T> = None | Some(value: T) {
    /** The wrapped value, or `default` when there is none. */
    function GetOr(default: T): T {
      if Some? then value else default
    }
  }

  datatype Result<+T, +E> = Success(value: T) | Failure(error: E)
}
