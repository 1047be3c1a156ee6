/** Optional values and results, the model of JavaScript's `null`/`undefined` and of `{ data } | { error }` returns. */
module Wrappers {

  datatype Option<+T> = None | Some(value: T) {

    /** The value, or `default` when there is none (`x ?? default`). */
    function GetOr(default: T): T
    {
      match this
      case Some(v) => v
      case None => default
    }
  }

  /** `{ data: value }` or `{ error }`. */
  datatype Result<+T, +E> = Ok(value: T) | Err(error: E)
}
