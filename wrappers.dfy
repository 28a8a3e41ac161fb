/**
 * Optional values (a JavaScript `null`/`undefined` or a present value), the
 * response of a backend query, and the way an async function ends.
 */
module Wrappers {

  datatype Option<+T> = None | Some(value: T) {

    /** The value, or `default` when absent (the `x || d` / `x ?? d` idiom). */
    function GetOr(default: T): T {
      match this
      case Some(v) => v
      case None => default
    }
  }

  /** A backend response whose `error` the caller checks: an error, or data that may be null. */
  datatype Fetch<+T> = Failed | Fetched(data: Option<T>)

  /** How an async function ends: it throws, or it returns a value. */
  datatype Outcome<+T> = Threw | Returned(value: T)
}
