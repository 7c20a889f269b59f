/** Optional values and the outcome of an HTTP call.

    Every HTTP request of the front-end is replaced by the outcome it
    delivers to its subscriber: the response body, or an error whose body
    may carry a server `message`.
 */
module Wrappers {

  datatype Option<+T> = None | Some(value: T) {
    /** The value, or `default` when absent (the `??` operator). */
    function GetOr(default: T): T {
      match this
      case Some(v) => v
      case None => default
    }
  }

  /** What a subscriber receives: `next(value)` or `error(err)`, where
      `message` is `err.error?.message`. */
  datatype Outcome<+T> = Success(value: T) | Failure(message: Option<string>)

  /** `err.error?.message || fallback`: a missing or empty server message
      falls back to the caller's default text. */
  function MessageOr(message: Option<string>, fallback: string): (r: string)
    ensures message.Some? && message.value != "" ==> r == message.value
    ensures message.None? || message.value == "" ==> r == fallback
    ensures fallback != "" ==> r != ""
  {
    if message.Some? && message.value != "" then message.value else fallback
  }
}
