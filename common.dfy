/** Failure-carrying wrappers shared by both nodes. */
module Common {

  /** A value that may be absent: a missing JSON key, a failed decode. */
  datatype Option<+T> = None | Some(value: T) {
    /** The value, or `default` when absent (Python's `dict.get(key, default)`). */
    function GetOr(default: T): T {
      match this
      case Some(v) => v
      case None => default
    }
  }

  /** The outcome of one HTTP exchange as the caller sees it: the parsed JSON body,
      or a failure (connection error, error status, unparsable body), which the
      source catches as `requests.exceptions.RequestException`. */
  datatype Reply<+T> = Success(body: T) | Failure
}
