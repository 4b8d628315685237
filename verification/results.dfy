/** Optional values and the error outcomes of the task service. */
module Results {

  /** A value that may be missing (Python's `Optional[...]` / `None`). */
  datatype Option<+T> = None | Some(value: T) {

    /** The carried value, or `default` when there is none. */
    function GetOr(default: T): T
    {
      match this
      case Some(v) => v
      case None => default
    }
  }

  /** Why a request fails: the task id is unknown to the caller's collection (HTTP 404),
      the payload is rejected by field validation (HTTP 422), or an uncaught
      exception escapes the handler (HTTP 500). */
  datatype Error = NotFound | ValidationError | InternalError

  /** The outcome of an operation that may fail. */
  datatype Result<+T> = Ok(value: T) | Err(error: Error)
}
