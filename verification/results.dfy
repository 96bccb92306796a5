/** Optional values and success-or-error results.

    A field of a JSON request body that may be absent is an `Option`; a step
    of request handling that can reject its input returns a `Result`.
 */
module Results {

  /** A value that may be absent, as an undefined field of a JSON body. */
  datatype Option<+T> = None | Some(value: T) {

    /** The value if present, the default otherwise. */
    function GetOr(default: T): T {
      match this
      case Some(v) => v
      case None => default
    }
  }

  /** The outcome of a step that either produces a value or rejects with an error. */
  datatype Result<+T, +E> = Ok(value: T) | Err(error: E)
}
