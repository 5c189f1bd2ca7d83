/** Optional values and results: Python's `None` and raised exceptions, made explicit. */
module Options {

  datatype Option<+T> = None | Some(value: T) {
    /** The value, or `default` when absent (Python's `x if x is not None else default`). */
    function GetOr(default: T): T {
      match this
      case Some(v) => v
      case None => default
    }
  }

  /** The outcome of a Python call that can raise: `Ok(value)` or `Raised(message)`, where
      `message` is the exception's `str(e)`, the text the worker hands to its error signal.
      Where Python builds that text from the input, `message` is its fixed start; where the
      text depends on which internal check failed (Base64, UTF-8) or on the Python version
      (division by zero), `message` is the exception's class name. */
  datatype Result<+T> = Ok(value: T) | Raised(message: string)
}
