/** Failure-carrying wrappers used throughout the model: `Option` for Python's
    `None`-or-value and `Result` for an operation that may raise. */
module Results {

  /** A Python value that may be `None`. */
  datatype Option<+T> = None | Some(value: T) {

    /** `x if x is not None else fallback`. */
    function ValueOr(fallback: T): T
    {
      match this
      case None => fallback
      case Some(x) => x
    }
  }

  /** The outcome of a call that either returns or raises. */
  datatype Result<+T, +E> = Ok(value: T) | Err(error: E)
}
