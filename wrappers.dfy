/** Option and Result: the two failure-carrying values the model uses in place of
    Python's `None` and of exceptions. */
module Wrappers {

  /** A value that may be missing: a dict key that is absent, or a function that returned `None`. */
  datatype Option<+T> = None | Some(value: T) {

    /** Python's `d.get(key, default)`: the value when present, the default otherwise. */
    function GetOr(default: T): T {
      match this
      case Some(v) => v
      case None => default
    }
  }

  /** The outcome of a call that may raise: `Ok(value)`, or `Fail(msg)` where `msg` is `str(e)`
      of the exception that was raised. */
  datatype Result<+T> = Ok(value: T) | Fail(msg: string)
}
