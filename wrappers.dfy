/** Option and Result, the two failure-carrying shapes used by the model. */
module Wrappers {

  /** A value that may be absent: Python's `Optional[...]`, with `None` for absent. */
  datatype Option<+T> = None | Some(value: T) {

    /** The value, or `default` when absent: Python's `x or default` for a number. */
    function GetOr(default: T): T
    {
      match this
      case Some(v) => v
      case None => default
    }
  }

  /** Either a value or the error the Python code would raise instead. */
  datatype Result<+R, +E> = Success(value: R) | Failure(error: E)
}
