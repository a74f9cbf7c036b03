/** Absent values and fallible results, used wherever the Python code returns None or raises. */
module Wrappers {

  /** `None` stands for Python's None or for a dictionary key that is absent. */
  datatype Option<+T> = None | Some(value: T) {

    /** `d.get(key, default)`: the value if present, else the default. */
    function GetOr(default: T): T {
      match this
      case Some(v) => v
      case None => default
    }
  }

  /** A value, or the error the Python code would raise instead. */
  datatype Result<+R, +E> = Success(value: R) | Failure(error: E)
}
