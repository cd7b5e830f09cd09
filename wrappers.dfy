/** Optional values and results with an error, as the rest of the model uses them. */
module Wrappers {

  /** A value that may be missing: Python's None, or an empty/NaN table cell. */
  datatype Option<+T> = None | Some(value: T) {

    /** The value, or `default` when missing. */
    function GetOr(default: T): T {
      match this
      case Some(v) => v
      case None => default
    }
  }

  /** The outcome of an operation whose Python original raises on some inputs. */
  datatype Result<+T, +E> = Ok(value: T) | Err(error: E)
}
