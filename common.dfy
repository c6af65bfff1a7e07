/** Small shared datatypes: optional values, results of operations that can
    throw, and the PHP scalar values that option dictionaries and result
    records hold. */
module Common {

  /** A value that may be absent (PHP `null`). */
  datatype Option<+T> = None | Some(value: T) {
    function GetOr(default: T): T {
      match this
      case Some(v) => v
      case None => default
    }
  }

  /** The outcome of an operation that either returns a value or throws. */
  datatype Result<+R, +E> = Success(value: R) | Failure(error: E)

  /** A PHP scalar (the `mixed` values of option arrays and property records). */
  datatype Value = VNull | VBool(b: bool) | VInt(i: int) | VString(s: string)
}
