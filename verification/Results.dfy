/** Result types shared by every module. */
module Results {
  datatype Option<+T> = None | Some(value: T) {
    function GetOr(default: T): T {
      match this
      case Some(v) => v
      case None => default
    }
  }

  /** A value, or the error the C++ code would have thrown. */
  datatype Result<+T, +E> = Ok(value: T) | Err(error: E)
}
