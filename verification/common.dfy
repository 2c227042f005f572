/** Small failure-carrying datatypes shared by every module of the model. */
module Common {

  /** A value that may be absent: JavaScript's `null`/`undefined` or a missing cache key. */
  datatype Option<+T> = None | Some(value: T) {

    /** The wrapped value, or `default` when absent (JavaScript's `x ?? default`). */
    function GetOr(default: T): (r: T)
      ensures Some? ==> r == value
      ensures None? ==> r == default
    {
      match this
      case Some(v) => v
      case None => default
    }
  }

  /** The outcome of a call into a hosted service: a value, or the message of the thrown error. */
  datatype Result<+T> = Ok(value: T) | Err(message: string)
}
