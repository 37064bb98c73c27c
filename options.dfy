/** A value that may be absent: JavaScript's `null`/`undefined` next to a present value. */
module Options {

  datatype Option<T> = None | Some(value: T) {

    /** The present value, or `default` when absent (the `x ?? default` idiom). */
    function GetOr(default: T): T {
      match this
      case Some(v) => v
      case None => default
    }
  }
}
