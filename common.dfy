/** Small shared wrapper types. */
module Common {

  /** A value that may be absent (JavaScript `undefined`, or a falsy payload field). */
  datatype Option<T> = None | Some(value: T) {

    /** The value, or `default` when absent (the `x || default` idiom). */
    function GetOr(default: T): (r: T)
      ensures Some? ==> r == value
      ensures None? ==> r == default
    {
      match this
      case Some(v) => v
      case None => default
    }
  }
}
