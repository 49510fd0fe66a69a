/** An optional value, for Python's `None` and Rust's `Option`. */
module Options {

  datatype Option<+T> = None | Some(value: T) {

    /** The value, or `default` when there is none (Rust's `unwrap_or`). */
    function GetOr(default: T): T {
      match this
      case Some(v) => v
      case None => default
    }

    /** The value as a one-element sequence, or the empty sequence when there is none. */
    function Elements(): (r: seq<T>)
      ensures |r| <= 1 && (Some? <==> r != [])
      ensures Some? ==> r[0] == value
    {
      if Some? then [value] else []
    }
  }
}
