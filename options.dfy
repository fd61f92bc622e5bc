/** The optional value used for absent or null JSON fields and for failed lookups. */
module Options {
  datatype Option<+T> = None | Some(value: T) {
    /** The wrapped value, or the default when absent (Python's `x or default` on a non-falsy x). */
    function GetOr(default: T): T {
      match this
      case Some(v) => v
      case None => default
    }
  }
}
