/** The optional value used wherever the source returns `None` or reads a key that may be absent. */
module Options {

  datatype Option<+T> = None | Some(value: T) {

    /** Returns the value held in Some, or `default` when None (Python's `d.get(key, default)`). */
    function GetOr(default: T): T {
      match this
      case Some(v) => v
      case None => default
    }
  }
}
