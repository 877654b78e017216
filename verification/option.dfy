/** A value that may be absent; the decoder yields `None` for a report it rejects. */
module Optional {

  datatype Option<+T> = None | Some(value: T) {

    /** The held value, falling back to `default` when there is none. */
    function GetOr(default: T): T {
      match this
      case Some(v) => v
      case None => default
    }
  }
}
