/** The optional value used throughout the model: a dictionary lookup that may
    miss, an int() conversion that may fail, a URL that may be rejected. */
module Options {

  datatype Option<+T> = None | Some(value: T) {

    /** The wrapped value, or `default` when there is none. */
    function GetOr(default: T): T {
      match this
      case Some(v) => v
      case None => default
    }
  }
}
