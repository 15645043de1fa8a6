/** A C# reference that may be null, as a value. */
module Wrappers {

  datatype Option<+T> = None | Some(value: T) {

    /** The value, or a default when null. */
    function GetOr(default: T): T {
      match this
      case Some(v) => v
      case None => default
    }
  }
}
