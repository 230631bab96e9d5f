/** The optional value used wherever the firmware has a "no value" case:
    a missing map entry, a rejected frame, an absent configuration. */
module Wrappers {

  datatype Option<+T> = None | Some(value: T)
  {
    /** The wrapped value, or `default` when there is none. */
    function GetOr(default: T): T
    {
      match this
      case Some(v) => v
      case None => default
    }
  }
}
