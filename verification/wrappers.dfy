/** The optional value used wherever the agent's services return `null`/`undefined`
    or take an optional argument. */
module Wrappers {

  datatype Option<+T> = None | Some(value: T) {

    /** The held value; `default` stands in when nothing is held. */
    function GetOr(default: T): T {
      match this
      case Some(v) => v
      case None => default
    }
  }
}
