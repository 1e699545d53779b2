/** An optional value: `None` stands for JavaScript's `null`/`undefined` where
    the components only distinguish "present" from "absent". */
module Wrappers {

  datatype Option<+T> = None | Some(value: T) {

    /** Returns the value held in Some, or `default` when None */
    function GetOr(default: T): T {
      match this
      case Some(v) => v
      case None => default
    }
  }
}
