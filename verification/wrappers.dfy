/** The JavaScript `null`/`undefined`-or-value shape used throughout the code base. */
module Wrappers {

  /** `None` stands for a missing (`undefined` or `null`) value. */
  datatype Option<+T> = None | Some(value: T) {

    /** The value, or `default` when missing (the `??` operator). */
    function GetOr(default: T): T {
      match this
      case Some(v) => v
      case None => default
    }
  }
}
