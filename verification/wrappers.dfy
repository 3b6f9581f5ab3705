/** The optional value used wherever the source yields `null`, a failed
    regular-expression match or `NaN`. */
module Wrappers {

  datatype Option<+T> = None | Some(value: T) {

    /** The value, or `default` when there is none: the source's `x || default`
        when the only falsy outcome of `x` is the missing one. */
    function GetOr(default: T): T
    {
      match this
      case Some(v) => v
      case None => default
    }
  }
}
