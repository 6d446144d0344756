/** The option type used for values that may be absent, such as Go's zero time or a nil pointer. */
module Wrappers {
  datatype Option<+T> = None | Some(value: T) {
    function GetOr(default: T): T {
      if Some? then value else default
    }
  }
}
