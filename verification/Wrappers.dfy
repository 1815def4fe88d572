/** The Option datatype, used for Go's nil pointers, nil slices and nil maps and for absent cluster objects. */
module Wrappers {
  datatype Option<+T> = None | Some(value: T) {
    function GetOr(default: T): T {
      if Some? then value else default
    }
  }
}
