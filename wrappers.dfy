/** An optional value: the DOM's `null` for a missing attribute or an empty storage slot. */
module Wrappers {

  datatype Option<+T> = None | Some(value: T)
}
