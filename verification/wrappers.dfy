/** An optional value: a missing map entry, a nil pointer or an unset timestamp of the source. */
module Wrappers {
  datatype Option<+T> = None | Some(value: T)
}
