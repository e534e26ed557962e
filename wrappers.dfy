/** The optional value used for Go's `error` results and for a computation that panics. */
module Wrappers {
  datatype Option<+T> = None | Some(value: T)
}
