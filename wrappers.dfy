/** Option, the model of a Go pointer or error that may be nil. */
module Wrappers {

  datatype Option<+T> = None | Some(value: T)
}
