/** Ruby's `nil`: an attribute that holds a value or nothing. */
module Wrappers {
  datatype Option<+T> = None | Some(value: T)
}
