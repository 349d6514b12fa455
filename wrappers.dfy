/** The optional value used wherever the program tests a value for `None`. */
module Wrappers {
  datatype Option<+T> = None | Some(value: T)
}
