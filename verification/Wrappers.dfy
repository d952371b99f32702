/** The optional value used wherever the program returns an `Option` or drops an error. */
module Wrappers {
  datatype Option<+T> = None | Some(value: T)
}
