/** The optional value used where the program returns a match object or nothing. */
module Wrappers {
  datatype Option<+T> = None | Some(value: T)
}
