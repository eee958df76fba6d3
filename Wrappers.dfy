/** The optional value used wherever the source has a nullable reference or an optional callback. */
module Wrappers {

  datatype Option<+T> = None | Some(value: T)
}
