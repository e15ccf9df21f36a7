/** The optional value used for parser results and for the optional parts of a response. */
module Wrappers {

  datatype Option<+T> = None | Some(value: T)
}
