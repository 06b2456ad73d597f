/** The optional value returned by a parser that may fail. */
module Wrappers {

  datatype Option<+T> = None | Some(value: T)
}
