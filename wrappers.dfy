/** The optional value used for the outcome of parsing an amount. */
module Wrappers {

  datatype Option<+T> = None | Some(value: T)
}
