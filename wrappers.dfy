/** The optional value used for "which waiter, if any, was released". */
module Wrappers {

  datatype Option<+T> = None | Some(value: T)
}
