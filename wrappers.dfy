/** The conventional optional value, used for parse failures and for
    computations that end in an exception. */
module Wrappers {

  datatype Option<+T> = None | Some(value: T)
}
