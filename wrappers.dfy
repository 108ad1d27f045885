/** The optional value used for C's nullable pointers (a NULL
    component tag, an unset environment variable, no custom writer). */
module Wrappers {
  datatype Option<+T> = None | Some(value: T)
}
