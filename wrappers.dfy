/** The optional value used for C's null pointers and for absent format
    widths. */
module Wrappers {

  datatype Option<+T> = None | Some(value: T)
}
