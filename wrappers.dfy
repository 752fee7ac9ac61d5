/** The optional value used wherever the C code uses a possibly-NULL pointer. */
module Wrappers {

  datatype Option<T> = None | Some(value: T)

}
