/** The optional value used wherever a lookup may find nothing. */
module Wrappers {

  datatype Option<T> = None | Some(value: T)
}
