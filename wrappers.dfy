/** The optional value used for Python operations that may raise. */
module Wrappers {

  datatype Option<+T> = None | Some(value: T)

}
