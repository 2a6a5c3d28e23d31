/** The optional value used for PHP's nullable options and array lookups. */
module Wrappers {

  datatype Option<+T> = None | Some(value: T)
}
