/** The option type used wherever the source has a nullable column or a nil pointer. */
module Wrappers {
  datatype Option<+T> = None | Some(value: T)
}
