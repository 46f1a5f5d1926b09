/** The optional value that stands in for JavaScript's `null` return. */
module Wrappers {
  datatype Option<+T> = None | Some(value: T)
}
