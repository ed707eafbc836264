/** The Some/None datatype used for values that may be absent (JavaScript's null). */
module Wrappers {

  datatype Option<+T> = None | Some(value: T)
}
