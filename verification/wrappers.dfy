/** The optional-value datatype used for fallible conversions and lookups. */
module Wrappers {

  datatype Option<+T> = None | Some(value: T)
}
