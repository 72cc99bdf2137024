/** The optional value used for lookups and line parsers that may produce nothing. */
module Wrappers {

  datatype Option<+T> = None | Some(value: T)
}
