/** The optional value used for parsed payloads and table lookups. */
module Wrappers {

  datatype Option<+T> = None | Some(value: T)
}
