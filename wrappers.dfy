/** The optional value that the Cache API's lookups resolve with (a response or undefined). */
module Wrappers {
  datatype Option<+T> = None | Some(value: T)
}
