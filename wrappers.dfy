/** The optional value that the site's lookups return where the source yields `undefined`. */
module Wrappers {
  datatype Option<+T> = None | Some(value: T)
}
