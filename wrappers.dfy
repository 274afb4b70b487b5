/** The optional-value datatype used for "absent" lookups and for raised errors. */
module Wrappers {

  datatype Option<+T> = None | Some(value: T)
}
