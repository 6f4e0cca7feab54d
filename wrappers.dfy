/** The optional-value datatype used for lookups that may find nothing
    (a missing map entry, a JavaScript `null` result). */
module Wrappers {

  datatype Option<+T> = None | Some(value: T)
}
