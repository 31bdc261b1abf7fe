/** The optional-value datatype used for lookups that may find nothing and
    for a network response that may not arrive. */
module Wrappers {

  datatype Option<+T> = None | Some(value: T)
}
