/** The optional-value datatype used for values the source types as `T | null`. */
module Wrappers {

  datatype Option<+T> = None | Some(value: T)
}
