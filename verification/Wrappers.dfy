/** The option type used for absent store entries and missing bounds. */
module Wrappers {
  datatype Option<+T> = None | Some(value: T)
}
