/** The optional value used for nullable pointers and "may fail" lookups throughout the model. */
module Wrappers {

  datatype Option<+T> = None | Some(value: T)
}
