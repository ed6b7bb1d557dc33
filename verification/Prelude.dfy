/** Optional values: the model of Go's nil-able pointers. */
module Prelude {

  datatype Option<+T> = None | Some(value: T)
}
