/** Optional values, shared by the models of the framework's components. */
module Wrappers {
  datatype Option<+T> = None | Some(value: T)
}
