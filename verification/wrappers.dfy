/** Option type standing for a possibly-null pointer. */
module Wrappers {

  /** `None` is the null pointer; `Some(v)` points at the object `v`. */
  datatype Option<+T> = None | Some(value: T)
}
