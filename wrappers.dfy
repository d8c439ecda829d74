/** A value that may be missing: JavaScript's `undefined`, an optional
    field, a focus move that may not happen. */
module Wrappers {
  datatype Option<T> = None | Some(value: T)
}
