/** The optional value used for JavaScript's `null` / `undefined` slots and fields. */
module Wrappers {

  datatype Option<+T> = None | Some(value: T)
}
