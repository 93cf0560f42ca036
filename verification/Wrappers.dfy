/** An optional value: the `undefined`, `null` or NULL results of the sources. */
module Wrappers {
  datatype Option<+T> = None | Some(value: T)
}
