/** The optional value used for JavaScript's `false`/`undefined` stand-ins. */
module Wrappers {

  datatype Option<+T> = None | Some(value: T)
}
