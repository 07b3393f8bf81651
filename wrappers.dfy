/** The optional value used wherever the source returns `null`, leaves a field
    `undefined`, or falls back to a default. */
module Wrappers {

  datatype Option<+T> = None | Some(value: T)
}
