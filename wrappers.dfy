/** An optional value: the model's stand-in for an argument that
    may be NULL. */
module Wrappers {

  datatype Option<+T> = None | Some(value: T)
}
