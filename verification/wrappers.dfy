/** Rust's `Option`, as the token record and the literal node carry it. */
module Wrappers {

  datatype Option<+T> = None | Some(value: T)

}
