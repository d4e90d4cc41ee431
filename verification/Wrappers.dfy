/** The option type the Rust sources use for absent values. */
module Wrappers {

  datatype Option<+T> = None | Some(value: T)
}
