/**
  The optional value the decoders, the reverse address lookup and the
  transaction parser return when their input may name nothing.
 */
module Wrappers {

  datatype Option<+T> = None | Some(value: T)
}
