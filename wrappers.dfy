/** The optional value used by the decoders and the command-line parsers. */
module Wrappers {

  datatype Option<T> = None | Some(value: T)
}
