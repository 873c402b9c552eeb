/** The optional value used by the reader for "no comment marker" and
    "the stream is exhausted". */
module Wrappers {

  datatype Option<+T> = None | Some(value: T)
}
