/** The two result shapes used throughout: a lookup that may find nothing, and
    an operation that may refuse. */
module Wrappers {

  datatype Option<+T> = None | Some(value: T)

  datatype Result<+T, +E> = Ok(value: T) | Err(error: E)

  /** An injective stand-in for a SHA-256 digest: equal digests, equal content. */
  datatype Digest<+T> = Sha256(content: T)
}
