/** Failure-aware result types shared by the whole model. */
module Wrappers {

  datatype Option<+T> = None | Some(value: T)

  datatype Result<+T, +E> = Ok(value: T) | Err(error: E)

  /** Why a cipher refused. `Panic` is a Go run-time panic inside the cipher. */
  datatype CipherError = BadKey | BadCiphertext | NotAuthentic | Panic
}
