/** Rust's `Option`. */
module Wrappers {

  datatype Option<T> = None | Some(value: T) {

    /** The wrapped value, or `default` when there is none (Rust's `unwrap_or`). */
    function UnwrapOr(default: T): T {
      match this
      case Some(v) => v
      case None => default
    }
  }
}

/** Rust's `Result`, for the parts of the model whose errors have no third outcome. */
module Results {

  datatype Result<T, E> = Ok(value: T) | Err(error: E)
}
