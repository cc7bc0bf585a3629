/** Option and Result, the two failure-carrying values the game code passes around
    (std::optional and the project's Result<T, E>). */
module Wrappers {

  datatype Option<+T> = None | Some(value: T)

  datatype Result<+T, +E> = Ok(value: T) | Err(error: E)
}
