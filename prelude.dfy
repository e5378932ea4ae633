/** The two standard sum types the engine is written with: an optional slot and a fallible result. */
module Prelude {

  /** An engine slot that may or may not have been set. */
  datatype Option<T> = None | Some(value: T)

  /** The outcome of a computation: a value, or an error carried as data. */
  datatype Result<T, E> = Ok(value: T) | Err(error: E)
}
