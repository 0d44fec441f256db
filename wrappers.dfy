/** Optional values (Java's nullable references) and results carrying a failure
    (Java's checked and unchecked exceptions). */
module Wrappers {

  datatype Option<+T> = None | Some(value: T)

  datatype Result<+T, +E> = Ok(value: T) | Err(error: E)
}
