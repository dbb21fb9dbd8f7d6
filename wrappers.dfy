/** Optional values and the outcome of an operation that can throw. */
module Wrappers {

  /** A value that may be absent (`null` / `undefined` in the program). */
  datatype Option<+T> = None | Some(value: T)

  /** The outcome of an operation that either returns a value or throws an
      `Error` whose `message` is the string carried by `Err`. */
  datatype Result<+T> = Ok(value: T) | Err(message: string)
}
