/** Small value wrappers shared by the model: a nullable value (`null` in the
    React state hooks) and the outcome of an operation that can throw. */
module Common {

  /** A `useState<T | null>` slot: `None` stands for `null`. */
  datatype Option<T> = None | Some(value: T)

  /** The outcome of a step that either returns a value or throws an `Error`
      carrying a message. */
  datatype Result<T> = Ok(value: T) | Err(message: string)
}
