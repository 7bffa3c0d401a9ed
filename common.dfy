/** Failure-carrying values shared by every module: the source signals errors by
    throwing `new Error(message)`, which the model returns as `Err(message)`. */
module Common {

  /** A value that may be absent (`null` / `undefined` in the source). */
  datatype Option<+T> = None | Some(value: T)

  /** The outcome of an operation that either returns a value or throws an
      `Error` carrying a message. */
  datatype Result<+T> = Ok(value: T) | Err(message: string)

  /** JavaScript truthiness of an optional string: `null`, `undefined` and `''`
      are falsy. */
  predicate Truthy(s: Option<string>)
  {
    s.Some? && s.value != ""
  }
}
