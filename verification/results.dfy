/** Reply and option datatypes shared by every command handler. */
module Results {

  /** A command's reply: success text or error text (Rust `Result<String, String>`). */
  datatype Result = Ok(value: string) | Err(error: string)

  /** The reply of a handler together with the keyspace it leaves behind. */
  datatype Step<S> = Step(result: Result, state: S)

  datatype Option<T> = None | Some(value: T)
}
