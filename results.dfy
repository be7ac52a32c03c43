/** The two error kinds a RAML method construction can raise, and the
    Option/Result wrappers the validators return instead of raising. */
module Results {

  datatype Option<+T> = None | Some(value: T)

  /** `InvalidMethod` carries the rejected verb; `InvalidProperty` carries the
      name of the offending property, so that a caller can match on it. */
  datatype Error =
    | InvalidMethod(name: string)
    | InvalidProperty(property: string)

  datatype Result<+T> = Ok(value: T) | Err(error: Error) {

    predicate IsFailure() {
      Err?
    }

    function PropagateFailure<U>(): Result<U>
      requires Err?
    {
      Err(error)
    }

    function Extract(): T
      requires Ok?
    {
      value
    }
  }
}
