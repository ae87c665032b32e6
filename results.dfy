/** Optional values, and the outcome of an operation that may throw. */
module Results {

  /** An optional value: `None` stands for JavaScript's `undefined` result. */
  datatype Option<+T> = None | Some(value: T)

  /** What a thrown JavaScript exception carries: a plain `Error` or a `TypeError`. */
  datatype Failure =
    | Error(message: string)
    | TypeError(message: string)
  {
    /** The exception's `message` property. */
    function Message(): string {
      match this
      case Error(m) => m
      case TypeError(m) => m
    }
  }

  /** Either a value, or the exception an operation threw. */
  datatype Result<+T> = Ok(value: T) | Err(error: Failure)
}
