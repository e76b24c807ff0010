/** Failure-compatible wrappers for the service layer: every service method
    either returns a value or throws an `HttpException` carrying a status
    and a short message. */
module Http {

  datatype Option<+T> = None | Some(value: T)

  /** The HTTP statuses the services throw. `ServerError` stands for a plain
      JavaScript exception (a TypeError, a library error) that the framework
      turns into a 500. */
  datatype Status = NotFound | Unauthorized | Unprocessable | BadRequest | ServerError

  function Code(s: Status): nat
  {
    match s
    case NotFound => 404
    case Unauthorized => 401
    case Unprocessable => 422
    case BadRequest => 400
    case ServerError => 500
  }

  datatype Error = Error(status: Status, message: string)

  datatype Result<+T> = Ok(value: T) | Err(error: Error) {

    predicate IsFailure() {
      Err?
    }

    function PropagateFailure<U>(): Result<U>
      requires Err?
    {
      Err(error)
    }

    function Extract(): T
      requires Ok?
    {
      value
    }
  }

  /** A successful state transition: the new store and the value handed back. */
  datatype Step<+D, +O> = Step(db: D, out: O)
}
