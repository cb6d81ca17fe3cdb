/** The error values of dkfs and the result type that carries them. */
module Results {

  datatype Option<+T> = None | Some(value: T)

  /** The source's errors; `Io` is an `IoError` of a stream that ends early. */
  datatype DkError =
    | Corrupted | Io | Exhausted | NotFound | NotEmpty | NotDirectory | AlreadyExists | NameTooLong | InvalidInput

  /** `DkResult<T>`; usable with `:-`. */
  datatype DkResult<+T> = Ok(value: T) | Err(error: DkError) {

    predicate IsFailure() {
      Err?
    }

    function PropagateFailure<U>(): DkResult<U> {
      if Err? then Err(error) else Err(Corrupted)
    }

    function Extract(): T
      requires Ok?
    {
      value
    }
  }
}
