/** Outcomes shared by the strand checker: a value, or the exception that
    the scripts would raise and let abort the whole batch. */
module Results {

  /** The exceptions the core can raise. None of them is caught anywhere. */
  datatype Failure =
    | ZeroDivision   // a count total used as a divisor is zero
    | FileNotFound   // the FASTQ file to subsample does not exist
    | EndOfInput     // `next` ran past the last line of the FASTQ file

  datatype Option<T> = None | Some(value: T)

  datatype Result<T> = Ok(value: T) | Err(error: Failure) {

    predicate IsFailure() {
      Err?
    }

    function PropagateFailure<U>(): Result<U>
      requires Err?
    {
      Err(error)
    }

    function Extract(): T
      requires Ok?
    {
      value
    }
  }
}
