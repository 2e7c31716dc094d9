/** Failure-compatible result type shared by the prompt generator.
    Every exception the generator can raise on its way to the catch-all
    handler of the batch orchestrator is one constructor of `Error`. */
module Outcomes {

  datatype Error =
    | WrongSegmentCount   // the input does not split into four `|` segments
    | NotAnInteger        // the count segment is not an integer literal
    | EmptyRandRange      // randint(min, max) with min > max
    | IndexError          // characters[-1] on an empty grouping
    | ZeroDivision        // i % len(characters) with no characters

  datatype Result<+T> = Ok(value: T) | Err(error: Error) {
    predicate IsFailure() { Err? }

    function PropagateFailure<U>(): Result<U>
      requires Err?
    {
      Err(error)
    }

    function Extract(): T
      requires Ok?
    {
      value
    }
  }

  datatype Option<+T> = None | Some(value: T)
}
