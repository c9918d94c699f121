/** The exceptions the generator can raise, modelled as values. */
module Outcomes {

  /** One constructor per exception the core raises or lets propagate. */
  datatype Error =
    | SampleLargerThanPopulation  // random.sample: ValueError when the sample is larger than the population
    | NonHexadecimal              // bytearray.fromhex: ValueError on an odd digit count or a non-hex character
    | EmptySequence               // random.choice: IndexError on an empty list

  /** A value, or the exception that was raised instead; failure-compatible, so `:-` propagates errors. */
  datatype Result<+T> = Ok(value: T) | Err(error: Error) {

    predicate IsFailure() {
      Err?
    }

    function PropagateFailure<U>(): Result<U>
      requires Err?
    {
      Err(error)
    }

    function Extract(): T
      requires Ok?
    {
      value
    }
  }
}
