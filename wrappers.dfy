/** Failure-compatible result types for the model's error paths. */
module Wrappers {

  /** Why an operation of the pipeline gave up.  Each case stands for a Java
      exception raised by the source before it could produce its result. */
  datatype Error =
    | NoSamples          // `samples[0]` / `bob[0]` on an empty array
    | TooManySeries      // a sample has more variates than the first one: the output array overflows

  datatype Option<+T> = None | Some(value: T)

  datatype Result<+T> = Ok(value: T) | Err(error: Error)

  datatype Outcome = Pass | Fail(error: Error)
}
