/** Results, options and the exceptions the modelled Python code can raise. */
module Outcomes {

  /** The exceptions reachable on the modelled paths of the two scripts. */
  datatype Error =
    | ZeroDivision          // `timedelta % timedelta(minutes=0)` inside ceil_dt
    | UnknownConfigKey      // the unknown-key assertion at the top of prep_work_ranges
    | WindowAssertion       // the `start <= end` / `start < end` assertion in prep_work_ranges
    | KeyError(key: string) // a configuration key that is read but missing
    | TypeError             // a configuration value of the wrong shape
    | IndexError            // `day_ranges[0]` when print_ranges gets no ranges
    | ValueError            // `int()` of a string that is not a decimal integer

  datatype Option<+T> = None | Some(value: T)

  /** A value, or the exception that aborted the computation. Usable with `:-`. */
  datatype Result<+T> = Ok(value: T) | Err(error: Error) {

    predicate IsFailure() {
      Err?
    }

    function PropagateFailure<U>(): Result<U>
      requires Err?
    {
      Err(error)
    }

    function Extract(): T
      requires Ok?
    {
      value
    }
  }
}
