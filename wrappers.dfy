/** Optional values, results and outcomes shared by every module.
    `Error` names the C++ exception class (or the undefined behaviour) that the
    simulation raises on a path; the model returns it instead of throwing. */
module Wrappers {

  datatype Option<T> = None | Some(value: T)

  /** The exception kinds the core raises, plus the paths on which the C++ code
      has undefined behaviour and the model stops instead. */
  datatype Error =
    | InvalidArgument   // std::invalid_argument
    | RuntimeError      // std::runtime_error
    | OverflowError     // std::overflow_error
    | UndefinedBehaviour
    | NotANumber        // a float computation that yields NaN

  datatype Result<T> = Ok(value: T) | Err(error: Error)

  datatype Outcome = Pass | Fail(error: Error)
}
