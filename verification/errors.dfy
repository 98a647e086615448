/**
 * Error values shared by the model.
 *
 * The library aborts (`assert`) or throws (`std::map::at`) when a caller breaks
 * a structural rule. The model makes each of those exits an explicit error value
 * instead, so that contracts can say exactly when they happen.
 */
module Errors {

  /** The kinds of fail-fast exit the core can take. */
  datatype Failure =
    | InvalidArgument  // size mismatch, empty input or a missing group key
    | IllegalState     // predicting before fitting, comparing a fitted model
    | InvalidResult    // a model implementation returned a wrongly sized prediction

  datatype Option<+T> = None | Some(value: T)

  datatype Result<+T> = Ok(value: T) | Err(error: Failure)

  /** The outcome of an operation that returns nothing (`void` in the library). */
  datatype Outcome = Pass | Fail(error: Failure)
}
