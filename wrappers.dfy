/** Option and Result values, and the error kinds the pipeline can raise. */
module Wrappers {

  datatype Option<+T> = None | Some(value: T) {
    function GetOr(default: T): T {
      match this
      case Some(v) => v
      case None => default
    }
  }

  datatype Result<+R, +E> = Success(value: R) | Failure(error: E) {
    predicate IsFailure() { Failure? }

    function PropagateFailure<U>(): Result<U, E>
      requires Failure?
    {
      Failure(error)
    }

    function Extract(): R
      requires Success?
    {
      value
    }
  }

  /** The exceptions raised along the pipeline, one constructor per cause. */
  datatype Error =
    | UnknownAlgorithm(algorithm: string)        // EdgeBuilder.__init__
    | UnknownMetric(metric: string)              // EdgeBuilder.__init__
    | DimensionMismatch(expected: nat, actual: nat)
    | MissingKey(key: string)                    // a required key or feature is absent (KeyError, or ValueError from the feature check)
    | UnexpectedKeywords(keywords: set<string>)  // TypeError on unknown **kwargs entries
    | MissingArgument(argument: string)          // TypeError on a missing positional argument
    | BadArgument(argument: string)              // an argument the callee cannot use: wrong type, or k < 1 for the kNN query
    | EmptyReduction                             // np.max of an empty array
    | NothingToStack                             // np.stack of an empty list
    | ShapeMismatch                              // arrays of different lengths combined
    | RequirementsNotMet                         // check_data_requirements returned False on event_0
    | InvalidEventName(name: string)             // int() of a non-numeric event suffix
    | OracleFailure                              // a foreign library (scipy, torch) raised
    | DivisionByZero
    | NotADictionary(field: string)              // a value used as a mapping is not one (.get, `in` or indexing raises)
    | MaskFailure                                // a selection's get_mask raised or had the wrong length
    | UnboundName(name: string)                  // UnboundLocalError on a conditionally imported module
    | InvalidValue(argument: string)             // ValueError on an argument out of range
}
