/** Option and Result wrappers, and the exceptions the filter code raises. */
module Outcomes {

  /** A value that may be absent, like a Python argument that defaults to None. */
  datatype Option<+T> = None | Some(value: T) {

    /** The wrapped value, or `default` when absent. */
    function GetOr(default: T): T {
      if Some? then value else default
    }
  }

  /** Either a value or the exception that stopped the computation. */
  datatype Result<+T> = Success(value: T) | Failure(error: FilterError)

  /**
   * The object a mutating method leaves behind, and the exception it raised
   * part way through, if any: assignments made before the exception stay.
   */
  datatype Outcome<+T> = Outcome(state: T, raised: Option<FilterError>)

  /** The exceptions the Python code raises on the paths the model covers. */
  datatype FilterError =
    | MissingCutoff    // TypeError: arithmetic on a cutoff frequency that is None
    | MissingEdge      // TypeError: a coefficient hook uses a passband edge that is None
    | DivisionByZero   // ZeroDivisionError
    | NotFinite        // OverflowError: `int()` of the infinite filter length a zero denominator gives
    | NotReady         // TypeError: `L` is still None, coefficients were never calculated
    | MissingLength    // TypeError: `range(None)` over a signal whose `Nx` is None
    | IndexOutOfRange  // IndexError
}
