/** Option and Result values, and the failures the pipeline raises. */
module Wrappers {

  datatype Option<+T> = None | Some(value: T) {
    function GetOr(default: T): T {
      match this
      case Some(v) => v
      case None => default
    }
  }

  /** The exceptions the pipeline raises, by cause. */
  datatype Fault =
    | MissingColumn(name: string)   // pandas KeyError on a column lookup
    | NoSamples                     // sklearn or Keras refuses input with zero samples
    | NoFeatures                    // sklearn refuses a matrix with zero columns
    | NotFitted                     // the scaler is read before any successful fit
    | ModelNotLoaded                // no trained regressor is bound
    | BadReshape                    // numpy cannot reshape the window to the model's input
    | IncompatibleInput             // Keras refuses an input not shaped as the network was built
    | EmptyIndex                    // indexing the last/first element of an empty sequence
    | NothingToConcatenate          // pd.concat of an empty list
    | MissingToInt                  // int() of a missing (NaN) value
    | EmptyDateRange                // pd.date_range between the dates of an empty table

  datatype Result<+T> = Ok(value: T) | Err(error: Fault) {
    predicate IsFailure() { Err? }
    function PropagateFailure<U>(): Result<U>
      requires Err?
    {
      Err(error)
    }
    function Extract(): T
      requires Ok?
    {
      value
    }
  }
}
