/** Error values standing for the exceptions the engine throws, and the
    failure-compatible Result type every throwing operation returns. */
module Wrappers {

  /** The part of a saved model a missing line was expected to hold. */
  datatype Section = LayerCount | LayerSizes | Weights | Biases | ActivationName

  /** One constructor per kind of exception the engine raises. */
  datatype Error =
    | SizeMismatch          // operand or initialisation sizes disagree
    | IndexOutOfRange       // an indexer or array access outside its bounds
    | NegativeSize          // an array allocated with a negative length
    | UnknownActivation     // an activation tag that is not recognised
    | MissingLine(section: Section)  // the model file ends too early
    | BadNumber             // a token the number format cannot parse
    | MissingKey            // a label-map lookup of an absent key

  datatype Result<+T> = Ok(value: T) | Err(error: Error) {

    predicate IsFailure() {
      Err?
    }

    function PropagateFailure<U>(): Result<U>
      requires Err?
    {
      Err(error)
    }

    function Extract(): T
      requires Ok?
    {
      value
    }
  }

  /** The result of an operation that only changes state. */
  type Outcome = Result<()>

  const Done: Outcome := Ok(())
}
