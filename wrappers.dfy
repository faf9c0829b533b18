/** Option and Result types shared by every module, and the failures the
    modelled PHP code can raise. */
module Wrappers {

  datatype Option<+T> = None | Some(value: T)

  /** The exceptions and errors the modelled code raises. */
  datatype Failure =
    | TooFewFields            // a date string with fewer than three '/' fields: the list destructuring reads a missing array key
    | UnhandledMatch          // a `match` expression with no arm for its subject
    | NoSuchPreset(tag: string)  // JalaliDateRangePreset::from on an unknown tag (ValueError)
    | AllTimeNeedsStart       // fromPreset(AllTime)
    | UninitializedPreset     // reading the typed `preset` property before it was assigned
    | UndefinedKey(key: string)  // reading a missing array key: a warning the framework raises as an ErrorException
    | UndefinedIndex(index: int) // the same warning for a missing integer key of a list

  datatype Result<+T> = Ok(value: T) | Err(error: Failure) {
    predicate IsFailure() { Err? }
    function PropagateFailure<U>(): Result<U>
      requires Err?
    {
      Err(error)
    }
    function Extract(): T
      requires Ok?
    {
      value
    }
  }
}
