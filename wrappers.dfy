/** Outcome types shared by every stage of the processing pipeline. */
module Wrappers {

  datatype Option<+T> = None | Some(value: T) {
    function GetOr(default: T): T {
      match this
      case Some(v) => v
      case None => default
    }
  }

  /** The three datasets the processor keeps after processing a workbook sheet. */
  datatype Dataset = Ads | Stock | MinTarget

  /** The conditions under which the processor raises instead of returning a value. */
  datatype Error =
    | NotLoaded                        // no workbook has been loaded
    | NoMatchingSheet(role: Dataset)   // no sheet name contains a keyword of the role
    | UnknownSheet(name: string)       // an explicitly requested sheet does not exist
    | DuplicateColumn(name: string)    // two columns end up with the same label
    | NotProcessed(dataset: Dataset)   // a later stage needs a dataset that was never processed
    | MissingColumn(column: string)    // a column the stage reads is absent
    | NonNumericColumn(column: string) // a column used in arithmetic is not numeric

  datatype Result<+T> = Ok(value: T) | Err(error: Error) {
    predicate IsFailure() {
      Err?
    }

    function PropagateFailure<U>(): Result<U>
      requires Err?
    {
      Err(error)
    }

    function Extract(): T
      requires Ok?
    {
      value
    }
  }
}
