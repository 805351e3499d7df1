/** Shared vocabulary of the model: optional values, the exceptions the
    synchronisation code can raise, and the grid of string cells that both
    the lookup file and a worksheet hold. */
module Base {

  /** Python's `None` or a value. */
  datatype Option<T> = None | Some(value: T)

  /** The exceptions raised along the modelled paths. */
  datatype Error =
    | ValueError               // neither a title nor a key was given
    | SpreadsheetInaccessible  // the spreadsheet could not be opened
    | StopIteration            // next() on an exhausted iterator
    | UnboundLocalError        // a local variable read before it was assigned
    | LookupNotFound           // the lookup to import into has no path
    | ImportTargetMissing      // the destination file is missing and may not be created

  /** The outcome of an operation that may raise. */
  datatype Result<T> = Ok(value: T) | Err(error: Error)

  /** One line of a lookup file, or one row of a worksheet. */
  type Row = seq<string>

  /** A list of rows; rows may differ in length. */
  type Grid = seq<Row>

  /** Every row of `g` has exactly `width` cells. */
  predicate Rectangular(g: Grid, width: nat)
  {
    forall r :: 0 <= r < |g| ==> |g[r]| == width
  }
}
