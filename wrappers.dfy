/** Option, Result and the Python exceptions the core can raise. */
module Wrappers {

  datatype Option<+T> = None | Some(value: T)

  /** The Python exception a step raises, with the source line that raises it. */
  datatype Error =
    | IndexError(line: nat)          // indexing an empty list (`pieces[1]`, `cleaned[0]`, ...)
    | KeyError(key: string)          // a dictionary lookup of a missing key
    | TypeError(line: nat)           // `'pr_' in None`, iterating None, joining a non-string
    | UnboundLocalError(line: nat)   // a loop variable read after a loop that never ran
    | ZeroDivisionError(line: nat)

  datatype Result<+T> = Ok(value: T) | Err(error: Error)

  /** The outcome of a step that returns nothing but may raise. */
  datatype Outcome = Pass | Fail(error: Error)
}
