/** Optional values and error-carrying results shared by the whole model.

    `Option` stands for a Python value that may be `None`; `Result` stands for
    a computation that may raise. `Error` names the exceptions the importer
    can raise, one constructor per raising site.
 */
module Wrappers {

  datatype Option<+T> = None | Some(value: T)

  datatype Result<+T, +E> = Ok(value: T) | Err(error: E)

  /** The exceptions raised while importing a statement. */
  datatype Error =
    /** `list.index` found no line equal to the table header (a `ValueError`,
        not the package's own `InvalidFormatError`). */
    | HeaderNotFound
    /** `key, value, *_ = line` on a preamble row with a single field. */
    | NotEnoughValues(row: seq<string>)
    /** `strptime(text, "%d.%m.%Y")` rejected the text. */
    | BadDate(text: string)
    /** The German-locale number parser rejected the text. */
    | BadNumber(text: string)
    /** Adding one day to 31.12.9999 leaves the range of `datetime.date`. */
    | DateOverflow
}
