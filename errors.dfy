/** The variants of `handle_errors::Error` that the modelled code constructs. */
module Errors {
  import opened IntParse

  datatype Error =
    | ParseError(cause: ParseIntError)  // a query or configuration value that is not a number of the target type
    | MissingParameters                 // the pagination query lacks one of its two keys
}
