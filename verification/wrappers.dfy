/** Failure-carrying wrappers shared by the lexer and the parser. */
module Wrappers {

  /** A value that may be absent; stands for a null `unique_ptr` in the AST. */
  datatype Option<+T> = None | Some(value: T)

  /** Either a value or an error, as `std::expected` in the source. */
  datatype Result<+T, +E> = Ok(value: T) | Err(error: E)
}
