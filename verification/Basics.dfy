/** Shared value types used by every component model. */
module Basics {

  datatype Option<+T> = None | Some(value: T)

  datatype Result<+T, +E> = Ok(value: T) | Err(error: E)

  /** `value ?? ""`. */
  function TextOr(value: Option<string>): (text: string)
    ensures value == Some(text) || (value == None && text == "")
  {
    match value
    case None => ""
    case Some(text) => text
  }

  /** An octet, as the Rust sources read and write them. */
  type byte = x: int | 0 <= x < 256
}
