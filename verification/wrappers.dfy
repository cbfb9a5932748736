/** Null-or-value and return-or-throw wrappers used throughout the model.

    A Java reference that may be `null` is an `Option`; a Java call that
    either returns or throws is a `Result`, whose failure carries the text
    that `e.getMessage()` would give (the word "null" when the exception has
    no message, which is what string concatenation prints for it).
 */
module Wrappers {

  datatype Option<+T> = None | Some(value: T) {

    /** The value, or `default` when there is none (Java's `x != null ? x : d`). */
    function GetOr(default: T): T {
      match this
      case Some(v) => v
      case None => default
    }
  }

  datatype Result<+T> = Ok(value: T) | Thrown(message: string) {

    function ToOption(): Option<T> {
      match this
      case Ok(v) => Some(v)
      case Thrown(_) => None
    }
  }

  /** The text Java's string concatenation prints for a nullable string. */
  function ShowNullable(s: Option<string>): string {
    match s
    case Some(v) => v
    case None => "null"
  }
}
