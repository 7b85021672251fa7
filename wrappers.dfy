/** Option and Result values used for Java's null and for its exceptions. */
module Wrappers {

  /** `None` stands for a Java `null` reference. */
  datatype Option<+T> = None | Some(value: T) {
    function GetOr(default: T): T
    {
      match this
      case Some(v) => v
      case None => default
    }
  }

  /** `Err` stands for an exception that the modelled code lets escape. */
  datatype Result<+T, +E> = Ok(value: T) | Err(error: E)
}
