// Option and Result values used for the runtime's optional fields and for
// the compiler's exceptions.
module Wrappers {

  datatype Option<T> = None | Some(value: T)
  {
    predicate IsSome() { this.Some? }

    function GetOr(default: T): T
    {
      match this
      case Some(v) => v
      case None => default
    }
  }

  /** A thrown SyntaxError / UnexpectedEOF / logic_error, carried as a value. */
  datatype Result<T> = Ok(value: T) | Err(error: string)
  {
    predicate IsOk() { this.Ok? }
  }
}
