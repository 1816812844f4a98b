// Option and Result, the two wrappers every module of the model uses for
// "no value" and "error return".
module Wrappers {

  datatype Option<T> = None | Some(value: T)
  {
    function UnwrapOr(default: T): (r: T)
      ensures this.Some? ==> r == this.value
      ensures this.None? ==> r == default
    {
      match this
      case Some(v) => v
      case None => default
    }
  }

  datatype Result<T, E> = Ok(value: T) | Err(error: E)
  {
    predicate IsOk() { this.Ok? }
  }

  /** The result of a call, unless the program aborts there (a WebAssembly trap, a Rust panic). */
  datatype Call<T> = Abort | Returns(value: T)
}
