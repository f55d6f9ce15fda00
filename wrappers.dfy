// Optional values and results with an error message, as the scripts return
// them: a value or null, and {ok: true, ...} or {ok: false, error: ...}.
module Wrappers {

  datatype Option<T> = None | Some(value: T) {
    function GetOr(default: T): T {
      match this
      case Some(v) => v
      case None => default
    }
  }

  datatype Result<T> = Ok(value: T) | Err(error: string) {
    predicate IsOk() { Ok? }
  }
}
