/** Values shared by the backend and the client model: optional values,
    JavaScript truthiness of strings, and handler replies. */
module Common {

  datatype Option<T> = None | Some(value: T)

  /** A string field of a JSON body or of stored state. An absent field
      (`undefined` or `null`) is modelled as "", which JavaScript also
      treats as falsy, so `s` is truthy exactly when it is non-empty. */
  predicate Truthy(s: string) {
    s != ""
  }

  /** JavaScript's `a || b` on two string values. */
  function OrElse(a: string, b: string): string {
    if Truthy(a) then a else b
  }

  /** What a route handler sends back: a JSON value with status 200, a
      `{ msg }` with an error status, or the express-validator `{ errors }`
      list with status 400. */
  datatype Reply<T> = Ok(value: T) | Error(status: int, msg: string) | Invalid(errors: seq<string>)
  {
    function Status(): int {
      match this
      case Ok(_) => 200
      case Error(s, _) => s
      case Invalid(_) => 400
    }
  }
}
