/** Small value types shared by every part of the model. */
module Basics {

  /** A value that may be absent: a SQL NULL, a JavaScript `undefined`/`null`. */
  datatype Option<+T> = None | Some(value: T) {

    /** Returns the value, or `default` when absent (JavaScript's `x || default` on a list). */
    function GetOr(default: T): T {
      match this
      case Some(v) => v
      case None => default
    }
  }

  /** The outcome of one request to an external service: either a reply body, or the
      error the transport threw. */
  datatype Reply<+T> = Replied(body: T) | Threw(error: HttpError)

  /** What an HTTP client reports about a failed request: whether the server answered
      (`response`), whether a request went out at all (`requestSent`), and the
      error's own `message`. */
  datatype HttpError = HttpError(response: Option<ServerResponse>, requestSent: bool, message: string)

  /** An error response from the server: its status code and the `message`/`error`
      fields of its JSON body, when present. */
  datatype ServerResponse = ServerResponse(status: nat, message: Option<string>, error: Option<string>)

  function Min(a: int, b: int): (r: int)
    ensures r <= a && r <= b
    ensures r == a || r == b
  {
    if a <= b then a else b
  }

  /** JavaScript truthiness of a string that may be absent: `undefined`, `null` and `''` are falsy. */
  predicate TruthyText(s: Option<string>) {
    s.Some? && s.value != ""
  }

  /** JavaScript's `s || fallback` for a string that may be absent. */
  function TextOr(s: Option<string>, fallback: string): (r: string)
    ensures TruthyText(s) ==> r == s.value
    ensures !TruthyText(s) ==> r == fallback
  {
    if TruthyText(s) then s.value else fallback
  }

  /** JavaScript truthiness of a numeric id that may be absent: `undefined`, `null` and `0` are falsy. */
  predicate TruthyId(id: Option<int>) {
    id.Some? && id.value != 0
  }
}
