/** Small shared datatypes: an optional value, a JSON scalar, the form a widget fills and
    the abstract result of a network request. */
module Common {
  import opened Text

  /** A value that may be absent: a JSON property that is missing, `null` or `undefined`. */
  datatype Option<+T> = None | Some(value: T) {
    function GetOr(default: T): T {
      match this
      case Some(v) => v
      case None => default
    }
  }

  /** What an awaited `fetch(...)` followed by `res.json()` comes to, seen from the caller.
      The network itself is not modelled: the outcome is an input to the operation that fetches. */
  datatype FetchOutcome<+T> =
    | Ok(body: T)          // a 2xx response whose body decoded
    | HttpError(status: int) // a response with `res.ok` false
    | NetworkError         // any other rejection (offline, bad JSON, ...)
    | Aborted              // the request was cancelled by a newer one (`AbortError`)

  /** A JSON scalar that a service sends as a number or as a string. */
  datatype Scalar = Num(n: nat) | Str(s: string)

  /** JavaScript truthiness of an optional scalar: absent, 0 and "" are false. */
  predicate Truthy(v: Option<Scalar>) {
    match v
    case None => false
    case Some(Num(n)) => n != 0
    case Some(Str(s)) => s != ""
  }

  /** `String(v)`. */
  function ScalarText(v: Scalar): string {
    match v
    case Num(n) => NatToDecimal(n)
    case Str(s) => s
  }

  /** `x || ''` for an optional string. */
  function OrEmpty(o: Option<string>): string {
    o.GetOr("")
  }

  /** The form as the widgets see it: the value of every field the page has, by id, and
      the value each field was last marked as validated with (`data-dkral-validated-value`). */
  datatype Form = Form(values: map<string, string>, validated: map<string, string>)
}
