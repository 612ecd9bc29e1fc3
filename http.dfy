/**
 * The request and response boundary shared by the four route handlers:
 * query parameters, the outcome of an upstream fetch, and the handler's
 * answer (a JSON body or an HTTP error with a message).
 */
module Http {
  import opened Wrappers

  /** `url.searchParams`: the name/value pairs of the query string, in order. */
  type Query = seq<(string, string)>

  /** `url.searchParams.get(name)`: the value of the first pair with that name, or null (None). */
  function Param(q: Query, name: string): (r: Option<string>)
    ensures r.None? <==> forall i :: 0 <= i < |q| ==> q[i].0 != name
    ensures r.Some? ==> exists i :: 0 <= i < |q| && q[i] == (name, r.value) && forall j :: 0 <= j < i ==> q[j].0 != name
  {
    if q == [] then None
    else if q[0].0 == name then Some(q[0].1)
    else
      var r := Param(q[1..], name);
      assert forall i :: 1 <= i < |q| ==> q[i] == q[1..][i - 1];
      if r.Some? then
        ghost var i :| 0 <= i < |q[1..]| && q[1..][i] == (name, r.value) && forall j :: 0 <= j < i ==> q[1..][j].0 != name;
        assert q[i + 1] == (name, r.value);
        r
      else r
  }

  /** `searchParams.get(name) || ""`: a missing parameter and an empty one read alike. */
  function ParamOrEmpty(q: Query, name: string): (r: string)
    ensures r == "" <==> Param(q, name).None? || Param(q, name).value == ""
    ensures r != "" ==> Param(q, name) == Some(r)
  {
    Param(q, name).GetOr("")
  }

  /**
   * What an upstream `fetch` produced: a parsed body, a response whose
   * `ok` flag was false (with its status), or a rejection (transport
   * failure, or a body that could not be read or decoded) with the message
   * of the `Error` it rejected with.
   */
  datatype Fetch<T> = Received(body: T) | BadStatus(status: int) | Rejected(message: string)

  /** The message of an error a handler answers with. */
  datatype Reason =
    | HttpStatus(status: int)   // the message "HTTP error! status: <status>"
    | Message(text: string)     // a message fixed by the handler or carried over from a rejection
    | EngineError               // a TypeError raised by the JavaScript engine; its wording is the engine's

  /** A handler's answer: `json(body)`, or `error(status, message)` thrown out of it. */
  datatype Response<+T> = Ok(body: T) | Fail(status: int, reason: Reason)

  /** The `error(500, ...)` answer for a failed upstream fetch. */
  function FetchFailure<T>(f: Fetch<T>): (r: Reason)
    requires !f.Received?
    ensures f.BadStatus? ==> r == HttpStatus(f.status)
    ensures f.Rejected? ==> r == Message(f.message)
  {
    match f
    case BadStatus(s) => HttpStatus(s)
    case Rejected(m) => Message(m)
  }
}
