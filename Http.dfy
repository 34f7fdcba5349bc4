/**
 * The HTTP exchange as the client sees it. The transport (OkHttp, its
 * connection pool and its 30 s connect / 60 s read timeouts) is a function
 * from a request to an outcome; a timeout, a refused connection or an
 * invalid URL is one more `Thrown` outcome.
 */
module Http {
  import opened Options
  import opened Json

  datatype Verb = GET | POST

  /** A request body: its media type and the JSON tree it serialises. */
  datatype Payload = Payload(mediaType: string, tree: Json)

  datatype Request = Request(verb: Verb, url: string, body: Option<Payload>)

  /**
   * What `response.body()` yields: no body, a body that could not be read or
   * was not JSON (the exception's message), or the parsed tree.
   */
  datatype Body = Absent | Unreadable(message: Option<string>) | Parsed(tree: Json)

  /** The call either throws (with `getMessage()`) or completes with a status. */
  datatype Outcome = Thrown(message: Option<string>) | Answered(code: int, body: Body)

  /** The transport: what the server (or the network) answers to a request. */
  type Transport = Request -> Outcome

  /** OkHttp's `Response.isSuccessful`: a status code in [200, 300). */
  predicate IsSuccessful(o: Outcome) {
    o.Answered? && 200 <= o.code < 300
  }

  /**
   * `gson.fromJson(body, JsonObject.class)`: the members of a top-level
   * object. A body that is not JSON rethrows its message; any tree other
   * than an object, JSON `null` included, is rejected by Gson's type check.
   * A missing body is dereferenced as `null`.
   */
  function TopObject(body: Body): (r: Result<seq<Member>>)
    ensures r.Ok? <==> body.Parsed? && body.tree.JObj?
    ensures r.Ok? ==> r.value == body.tree.members
    ensures body.Unreadable? ==> r == Err(Fault(body.message))
  {
    match body
    case Absent => Err(NullDereference)
    case Unreadable(message) => Err(Fault(message))
    case Parsed(JObj(members)) => Ok(members)
    case Parsed(JNull) =>
      Err(Fault(Some("Expected a com.google.gson.JsonObject but was com.google.gson.JsonNull")))
    case Parsed(JArr(_)) =>
      Err(Fault(Some("Expected a com.google.gson.JsonObject but was com.google.gson.JsonArray")))
    case Parsed(_) =>
      Err(Fault(Some("Expected a com.google.gson.JsonObject but was com.google.gson.JsonPrimitive")))
  }
}
