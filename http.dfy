/** Requests and responses of the route handlers. Header names are stored in
    lower case, so a lookup is case-insensitive as in the web platform's
    `Headers`. A JSON body that does not parse is `None`. */
module Http {
  import opened Wrappers
  import opened Json

  datatype Request = Request(headers: map<string, string>, params: map<string, string>, body: Option<Json>)

  datatype Response =
    | Reply(status: int, body: Json)
    | Redirect(location: string)

  function Header(r: Request, name: string): Option<string> {
    if name in r.headers then Some(r.headers[name]) else None
  }

  /** `searchParams.get(name)`. */
  function Param(r: Request, name: string): Option<string> {
    if name in r.params then Some(r.params[name]) else None
  }

  /** A property read by destructuring the body: `None` is `undefined`. */
  function Field(body: Json, name: string): Option<Json> {
    if body.JObj? && name in body.fields then Some(body.fields[name]) else None
  }

  /** Destructuring `null` throws; any other value can be destructured. */
  predicate Destructurable(body: Option<Json>) {
    body.Some? && !body.value.JNull?
  }

  /** A field that is present and truthy. */
  predicate Given(body: Json, name: string) {
    var f := Field(body, name); f.Some? && Truthy(f.value)
  }

  /** A field that holds a string. */
  function StringField(body: Json, name: string): (r: Option<string>)
    ensures r.Some? <==> Field(body, name).Some? && Field(body, name).value.JStr?
    ensures r.Some? ==> Field(body, name) == Some(JStr(r.value))
  {
    match Field(body, name)
    case Some(JStr(s)) => Some(s)
    case _ => None
  }

  /** The details of the error thrown for a body that is not JSON, or that is
      `null` and cannot be destructured. */
  const MalformedBody := "Unexpected end of JSON input"

  function ErrorReply(status: int, message: string): (r: Response)
    ensures r.Reply? && r.status == status
  {
    Reply(status, JObj(map["error" := JStr(message)]))
  }

  function ErrorDetails(status: int, message: string, details: string): (r: Response)
    ensures r.Reply? && r.status == status
  {
    Reply(status, JObj(map["error" := JStr(message), "details" := JStr(details)]))
  }

  const Unauthorized: Response := ErrorReply(401, "Unauthorized")
  const InternalError: Response := ErrorReply(500, "Internal server error")
}
