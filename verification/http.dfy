/** The serverless request/response surface shared by the four handlers, and the HTTP
    transport (axios) they call, reduced to the outcome of one request. */
module Http {
  import opened Wrappers
  import opened Strings
  import opened Dom

  type Byte = b: int | 0 <= b < 256

  /** An answered request. Header names are lower case, as axios reports them;
      `responseUrl` is the URL after redirects, when the transport reports one; `doc` is
      what the HTML parser builds from `bytes`. */
  datatype HttpResponse = HttpResponse(
    status: int,
    headers: map<string, string>,
    responseUrl: Option<string>,
    bytes: seq<Byte>,
    doc: Doc)

  /** What the transport delivers for one GET: an answer, or a network-level error (DNS,
      refused connection, timeout, too many redirects) with its message. */
  datatype Transport =
    | NetworkError(message: string)
    | Answered(response: HttpResponse)

  /** An axios call as the handler sees it: the response, or the rejection whose message
      it reports. */
  datatype Fetched =
    | Rejected(message: string)
    | Resolved(response: HttpResponse)

  /** axios' default `validateStatus`: 2xx. */
  predicate IsSuccessStatus(status: int) {
    200 <= status < 300
  }

  /** An axios call with a `validateStatus` gate: a status the gate refuses becomes a
      rejection with axios' message. */
  function Axios(t: Transport, validateStatus: int -> bool): (f: Fetched)
    ensures f.Resolved? <==> t.Answered? && validateStatus(t.response.status)
    ensures f.Resolved? ==> f.response == t.response
  {
    match t
    case NetworkError(m) => Rejected(m)
    case Answered(r) =>
      if validateStatus(r.status) then Resolved(r)
      else Rejected("Request failed with status code " + StatusText(r.status))
  }

  function StatusText(status: int): string {
    if status < 0 then "-" + Decimal(-status) else Decimal(status)
  }

  function Header(r: HttpResponse, name: string): Option<string> {
    if name in r.headers then Some(r.headers[name]) else None
  }

  /** The body of a request as the metadata handler reads it: absent or empty, not JSON
      (or JSON whose `.url` cannot be read, such as `null`), or a JSON value whose `url`
      field, when it is a string, is `url`. */
  datatype RequestBody =
    | NoBody
    | NotJson
    | Json(url: Option<string>)

  /** One invocation: the method, the request headers (lower-case names), the decoded
      query-string parameters and the body. */
  datatype Event = Event(
    httpMethod: string,
    headers: map<string, string>,
    query: map<string, string>,
    body: RequestBody)

  /** A parameter JavaScript treats as true: present and not the empty string. */
  function TruthyParam(m: map<string, string>, name: string): (r: Option<string>)
    ensures r.Some? <==> name in m && m[name] != ""
    ensures r.Some? ==> r.value == m[name]
  {
    if name in m && m[name] != "" then Some(m[name]) else None
  }

  /** A handler's answer: status, the `Content-Type` it sets (the CORS headers, identical
      on every answer of a handler, are not modelled) and the body. */
  datatype Reply<B> = Reply(status: int, contentType: Option<string>, body: B)

  /** A handler's first decision: answer at once, or fetch `url` and continue. */
  datatype Step<B> =
    | Respond(reply: Reply<B>)
    | Fetch(url: string)

  /** The bodies the page proxies answer with. */
  datatype ProxyBody =
    | EmptyBody
    | Plain(text: string)
    | Base64Of(bytes: seq<Byte>)
    | Html(doc: Doc)
}
