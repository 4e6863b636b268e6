/** What netlify/functions/aol-proxy.js and netlify/functions/ddg-proxy.js share: the
    preflight and parameter checks before the fetch, the pass-through of anything that is
    not HTML, the `new URL` of the target and the error answers. The two handlers differ
    only in how they rewrite the parsed page, which `Finish` takes as a parameter. */
module PageProxy {
  import opened Wrappers
  import opened Strings
  import opened Dom
  import opened Http
  import opened UrlKit

  const UrlRequired: string := "URL parameter is required."
  const InterceptorSrc: string := "https://reborn-xp-api.netlify.app/.netlify/functions/interceptor"

  /** `<base href="...">`, as `base.href = origin` leaves it. */
  function BaseNode(href: string): Node {
    Elem("base", map["href" := href], [])
  }

  /** The external interceptor script appended to the body. */
  const Interceptor: Node := Elem("script", map["src" := InterceptorSrc], [])

  function PrependHead(d: Doc, n: Node): Doc {
    Doc([n] + d.head, d.body)
  }

  /** The handlers' decision before any request is made: a preflight is answered 204, a
      missing or empty `url` parameter 400, and otherwise `url` is fetched. */
  function Route(e: Event): (s: Step<ProxyBody>)
    ensures s.Fetch? <==> e.httpMethod != "OPTIONS" && TruthyParam(e.query, "url").Some?
    ensures s.Fetch? ==> s.url == e.query["url"]
    ensures e.httpMethod == "OPTIONS" ==> s == Respond(Reply(204, None, EmptyBody))
    ensures e.httpMethod != "OPTIONS" && s.Respond? ==> s.reply == Reply(400, None, Plain(UrlRequired))
  {
    if e.httpMethod == "OPTIONS" then Respond(Reply(204, None, EmptyBody))
    else match TruthyParam(e.query, "url")
      case None => Respond(Reply(400, None, Plain(UrlRequired)))
      case Some(u) => Fetch(u)
  }

  /** `response.headers['content-type'] || ''` */
  function ContentType(r: HttpResponse): string {
    Header(r, "content-type").GetOr("")
  }

  /** How a handler rewrites a parsed page, given the parsed target URL and the target as
      requested. */
  type Rewrite = (Doc, UrlRecord, string) -> Doc

  /** Everything after the fetch. Only a 2xx answer is used (axios' default gate); any
      other outcome, and a target `new URL` refuses, is a 500 carrying the error's
      message. A 2xx answer whose content type does not mention text/html is sent on as
      it came. */
  function Finish(kit: UrlKit, target: string, t: Transport, rewrite: Rewrite): (r: Reply<ProxyBody>)
    ensures r.status == 200 || r.status == 500
    ensures r.status == 200 <==>
              t.Answered? && IsSuccessStatus(t.response.status)
              && (!Contains(ContentType(t.response), "text/html") || kit.parse(target).Some?)
    ensures r.status == 500 ==> r.contentType == None && r.body.Plain? && StartsWith(r.body.text, "Error: ")
    ensures r.status == 200 ==> r.body.Base64Of? || r.body.Html?
    ensures r.body.Base64Of? ==> r.body.bytes == t.response.bytes && r.contentType == Some(ContentType(t.response))
    ensures r.body.Html? ==> r.contentType == Some("text/html") && kit.parse(target).Some?
                             && r.body.doc == rewrite(t.response.doc, kit.parse(target).value, target)
    ensures t.NetworkError? ==> r == Reply(500, None, Plain("Error: " + t.message))
    ensures (t.Answered? && IsSuccessStatus(t.response.status) && Contains(ContentType(t.response), "text/html")
             && kit.parse(target).None?) ==> r == Reply(500, None, Plain("Error: Invalid URL"))
  {
    match Axios(t, IsSuccessStatus)
    case Rejected(m) => Failure(m)
    case Resolved(resp) =>
      var ct := ContentType(resp);
      if !Contains(ct, "text/html") then Reply(200, Some(ct), Base64Of(resp.bytes))
      else match kit.parse(target)
        case None =>
          assert "Error: " + "Invalid URL" == "Error: Invalid URL";
          Failure("Invalid URL")
        case Some(u) => Reply(200, Some("text/html"), Html(rewrite(resp.doc, u, target)))
  }

  /** The catch block: 500 with `Error: <message>`. */
  function Failure(message: string): (r: Reply<ProxyBody>)
    ensures r.status == 500 && r.contentType == None && r.body.Plain?
    ensures StartsWith(r.body.text, "Error: ") && r.body.text[7..] == message
  {
    var text := "Error: " + message;
    assert text[..7] == "Error: ";
    Reply(500, None, Plain(text))
  }

  /** A whole invocation; `fetch` is the transport's outcome for each URL. */
  function Handler(kit: UrlKit, e: Event, fetch: string -> Transport, rewrite: Rewrite): Reply<ProxyBody> {
    match Route(e)
    case Respond(r) => r
    case Fetch(u) => Finish(kit, u, fetch(u), rewrite)
  }

  /** A preflight or a request without a usable `url` is answered without a fetch, so the
      answer is the same whatever the network would have done. */
  lemma NoFetchWithoutUrl(kit: UrlKit, e: Event, f1: string -> Transport, f2: string -> Transport, rewrite: Rewrite)
    requires e.httpMethod == "OPTIONS" || !("url" in e.query) || e.query["url"] == ""
    ensures Handler(kit, e, f1, rewrite) == Handler(kit, e, f2, rewrite)
    ensures Handler(kit, e, f1, rewrite).status == (if e.httpMethod == "OPTIONS" then 204 else 400)
  {
  }

  /** An upstream answer outside 2xx becomes a 500 naming its status, in axios' words. */
  lemma UpstreamErrorStatus(kit: UrlKit, target: string, resp: HttpResponse, rewrite: Rewrite)
    requires !IsSuccessStatus(resp.status)
    ensures Finish(kit, target, Answered(resp), rewrite)
            == Reply(500, None, Plain("Error: " + ("Request failed with status code " + StatusText(resp.status))))
  {
  }

  /** A page that is not HTML reaches the caller byte for byte, with its own content
      type, and no URL parsing is involved. */
  lemma NonHtmlPassesThrough(kit1: UrlKit, kit2: UrlKit, target: string, resp: HttpResponse, rw1: Rewrite, rw2: Rewrite)
    requires IsSuccessStatus(resp.status)
    requires !Contains(ContentType(resp), "text/html")
    ensures Finish(kit1, target, Answered(resp), rw1) == Finish(kit2, target, Answered(resp), rw2)
    ensures Finish(kit1, target, Answered(resp), rw1) == Reply(200, Some(ContentType(resp)), Base64Of(resp.bytes))
  {
  }
}
