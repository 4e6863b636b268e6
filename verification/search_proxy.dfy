/** netlify/functions/search.js: a proxy for AOL Search only. It picks the target from the
    query string, refuses anything whose host name does not end in `aol.com`, fetches the
    page whatever its status, points its relative links at search.aol.com and adds the
    link-intercepting script of `LinkInterceptor`. Every answer is labelled text/html. */
module SearchProxy {
  import opened Wrappers
  import opened Strings
  import opened Dom
  import opened Http
  import opened UrlKit
  import opened UriComponent

  const SearchPrefix: string := "https://search.aol.com/aol/search?q="
  const AolHome: string := "https://search.aol.com/"
  const InvalidUrl: string := "Invalid URL"
  const AccessDenied: string := "Access Denied: This proxy only handles AOL Search."
  const Html: Option<string> := Some("text/html")

  /** The target: a search for `q` when `q` is given, else the `url` parameter, else the
      AOL Search home page. */
  function TargetOf(e: Event): (t: string)
    ensures t != ""
    ensures TruthyParam(e.query, "q").Some? ==>
              && StartsWith(t, SearchPrefix)
              && DecodeURIComponent(t[|SearchPrefix|..]) == Some(e.query["q"])
              && forall k :: |SearchPrefix| <= k < |t| ==> t[k] != '&' && t[k] != '#'
    ensures TruthyParam(e.query, "q").None? && TruthyParam(e.query, "url").Some? ==> t == e.query["url"]
    ensures TruthyParam(e.query, "q").None? && TruthyParam(e.query, "url").None? ==> t == AolHome
  {
    match TruthyParam(e.query, "q")
    case Some(q) =>
      var t := SearchPrefix + EncodeURIComponent(q);
      assert t[..|SearchPrefix|] == SearchPrefix && t[|SearchPrefix|..] == EncodeURIComponent(q);
      DecodeEncode(q);
      EncodedQueryHasNoDelimiters(q);
      t
    case None => TruthyParam(e.query, "url").GetOr(AolHome)
  }

  /** The encoded query can never end the `q` parameter or start a fragment. */
  lemma EncodedQueryHasNoDelimiters(q: string)
    ensures var t := SearchPrefix + EncodeURIComponent(q);
            forall k :: |SearchPrefix| <= k < |t| ==> t[k] != '&' && t[k] != '#'
  {
    var enc := EncodeURIComponent(q);
    var t := SearchPrefix + enc;
    forall k | |SearchPrefix| <= k < |t|
      ensures t[k] != '&' && t[k] != '#'
    {
      assert t[k] == enc[k - |SearchPrefix|];
    }
  }

  /** The host-name gate: `hostname.endsWith('aol.com')`. */
  predicate AolHost(u: UrlRecord) {
    EndsWith(u.hostname, "aol.com")
  }

  /** The decision before the fetch: 400 for a target `new URL` refuses, 403 for a host
      outside the gate, and otherwise a fetch of the target. */
  function Route(kit: UrlKit, e: Event): (s: Step<ProxyBody>)
    ensures s.Fetch? <==> kit.parse(TargetOf(e)).Some? && AolHost(kit.parse(TargetOf(e)).value)
    ensures s.Fetch? ==> s.url == TargetOf(e)
    ensures s.Respond? ==> s.reply.contentType == Html && s.reply.body.Plain?
    ensures s.Respond? ==> (s.reply.status == 400 <==> kit.parse(TargetOf(e)).None?)
    ensures s.Respond? ==> (s.reply.status == 400 || s.reply.status == 403)
    ensures s.Respond? ==> s.reply.body.text == (if s.reply.status == 400 then InvalidUrl else AccessDenied)
  {
    var t := TargetOf(e);
    match kit.parse(t)
    case None => Respond(Reply(400, Html, Plain(InvalidUrl)))
    case Some(u) =>
      if AolHost(u) then Fetch(t) else Respond(Reply(403, Html, Plain(AccessDenied)))
  }

  /** `validateStatus: () => true` */
  predicate AnyStatus(status: int) {
    true
  }

  /** `<base href="https://search.aol.com/">` */
  const SearchBase: Node := Elem("base", map["href" := AolHome], [])

  /** `insertBefore(base, head.firstChild)` when the head has children, else
      `appendChild(base)`: either way the base ends up first, before everything the head
      held. */
  function InsertBase(head: seq<Node>): (r: seq<Node>)
    ensures |r| == |head| + 1 && r[0] == SearchBase && r[1..] == head
  {
    if head != [] then [SearchBase] + head else head + [SearchBase]
  }

  /** The inline script, its text reduced to the one value interpolated into it: the
      target it reports on load. Its behaviour is `LinkInterceptor`. */
  function NavScript(target: string): Node {
    Elem("script", map[], [Text(target)])
  }

  function Rewrite(d: Doc, target: string): Doc {
    Doc(InsertBase(d.head), d.body + [NavScript(target)])
  }

  /** Everything after the fetch: every answered request is rewritten and served with
      status 200, whatever the upstream status; a network error is a 500 naming it. */
  function Finish(target: string, t: Transport): (r: Reply<ProxyBody>)
    ensures r.contentType == Html
    ensures r.status == 200 <==> t.Answered?
    ensures t.Answered? ==> r.body == ProxyBody.Html(Rewrite(t.response.doc, target))
    ensures t.NetworkError? ==> r == Reply(500, Html, Plain("Proxy Error: " + t.message))
  {
    match Axios(t, AnyStatus)
    case Resolved(resp) => Reply(200, Html, ProxyBody.Html(Rewrite(resp.doc, target)))
    case Rejected(m) =>
      var text := "Proxy Error: " + m;
      Reply(500, Html, Plain(text))
  }

  function Handler(kit: UrlKit, e: Event, fetch: string -> Transport): Reply<ProxyBody> {
    match Route(kit, e)
    case Respond(r) => r
    case Fetch(u) => Finish(u, fetch(u))
  }

  // ---------------------------------------------------------------------------------
  // Properties

  /** A target outside the gate, or one that does not parse, is answered without any
      request: the answer does not depend on the network. */
  lemma NoFetchOutsideGate(kit: UrlKit, e: Event, f1: string -> Transport, f2: string -> Transport)
    requires kit.parse(TargetOf(e)).None? || !AolHost(kit.parse(TargetOf(e)).value)
    ensures Handler(kit, e, f1) == Handler(kit, e, f2)
    ensures Handler(kit, e, f1).status == (if kit.parse(TargetOf(e)).None? then 400 else 403)
  {
  }

  /** A search query wins over an explicit URL, which is then never looked at. */
  lemma QueryWinsOverUrl(e: Event, url: string)
    requires TruthyParam(e.query, "q").Some?
    ensures TargetOf(e) == TargetOf(e.(query := e.query["url" := url]))
  {
    var e' := e.(query := e.query["url" := url]);
    assert TruthyParam(e'.query, "q") == TruthyParam(e.query, "q");
  }

  /** Every answer, error or not, is labelled text/html. */
  lemma EveryAnswerIsHtml(kit: UrlKit, e: Event, fetch: string -> Transport)
    ensures Handler(kit, e, fetch).contentType == Html
  {
  }

  /** An upstream 404 or 500 is still served as a 200 page. */
  lemma UpstreamStatusIgnored(target: string, resp: HttpResponse)
    ensures Finish(target, Answered(resp)).status == 200
  {
  }

  /** The gate is a suffix test on the host name, so a host such as `evilaol.com`, which
      is not AOL's, passes it. */
  lemma LookalikeHostPasses(kit: UrlKit, e: Event, u: UrlRecord)
    requires kit.parse(TargetOf(e)) == Some(u)
    requires u.hostname == "evilaol.com"
    ensures Route(kit, e) == Fetch(TargetOf(e))
  {
    EvilAolPassesGate(u);
  }

  lemma EvilAolPassesGate(u: UrlRecord)
    requires u.hostname == "evilaol.com"
    ensures AolHost(u)
  {
    assert u.hostname[|u.hostname| - 7..] == "aol.com";
  }

  /** The rewritten page has the base first in the head and the script last in the body,
      and everything else where it was. */
  lemma RewriteFrame(d: Doc, target: string)
    ensures var r := Rewrite(d, target);
            && r.head == [SearchBase] + d.head
            && r.body == d.body + [NavScript(target)]
  {
    var h := InsertBase(d.head);
    assert h == [h[0]] + h[1..];
  }
}
