/** The script netlify/functions/search.js injects into every proxied AOL page. On load it
    reports the page's address to the hosting window. On a click on a link it keeps AOL
    links inside the proxy and, for every other link, asks the metadata handler whether
    the destination may be framed and passes the answer to the hosting window. */
module LinkInterceptor {
  import opened Wrappers
  import opened Strings
  import opened Http
  import opened UrlKit
  import opened UriComponent
  import opened Messages
  import opened SiteMetadata
  import Dom
  import SearchProxy

  const MetadataApi: string := "https://rxpappinstaller.netlify.app/.netlify/functions/metadata"
  const LoadingLabel: string := "Loading..."

  /** The message posted once the page has loaded, for the target interpolated into the
      script's text. */
  function OnLoad(target: string): (m: Message)
    ensures Action(m) == "rebornxp_address_update" && m.url == target
  {
    AddressUpdate(target)
  }

  /** Every page the search proxy serves with status 200 ends with the script, and the
      message that script posts on load reports the very URL the proxy fetched. */
  lemma ServedPageAnnouncesTarget(kit: UrlKit, e: Event, fetch: string -> Transport)
    requires SearchProxy.Handler(kit, e, fetch).status == 200
    ensures var r := SearchProxy.Handler(kit, e, fetch);
            && r.body.Html? && r.body.doc.body != []
            && var last := r.body.doc.body[|r.body.doc.body| - 1];
               && last == SearchProxy.NavScript(SearchProxy.TargetOf(e))
               && OnLoad(Dom.TextContent(last)) == AddressUpdate(SearchProxy.TargetOf(e))
  {
    var t := SearchProxy.TargetOf(e);
    assert SearchProxy.Route(kit, e) == Fetch(t);
    var r := SearchProxy.Handler(kit, e, fetch);
    assert fetch(t).Answered?;
    var page := fetch(t).response.doc;
    assert r.body.doc.body == page.body + [SearchProxy.NavScript(t)];
    assert Dom.TextContent(SearchProxy.NavScript(t)) == Dom.TextContentAll([Dom.Text(t)]);
    assert [Dom.Text(t)][1..] == [];
    assert Dom.TextContentAll([Dom.Text(t)]) == t + Dom.TextContentAll([]);
    assert t + [] == t;
  }

  /** `href.includes('search.aol.com') || href.includes('aol.com')`, applied to the whole
      URL rather than to its host. */
  predicate IsAolInternal(href: string) {
    Contains(href, "search.aol.com") || Contains(href, "aol.com")
  }

  /** The first test adds nothing: a link is internal exactly when its URL contains
      `aol.com` anywhere. */
  lemma InternalIffContainsAol(href: string)
    ensures IsAolInternal(href) <==> Contains(href, "aol.com")
  {
    if Contains(href, "search.aol.com") {
      ContainsAffixes("search.", "aol.com");
      assert "search." + "aol.com" == "search.aol.com";
      ContainsTransitive(href, "search.aol.com", "aol.com");
    }
  }

  /** A host that merely mentions aol.com is taken for AOL. */
  lemma LookalikeIsInternal()
    ensures IsAolInternal("https://evil-aol.com.attacker.net/")
  {
    assert OccursAt("https://evil-aol.com.attacker.net/", "aol.com", 13);
  }

  /** `PROXY_ENDPOINT + '?url=' + encodeURIComponent(href)`, where the endpoint is the
      proxy's own origin and path. */
  function ProxyUrl(endpoint: string, href: string): string {
    endpoint + "?url=" + EncodeURIComponent(href)
  }

  /** The proxy URL carries the link whole: its query is a single `url` parameter, with
      no `&` or `#` to cut it short, that decodes back to the link. */
  lemma ProxyUrlCarriesHref(endpoint: string, href: string)
    ensures var p := ProxyUrl(endpoint, href);
            var value := p[|endpoint| + 5..];
            && StartsWith(p, endpoint + "?url=")
            && (forall k :: 0 <= k < |value| ==> value[k] != '&' && value[k] != '#')
            && DecodeURIComponent(value) == Some(href)
  {
    var p := ProxyUrl(endpoint, href);
    assert p[..|endpoint| + 5] == endpoint + "?url=";
    assert p[|endpoint| + 5..] == EncodeURIComponent(href);
    DecodeEncode(href);
  }

  // ---------------------------------------------------------------------------------
  // The frame check

  /** `data.site` as the parsed reply of the metadata handler presents it. */
  datatype SiteField =
    | SiteMissing
    | SiteNull
    | SiteObject(xframeRestricted: JsValue)

  /** What `fetch(...)` followed by `resp.json()` yields: a failure (network error or a
      body that is not JSON), or the parsed object. */
  datatype MetadataAnswer =
    | Unreadable
    | Parsed(site: SiteField)

  /** `data.site && data.site.xframe_restricted`, and `true` when anything failed. */
  function IsRestricted(a: MetadataAnswer): (v: JsValue)
    ensures a.Unreadable? ==> IsTruthy(v)
    ensures a == Parsed(SiteMissing) ==> v == JsUndefined
    ensures a == Parsed(SiteNull) ==> v == JsNull
    ensures a.Parsed? && a.site.SiteObject? ==> v == a.site.xframeRestricted
  {
    match a
    case Unreadable => JsBool(true)
    case Parsed(SiteMissing) => JsUndefined
    case Parsed(SiteNull) => JsNull
    case Parsed(SiteObject(x)) => x
  }

  /** The request the script makes: a GET carrying the link in the `target_url` header. */
  function LookupEvent(href: string): Event {
    Event("GET", map["target_url" := href], map[], NoBody)
  }

  /** The metadata handler's reply as `resp.json()` reads it. A 204 has an empty body,
      which is not JSON; the error envelope has no `site`. */
  function AnswerOf(reply: Reply<MetadataBody>): MetadataAnswer {
    match reply.body
    case NoContent => Unreadable
    case ErrorEnvelope(_) => Parsed(SiteMissing)
    case SiteEnvelope(None) => Parsed(SiteNull)
    case SiteEnvelope(Some(s)) => Parsed(SiteObject(JsBool(s.frameRestricted)))
  }

  /** Asking the metadata handler about a link gives the crawl's frame decision for that
      link, as a boolean. */
  lemma RestrictionFromAnalyzer(kit: UrlKit, href: string, fetch: string -> Transport)
    requires href != ""
    ensures IsRestricted(AnswerOf(MetadataHandler(kit, LookupEvent(href), fetch)))
            == JsBool(CrawlNormalized(kit, NormalizeUrl(href), fetch).frameRestricted)
  {
    assert RequestedUrl(LookupEvent(href)) == Some(href);
  }

  /** The two failure policies disagree: a destination whose page cannot be fetched is
      reported as frameable, while a metadata reply that cannot be read is reported as
      restricted. */
  lemma FailOpenVersusFailClosed(kit: UrlKit, href: string, fetch: string -> Transport)
    requires href != ""
    requires PageFetchFailed(fetch(NormalizeUrl(href)))
    ensures IsRestricted(AnswerOf(MetadataHandler(kit, LookupEvent(href), fetch))) == JsBool(false)
    ensures IsRestricted(Unreadable) == JsBool(true)
  {
    RestrictionFromAnalyzer(kit, href, fetch);
    CrawlFailureRecord(kit, NormalizeUrl(href), fetch);
  }

  // ---------------------------------------------------------------------------------
  // Clicks

  /** The nearest enclosing anchor of a click target: its resolved `href` and its label
      text. */
  datatype Anchor = Anchor(href: string, text: string)

  /** What the page does: relabel the link, post a message, or load another URL. */
  datatype Effect =
    | SetLabel(text: string)
    | Post(message: Message)
    | Load(url: string)

  /** Whether the default action was prevented, and the effects in order. */
  datatype ClickOutcome = ClickOutcome(prevented: bool, effects: seq<Effect>)

  /** A click on the page, `endpoint` being the proxy's address and `lookup` the answer
      the metadata handler gives for each link. */
  function OnClick(endpoint: string, anchor: Option<Anchor>, lookup: string -> MetadataAnswer): (o: ClickOutcome)
    ensures o.prevented <==> anchor.Some? && anchor.value.href != ""
    ensures !o.prevented ==> o.effects == []
  {
    match anchor
    case None => ClickOutcome(false, [])
    case Some(a) =>
      if a.href == "" then ClickOutcome(false, [])
      else if IsAolInternal(a.href) then ClickOutcome(true, [Load(ProxyUrl(endpoint, a.href))])
      else ClickOutcome(true, [SetLabel(LoadingLabel),
                               Post(NavigationRequest(a.href, IsRestricted(lookup(a.href)))),
                               SetLabel(a.text)])
  }

  function Posts(effects: seq<Effect>): seq<Message> {
    if effects == [] then []
    else (if effects[0].Post? then [effects[0].message] else []) + Posts(effects[1..])
  }

  /** An AOL link stays inside the proxy: the page loads the proxy URL for it, which
      decodes back to the link, and nothing is posted. */
  lemma InternalClickStaysInProxy(endpoint: string, a: Anchor, lookup: string -> MetadataAnswer)
    requires a.href != "" && Contains(a.href, "aol.com")
    ensures var o := OnClick(endpoint, Some(a), lookup);
            && o.effects == [Load(ProxyUrl(endpoint, a.href))]
            && Posts(o.effects) == []
            && DecodeURIComponent(ProxyUrl(endpoint, a.href)[|endpoint| + 5..]) == Some(a.href)
  {
    InternalIffContainsAol(a.href);
    ProxyUrlCarriesHref(endpoint, a.href);
    assert Posts([Load(ProxyUrl(endpoint, a.href))]) == Posts([]);
  }

  /** Any other link produces exactly one navigation request, for that link, carrying the
      metadata handler's verdict; the label reads `Loading...` meanwhile and is restored
      afterwards, whatever the verdict. */
  lemma ExternalClickAsksOnce(endpoint: string, a: Anchor, lookup: string -> MetadataAnswer)
    requires a.href != "" && !Contains(a.href, "aol.com")
    ensures var o := OnClick(endpoint, Some(a), lookup);
            && Posts(o.effects) == [NavigationRequest(a.href, IsRestricted(lookup(a.href)))]
            && o.effects[0] == SetLabel(LoadingLabel)
            && o.effects[|o.effects| - 1] == SetLabel(a.text)
            && forall k :: 0 <= k < |o.effects| ==> !o.effects[k].Load?
  {
    InternalIffContainsAol(a.href);
    var o := OnClick(endpoint, Some(a), lookup);
    var m := NavigationRequest(a.href, IsRestricted(lookup(a.href)));
    assert o.effects[1..] == [Post(m), SetLabel(a.text)];
    assert o.effects[1..][1..] == [SetLabel(a.text)];
    assert Posts([SetLabel(a.text)]) == [] by {
      assert [SetLabel(a.text)][1..] == [];
    }
  }

  /** A click outside any link, or on a link without an address, is left to the browser. */
  lemma NonLinkClickIgnored(endpoint: string, text: string, lookup: string -> MetadataAnswer)
    ensures OnClick(endpoint, None, lookup) == ClickOutcome(false, [])
    ensures OnClick(endpoint, Some(Anchor("", text)), lookup) == ClickOutcome(false, [])
  {
  }
}
