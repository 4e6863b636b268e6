/** The site classifier of netlify/functions/metadata.js: `crawl` fetches a page and
    reports its name, description, icon and whether it may be framed; `handler` picks the
    URL out of the request. The transport, URL parser and HTML parser are parameters. */
module SiteMetadata {
  import opened Wrappers
  import opened Strings
  import opened UrlKit
  import opened Dom
  import opened Http
  import opened FramePolicy

  const DefaultIcon: string := "/images/xp/icons/ApplicationWindow.png"
  const UntitledName: string := "Untitled Page"

  /** The record `crawl` returns. `iconData` holds the icon's bytes; the source sends them
      base64-encoded. */
  datatype Site = Site(
    url: string,
    finalUrl: string,
    icon: string,
    iconData: Option<seq<Byte>>,
    name: string,
    desc: string,
    frameRestricted: bool)

  // ---------------------------------------------------------------------------------
  // URL normalisation

  predicate HasHttpScheme(u: string) {
    StartsWithIgnoringCase(u, "https://") || StartsWithIgnoringCase(u, "http://")
  }

  /** Leaves a URL that starts with `http://` or `https://`, in any case, as it is, and
      puts `https://` in front of anything else. */
  function NormalizeUrl(u: string): (r: string)
    ensures HasHttpScheme(r)
    ensures EndsWith(r, u)
    ensures r == u <==> HasHttpScheme(u)
    ensures r == u || r == "https://" + u
  {
    if HasHttpScheme(u) then u
    else
      var r := "https://" + u;
      assert r[|r| - |u|..] == u;
      assert StartsWithIgnoringCase(r, "https://");
      r
  }

  lemma NormalizeUrlIdempotent(u: string)
    ensures NormalizeUrl(NormalizeUrl(u)) == NormalizeUrl(u)
  {
  }

  // ---------------------------------------------------------------------------------
  // Name and description

  /** `a || b || ...` over strings: the first non-empty one. */
  function FirstTruthy(xs: seq<string>): (r: Option<string>)
    ensures r.None? <==> forall k :: 0 <= k < |xs| ==> xs[k] == ""
    ensures r.Some? ==> r.value != "" && exists k :: 0 <= k < |xs| && xs[k] == r.value
                                                  && forall j :: 0 <= j < k ==> xs[j] == ""
  {
    if xs == [] then None
    else if xs[0] != "" then Some(xs[0])
    else
      var r := FirstTruthy(xs[1..]);
      assert forall k :: 1 <= k < |xs| ==> xs[k] == xs[1..][k - 1];
      r
  }

  /** `doc.querySelector('meta[<attr>="<value>"]')?.content`, with "" for a missing
      element or attribute. */
  function MetaContent(doc: Doc, attr: string, value: string): string {
    match QuerySelector(AttrEquals("meta", attr, value), doc)
    case Some(m) => AttrOr(m, "content")
    case None => ""
  }

  /** `getMeta(prop)`: by `property`, else by `name`. */
  function GetMeta(doc: Doc, prop: string): string {
    FirstTruthy([MetaContent(doc, "property", prop), MetaContent(doc, "name", prop)]).GetOr("")
  }

  /** `doc.querySelector('title')?.textContent.trim()`. */
  function TitleText(doc: Doc): string {
    match QuerySelector(Tag("title"), doc)
    case Some(t) => Trim(TextContent(t))
    case None => ""
  }

  function NameCandidates(doc: Doc): seq<string> {
    [GetMeta(doc, "og:site_name"), GetMeta(doc, "og:title"), TitleText(doc)]
  }

  /** The page's name: the first non-empty of `og:site_name`, `og:title` and the trimmed
      title, else the final URL's host name. None where that last step throws. */
  function PageName(kit: UrlKit, doc: Doc, finalUrl: string): (r: Option<string>)
    ensures FirstTruthy(NameCandidates(doc)).Some? ==> r == FirstTruthy(NameCandidates(doc))
    ensures FirstTruthy(NameCandidates(doc)).None? ==>
              r == (match kit.parse(finalUrl) case Some(u) => Some(u.hostname) case None => None)
  {
    match FirstTruthy(NameCandidates(doc))
    case Some(n) => Some(n)
    case None =>
      match kit.parse(finalUrl)
      case Some(u) => Some(u.hostname)
      case None => None
  }

  /** `og:description`, else `description`, else "". */
  function PageDesc(doc: Doc): string {
    FirstTruthy([GetMeta(doc, "og:description"), GetMeta(doc, "description")]).GetOr("")
  }

  // ---------------------------------------------------------------------------------
  // Icon

  /** The icon candidates, best first. */
  const IconSelectors: seq<Selector> := [
    AttrEquals("link", "rel", "apple-touch-icon"),
    AttrEquals("link", "rel", "icon"),
    AttrEquals("link", "rel", "shortcut icon"),
    AttrEquals("meta", "property", "og:image")]

  /** The URL of a document `new JSDOM(html)` builds when no `url` option is given. */
  const AboutBlank: string := "about:blank"

  /** A `<base>` element carrying an `href`. */
  predicate IsBaseWithHref(l: Label) {
    l.ElemLabel? && l.tag == "base" && "href" in l.attrs
  }

  /** The document base URL (HTML Standard, section 2.4.1): the first `<base href>` in
      tree order, its `href` parsed against the document's URL (`about:blank`, which is
      also the fallback when that parse fails); the document's URL when there is no such
      element. */
  function DocumentBaseUrl(kit: UrlKit, doc: Doc): string {
    var first := match FindFirst(IsBaseWithHref, doc.head)
                 case Some(b) => Some(b)
                 case None => FindFirst(IsBaseWithHref, doc.body);
    match first
    case None => AboutBlank
    case Some(b) =>
      match kit.parseAgainst(AttrOr(b, "href"), AboutBlank)
      case Some(u) => u.href
      case None => AboutBlank
  }

  /** `el.href` of a `<link>`: "" without the attribute; else the attribute resolved
      against the document base URL, or the attribute as written where that fails (the
      reflection of URL attributes, HTML Standard, section 2.6.1). */
  function ReflectedHref(kit: UrlKit, doc: Doc, el: Node): string {
    if el.Elem? && "href" in el.attrs then
      match kit.parseAgainst(el.attrs["href"], DocumentBaseUrl(kit, doc))
      case Some(u) => u.href
      case None => el.attrs["href"]
    else ""
  }

  /** `el.href || el.content` for the first element a candidate selector finds: the
      reflected `href` of a `<link>`, the `content` of a `<meta>`. */
  function IconReference(kit: UrlKit, doc: Doc, sel: Selector): string {
    match QuerySelector(sel, doc)
    case None => ""
    case Some(el) =>
      var href := if el.Elem? && el.tag == "link" then ReflectedHref(kit, doc, el) else "";
      var content := if el.Elem? && el.tag == "meta" then AttrOr(el, "content") else "";
      if href != "" then href else content
  }

  /** A candidate qualifies when its element has a non-empty reference that resolves
      against the final URL. */
  predicate Qualifies(kit: UrlKit, doc: Doc, base: string, sel: Selector) {
    IconReference(kit, doc, sel) != "" && kit.parseAgainst(IconReference(kit, doc, sel), base).Some?
  }

  function ResolvedIcon(kit: UrlKit, doc: Doc, base: string, sel: Selector): string
    requires Qualifies(kit, doc, base, sel)
  {
    kit.parseAgainst(IconReference(kit, doc, sel), base).value.href
  }

  /** The loop over the candidate selectors: the resolved URL of the first that
      qualifies, or None when none does. */
  function PickIcon(kit: UrlKit, doc: Doc, base: string, sels: seq<Selector>): (r: Option<string>)
    ensures r.None? <==> forall k :: 0 <= k < |sels| ==> !Qualifies(kit, doc, base, sels[k])
    ensures r.Some? ==>
              exists k :: 0 <= k < |sels| && Qualifies(kit, doc, base, sels[k])
                          && r.value == ResolvedIcon(kit, doc, base, sels[k])
                          && forall j :: 0 <= j < k ==> !Qualifies(kit, doc, base, sels[j])
  {
    if sels == [] then None
    else if Qualifies(kit, doc, base, sels[0]) then Some(ResolvedIcon(kit, doc, base, sels[0]))
    else
      var r := PickIcon(kit, doc, base, sels[1..]);
      assert forall k :: 1 <= k < |sels| ==> sels[k] == sels[1..][k - 1];
      r
  }

  /** The icon URL: the chosen candidate, else `/favicon.ico` resolved against the final
      URL. None where that resolution throws. */
  function IconUrl(kit: UrlKit, doc: Doc, finalUrl: string): (r: Option<string>)
    ensures var picked := PickIcon(kit, doc, finalUrl, IconSelectors);
            var favicon := kit.parseAgainst("/favicon.ico", finalUrl);
            && (picked.Some? && picked.value != "" ==> r == picked)
            && (picked.None? || picked.value == "" ==>
                  (r.Some? <==> favicon.Some?) && (r.Some? ==> r.value == favicon.value.href))
  {
    var picked := PickIcon(kit, doc, finalUrl, IconSelectors);
    if picked.Some? && picked.value != "" then picked
    else
      match kit.parseAgainst("/favicon.ico", finalUrl)
      case Some(f) => Some(f.href)
      case None => None
  }

  /** The icon response is kept when it is a 2xx answer whose content type starts with
      `image/` or contains `icon`. */
  function AcceptedIcon(t: Transport): (data: Option<seq<Byte>>)
    ensures data.Some? <==>
              t.Answered? && IsSuccessStatus(t.response.status)
              && Truthy(Header(t.response, "content-type"))
              && (StartsWith(Header(t.response, "content-type").value, "image/")
                  || Contains(Header(t.response, "content-type").value, "icon"))
    ensures data.Some? ==> data.value == t.response.bytes
  {
    match Axios(t, IsSuccessStatus)
    case Rejected(_) => None
    case Resolved(r) =>
      match Header(r, "content-type")
      case Some(ct) =>
        if ct != "" && (StartsWith(ct, "image/") || Contains(ct, "icon")) then Some(r.bytes) else None
      case None => None
  }

  // ---------------------------------------------------------------------------------
  // crawl

  /** The record a crawl starts from. */
  function InitialSite(t: string): Site {
    Site(t, t, DefaultIcon, None, UntitledName, "", false)
  }

  /** The outer `catch`: the name becomes the host name of the normalised URL when that
      parses; every other field keeps the value it had reached. */
  function Recover(kit: UrlKit, t: string, s: Site): Site {
    match kit.parse(t)
    case Some(u) => s.(name := u.hostname)
    case None => s
  }

  /** The page fetch accepts any status below 400. */
  predicate PageStatusAccepted(status: int) {
    status < 400
  }

  predicate PageFetchFailed(t: Transport) {
    Axios(t, PageStatusAccepted).Rejected?
  }

  /** The last step: the icon and its data are set together, and only when the icon
      response is accepted. */
  function StoreIcon(s: Site, iconUrl: string, answer: Transport): (r: Site)
    ensures r.url == s.url && r.finalUrl == s.finalUrl && r.frameRestricted == s.frameRestricted
    ensures r.name == s.name && r.desc == s.desc
    ensures AcceptedIcon(answer).None? ==> r == s
    ensures AcceptedIcon(answer).Some? ==> r.icon == iconUrl && r.iconData == AcceptedIcon(answer)
  {
    match AcceptedIcon(answer)
    case Some(data) => s.(icon := iconUrl, iconData := Some(data))
    case None => s
  }

  /** From the resolved name onwards: pick the icon URL and fetch it, unless it is empty
      (the `if (iconUrl)` guard). */
  function ResolveIcon(kit: UrlKit, t: string, s: Site, doc: Doc, fetch: string -> Transport): (r: Site)
    ensures r.url == s.url && r.finalUrl == s.finalUrl && r.frameRestricted == s.frameRestricted
    ensures r.desc == s.desc
    ensures IconUrl(kit, doc, s.finalUrl).Some? ==> r.name == s.name
    ensures IconUrl(kit, doc, s.finalUrl) == Some("") ==> r == s
    ensures r.icon != s.icon ==> IconUrl(kit, doc, s.finalUrl) == Some(r.icon) && r.icon != ""
    ensures IconUrl(kit, doc, s.finalUrl).Some? && IconUrl(kit, doc, s.finalUrl).value != "" ==>
              var u := IconUrl(kit, doc, s.finalUrl).value;
              r == (if AcceptedIcon(fetch(u)).Some? then s.(icon := u, iconData := AcceptedIcon(fetch(u))) else s)
    ensures s.icon == DefaultIcon && s.iconData.None? ==>
              && (r.iconData.None? ==> r.icon == DefaultIcon)
              && (r.iconData.Some? ==> AcceptedIcon(fetch(r.icon)) == r.iconData)
  {
    match IconUrl(kit, doc, s.finalUrl)
    case None => Recover(kit, t, s)
    case Some(iconUrl) => if iconUrl == "" then s else StoreIcon(s, iconUrl, fetch(iconUrl))
  }

  /** From the answered page onwards: headers, then name and description, then the icon. */
  function Analyse(kit: UrlKit, t: string, r: HttpResponse, fetch: string -> Transport): (s: Site)
    ensures s.url == t && s.finalUrl == r.responseUrl.GetOr(t)
    ensures s.frameRestricted == IsFrameRestricted(Header(r, "x-frame-options"), Header(r, "content-security-policy"))
    ensures PageName(kit, r.doc, r.responseUrl.GetOr(t)).Some? ==> s.desc == PageDesc(r.doc)
    ensures PageName(kit, r.doc, r.responseUrl.GetOr(t)).Some?
            && IconUrl(kit, r.doc, r.responseUrl.GetOr(t)).Some? && IconUrl(kit, r.doc, r.responseUrl.GetOr(t)).value != "" ==>
              var u := IconUrl(kit, r.doc, r.responseUrl.GetOr(t)).value;
              && s.name == PageName(kit, r.doc, r.responseUrl.GetOr(t)).value
              && (AcceptedIcon(fetch(u)).Some? ==> s.icon == u && s.iconData == AcceptedIcon(fetch(u)))
              && (AcceptedIcon(fetch(u)).None? ==> s.icon == DefaultIcon && s.iconData.None?)
    ensures (s.iconData.None? ==> s.icon == DefaultIcon)
            && (s.iconData.Some? ==> AcceptedIcon(fetch(s.icon)) == s.iconData)
  {
    var finalUrl := r.responseUrl.GetOr(t);
    var s1 := InitialSite(t).(
      finalUrl := finalUrl,
      frameRestricted := IsFrameRestricted(Header(r, "x-frame-options"), Header(r, "content-security-policy")));
    match PageName(kit, r.doc, finalUrl)
    case None => Recover(kit, t, s1)
    case Some(name) => ResolveIcon(kit, t, s1.(name := name, desc := PageDesc(r.doc)), r.doc, fetch)
  }

  /** `crawl` for an already normalised URL `t`, with `fetch` standing for the transport. */
  function CrawlNormalized(kit: UrlKit, t: string, fetch: string -> Transport): (s: Site)
    ensures s.url == t
  {
    match Axios(fetch(t), PageStatusAccepted)
    case Rejected(_) => Recover(kit, t, InitialSite(t))
    case Resolved(r) => Analyse(kit, t, r, fetch)
  }

  /** `crawl(initial_url)`: None (JavaScript's `null`) for an empty URL. */
  function Crawl(kit: UrlKit, initial: string, fetch: string -> Transport): (r: Option<Site>)
    ensures r.None? <==> initial == ""
    ensures r.Some? ==> r.value.url == NormalizeUrl(initial)
    ensures r.Some? ==> r.value == CrawlNormalized(kit, NormalizeUrl(initial), fetch)
  {
    if initial == "" then None else Some(CrawlNormalized(kit, NormalizeUrl(initial), fetch))
  }

  /** When the page fetch fails, with a network error or a status of 400 or more, the
      record is the degraded one: final URL the normalised URL, framing allowed, empty
      description, default icon, and the host name (or "Untitled Page") as its name. */
  lemma CrawlFailureRecord(kit: UrlKit, t: string, fetch: string -> Transport)
    requires PageFetchFailed(fetch(t))
    ensures var s := CrawlNormalized(kit, t, fetch);
            && s.url == t && s.finalUrl == t && !s.frameRestricted && s.desc == ""
            && s.icon == DefaultIcon && s.iconData.None?
            && s.name == (match kit.parse(t) case Some(u) => u.hostname case None => UntitledName)
  {
  }

  /** Once the page answers, the final URL and the frame decision are those of the
      answer, whatever goes wrong afterwards. */
  lemma CrawlHeadersDecide(kit: UrlKit, t: string, fetch: string -> Transport)
    requires !PageFetchFailed(fetch(t))
    ensures var r := fetch(t).response;
            var s := CrawlNormalized(kit, t, fetch);
            && s.finalUrl == r.responseUrl.GetOr(t)
            && s.frameRestricted == IsFrameRestricted(Header(r, "x-frame-options"), Header(r, "content-security-policy"))
  {
    assert Axios(fetch(t), PageStatusAccepted).Resolved?;
  }

  /** Once the page answers, a name is found and an icon URL resolves, name and
      description are the page's. */
  lemma CrawlNames(kit: UrlKit, t: string, fetch: string -> Transport)
    requires !PageFetchFailed(fetch(t))
    requires PageName(kit, fetch(t).response.doc, fetch(t).response.responseUrl.GetOr(t)).Some?
    requires IconUrl(kit, fetch(t).response.doc, fetch(t).response.responseUrl.GetOr(t)).Some?
    ensures var r := fetch(t).response;
            var s := CrawlNormalized(kit, t, fetch);
            && s.name == PageName(kit, r.doc, r.responseUrl.GetOr(t)).value
            && s.desc == PageDesc(r.doc)
  {
    assert Axios(fetch(t), PageStatusAccepted).Resolved?;
  }

  /** The icon leaves its default only together with its data, and only for an icon URL
      whose fetch was accepted; the data are that response's bytes. */
  lemma CrawlIconGate(kit: UrlKit, t: string, fetch: string -> Transport)
    ensures var s := CrawlNormalized(kit, t, fetch);
            && (s.iconData.None? ==> s.icon == DefaultIcon)
            && (s.iconData.Some? ==> AcceptedIcon(fetch(s.icon)) == s.iconData)
  {
  }

  /** Conversely, once the page answers and yields a name, an accepted fetch of the chosen
      non-empty icon URL sets the icon to that URL and keeps the fetched bytes; a rejected
      one leaves the default icon. */
  lemma CrawlStoresAcceptedIcon(kit: UrlKit, t: string, fetch: string -> Transport)
    requires !PageFetchFailed(fetch(t))
    requires var r := fetch(t).response;
             && PageName(kit, r.doc, r.responseUrl.GetOr(t)).Some?
             && IconUrl(kit, r.doc, r.responseUrl.GetOr(t)).Some?
             && IconUrl(kit, r.doc, r.responseUrl.GetOr(t)).value != ""
    ensures var r := fetch(t).response;
            var u := IconUrl(kit, r.doc, r.responseUrl.GetOr(t)).value;
            var s := CrawlNormalized(kit, t, fetch);
            && (AcceptedIcon(fetch(u)).Some? ==> s.icon == u && s.iconData == AcceptedIcon(fetch(u)))
            && (AcceptedIcon(fetch(u)).None? ==> s.icon == DefaultIcon && s.iconData.None?)
  {
    assert Axios(fetch(t), PageStatusAccepted) == Resolved(fetch(t).response);
  }

  /** A page sending `X-Frame-Options: SAMEORIGIN` is restricted, whatever its policy. */
  lemma SameOriginPageRestricted(kit: UrlKit, fetch: string -> Transport, r: HttpResponse)
    requires fetch("http://blocked.test") == Answered(r) && r.status < 400
    requires Header(r, "x-frame-options") == Some("SAMEORIGIN")
    ensures Crawl(kit, "http://blocked.test", fetch).value.frameRestricted
  {
    assert HasHttpScheme("http://blocked.test");
    CrawlHeadersDecide(kit, "http://blocked.test", fetch);
    XFrameOptionsWins("SAMEORIGIN", Header(r, "content-security-policy"));
  }

  const OpenTestTitle: Node := Elem("title", map[], [Text("Open Test")])
  const OpenTestDoc: Doc := Doc([OpenTestTitle], [])

  /** No `<meta>` or `<link>` selector finds anything in the one-title page. */
  lemma OnlyTheTitle(sel: Selector)
    requires sel.AttrEquals? && sel.tag != "title"
    ensures QuerySelector(sel, OpenTestDoc) == None
  {
    var p := Matcher(sel);
    assert !p(LabelOf(OpenTestTitle)) by {
      assert p(LabelOf(OpenTestTitle)) == SelectorMatches(sel, LabelOf(OpenTestTitle));
    }
    assert !p(LabelOf(Text("Open Test")));
    FindFirstCons(p, Text("Open Test"), []);
    FindFirstCons(p, OpenTestTitle, []);
    assert [OpenTestTitle] == [OpenTestTitle] + [];
  }

  lemma OpenTestTitleText()
    ensures TitleText(OpenTestDoc) == "Open Test"
  {
    var p := Matcher(Tag("title"));
    assert p(LabelOf(OpenTestTitle));
    FindFirstCons(p, OpenTestTitle, []);
    assert [OpenTestTitle] == [OpenTestTitle] + [];
    assert TextContent(OpenTestTitle) == "Open Test" by {
      assert TextContentAll([Text("Open Test")]) == "Open Test" + TextContentAll([]);
    }
    TrimUntouched("Open Test");
  }

  lemma OpenTestNames()
    ensures FirstTruthy(NameCandidates(OpenTestDoc)) == Some("Open Test")
  {
    OnlyTheTitle(AttrEquals("meta", "property", "og:site_name"));
    OnlyTheTitle(AttrEquals("meta", "name", "og:site_name"));
    OnlyTheTitle(AttrEquals("meta", "property", "og:title"));
    OnlyTheTitle(AttrEquals("meta", "name", "og:title"));
    assert FirstTruthy(["", ""]) == None;
    OpenTestTitleText();
    assert NameCandidates(OpenTestDoc) == ["", "", "Open Test"];
    assert FirstTruthy(["", "", "Open Test"]) == Some("Open Test");
  }

  lemma OpenTestHasNoIcon(kit: UrlKit, finalUrl: string)
    ensures PickIcon(kit, OpenTestDoc, finalUrl, IconSelectors) == None
  {
    forall k | 0 <= k < |IconSelectors|
      ensures !Qualifies(kit, OpenTestDoc, finalUrl, IconSelectors[k])
    {
      NoIconCandidate(kit, IconSelectors[k]);
    }
  }

  lemma NoIconCandidate(kit: UrlKit, sel: Selector)
    requires sel.AttrEquals? && sel.tag != "title"
    ensures IconReference(kit, OpenTestDoc, sel) == ""
  {
    OnlyTheTitle(sel);
  }

  /** A page with a title, no meta tags and neither frame header is named by its title and
      may be framed. */
  lemma OpenTestScenario(kit: UrlKit, fetch: string -> Transport, r: HttpResponse)
    requires fetch("https://open.test") == Answered(r) && r.status < 400
    requires r.doc == OpenTestDoc && r.headers == map[]
    requires kit.parseAgainst("/favicon.ico", r.responseUrl.GetOr("https://open.test")).Some?
    ensures Crawl(kit, "https://open.test", fetch).value.name == "Open Test"
    ensures !Crawl(kit, "https://open.test", fetch).value.frameRestricted
  {
    var t := "https://open.test";
    var finalUrl := r.responseUrl.GetOr(t);
    assert StartsWithIgnoringCase(t, "https://");
    assert NormalizeUrl(t) == t;
    assert !PageFetchFailed(fetch(t));
    OpenTestNames();
    assert PageName(kit, r.doc, finalUrl) == Some("Open Test");
    OpenTestHasNoIcon(kit, finalUrl);
    assert IconUrl(kit, r.doc, finalUrl).Some?;
    CrawlNames(kit, t, fetch);
    CrawlHeadersDecide(kit, t, fetch);
    assert Header(r, "x-frame-options") == None && Header(r, "content-security-policy") == None;
    NoHeadersNoRestriction();
  }

  const IconLink: Node := Elem("link", map["rel" := "icon", "href" := "/i.png"], [])

  lemma IconLinkFound(sel: Selector)
    requires sel == IconSelectors[0] || sel == IconSelectors[1]
    ensures QuerySelector(sel, Doc([IconLink], [])) == (if sel == IconSelectors[1] then Some(IconLink) else None)
  {
    var p := Matcher(sel);
    assert p(LabelOf(IconLink)) == SelectorMatches(sel, LabelOf(IconLink));
    assert |AsciiLowerAll("apple-touch-icon")| != |AsciiLowerAll("icon")|;
    FindFirstCons(p, IconLink, []);
    assert [IconLink] == [IconLink] + [];
  }

  /** A page whose only icon is `<link rel="icon" href="/i.png">` gets that reference
      resolved against its final URL: without a `<base>`, `el.href` resolves against
      `about:blank`, which a path cannot, and so reads as written. */
  lemma RelativeIconResolved(kit: UrlKit, finalUrl: string, resolved: UrlRecord)
    requires kit.parseAgainst("/i.png", AboutBlank).None?
    requires kit.parseAgainst("/i.png", finalUrl) == Some(resolved) && resolved.href != ""
    ensures IconUrl(kit, Doc([IconLink], []), finalUrl) == Some(resolved.href)
  {
    var d := Doc([IconLink], []);
    IconLinkFound(IconSelectors[0]);
    IconLinkFound(IconSelectors[1]);
    NoBaseElement(kit, d);
    assert IconReference(kit, d, IconSelectors[0]) == "";
    assert IconReference(kit, d, IconSelectors[1]) == "/i.png";
    assert PickIcon(kit, d, finalUrl, IconSelectors[1..]) == Some(resolved.href);
  }

  lemma NoBaseElement(kit: UrlKit, d: Doc)
    requires d == Doc([IconLink], [])
    ensures DocumentBaseUrl(kit, d) == AboutBlank
  {
    assert !IsBaseWithHref(LabelOf(IconLink));
    FindFirstCons(IsBaseWithHref, IconLink, []);
    assert [IconLink] == [IconLink] + [];
  }

  /** `<base href="...">` */
  function PageBase(href: string): Node {
    Elem("base", map["href" := href], [])
  }

  /** A page's own `<base href>` decides what its relative icon reference means: the
      reference is resolved against the base, and only the result against the final
      URL. */
  lemma PageBaseResolvesIcon(kit: UrlKit, base: string, baseUrl: UrlRecord, finalUrl: string,
                             viaBase: UrlRecord, resolved: UrlRecord)
    requires kit.parseAgainst(base, AboutBlank) == Some(baseUrl)
    requires kit.parseAgainst("/i.png", baseUrl.href) == Some(viaBase) && viaBase.href != ""
    requires kit.parseAgainst(viaBase.href, finalUrl) == Some(resolved) && resolved.href != ""
    ensures IconUrl(kit, Doc([PageBase(base), IconLink], []), finalUrl) == Some(resolved.href)
  {
    var d := Doc([PageBase(base), IconLink], []);
    PageBaseFound(kit, base, d);
    PageBaseThenIcon(IconSelectors[0], d, base);
    PageBaseThenIcon(IconSelectors[1], d, base);
    assert IconReference(kit, d, IconSelectors[0]) == "";
    assert IconReference(kit, d, IconSelectors[1]) == viaBase.href;
    assert PickIcon(kit, d, finalUrl, IconSelectors[1..]) == Some(resolved.href);
  }

  lemma PageBaseFound(kit: UrlKit, base: string, d: Doc)
    requires d == Doc([PageBase(base), IconLink], [])
    ensures FindFirst(IsBaseWithHref, d.head) == Some(PageBase(base))
  {
    assert IsBaseWithHref(LabelOf(PageBase(base)));
    FindFirstCons(IsBaseWithHref, PageBase(base), [IconLink]);
    assert d.head == [PageBase(base)] + [IconLink];
  }

  /** The icon selectors pass over the base to the link. */
  lemma PageBaseThenIcon(sel: Selector, d: Doc, base: string)
    requires sel == IconSelectors[0] || sel == IconSelectors[1]
    requires d == Doc([PageBase(base), IconLink], [])
    ensures QuerySelector(sel, d) == (if sel == IconSelectors[1] then Some(IconLink) else None)
  {
    var p := Matcher(sel);
    assert p(LabelOf(PageBase(base))) == SelectorMatches(sel, LabelOf(PageBase(base)));
    IconLinkFound(sel);
    FindFirstCons(p, PageBase(base), [IconLink]);
    assert d.head == [PageBase(base)] + [IconLink];
  }

  // ---------------------------------------------------------------------------------
  // handler

  /** The URL to classify: the `target_url` header, else the `url` query parameter, else
      the `url` field of a JSON body; an empty string counts as absent. */
  function RequestedUrl(e: Event): (r: Option<string>)
    ensures r.Some? ==> r.value != ""
    ensures r.None? <==> TruthyParam(e.headers, "target_url").None? && TruthyParam(e.query, "url").None?
                         && !(e.body.Json? && e.body.url.Some? && e.body.url.value != "")
  {
    match TruthyParam(e.headers, "target_url")
    case Some(u) => Some(u)
    case None =>
      match TruthyParam(e.query, "url")
      case Some(u) => Some(u)
      case None =>
        match e.body
        case Json(Some(u)) => if u != "" then Some(u) else None
        case _ => None
  }

  datatype MetadataBody =
    | NoContent
    | SiteEnvelope(site: Option<Site>)
    | ErrorEnvelope(error: string)

  const MissingUrlError: string := "target_url header is required"

  function MetadataHandler(kit: UrlKit, e: Event, fetch: string -> Transport): (reply: Reply<MetadataBody>)
    ensures e.httpMethod == "OPTIONS" ==> reply == Reply(204, None, NoContent)
    ensures e.httpMethod != "OPTIONS" && RequestedUrl(e).None? ==>
              reply == Reply(400, None, ErrorEnvelope(MissingUrlError))
    ensures e.httpMethod != "OPTIONS" && RequestedUrl(e).Some? ==>
              && reply.status == 200 && reply.body.SiteEnvelope? && reply.body.site.Some?
              && reply.body.site.value.url == NormalizeUrl(RequestedUrl(e).value)
              && reply.body.site == Crawl(kit, RequestedUrl(e).value, fetch)
  {
    if e.httpMethod == "OPTIONS" then Reply(204, None, NoContent)
    else match RequestedUrl(e)
      case None => Reply(400, None, ErrorEnvelope(MissingUrlError))
      case Some(u) => Reply(200, None, SiteEnvelope(Crawl(kit, u, fetch)))
  }

  /** A request whose page cannot be fetched still answers 200, carrying the degraded
      record for the normalised URL. */
  lemma HandlerReportsFailedCrawl(kit: UrlKit, e: Event, fetch: string -> Transport)
    requires e.httpMethod != "OPTIONS" && RequestedUrl(e).Some?
    requires PageFetchFailed(fetch(NormalizeUrl(RequestedUrl(e).value)))
    ensures var t := NormalizeUrl(RequestedUrl(e).value);
            var reply := MetadataHandler(kit, e, fetch);
            && reply.status == 200 && reply.body.SiteEnvelope? && reply.body.site.Some?
            && reply.body.site.value == Recover(kit, t, InitialSite(t))
            && reply.body.site.value.iconData.None? && !reply.body.site.value.frameRestricted
  {
    CrawlFailureRecord(kit, NormalizeUrl(RequestedUrl(e).value), fetch);
  }

  /** The header wins over the query parameter, which wins over the body. */
  lemma RequestedUrlPriority(e: Event)
    ensures TruthyParam(e.headers, "target_url").Some? ==> RequestedUrl(e) == TruthyParam(e.headers, "target_url")
    ensures TruthyParam(e.headers, "target_url").None? && TruthyParam(e.query, "url").Some? ==>
              RequestedUrl(e) == TruthyParam(e.query, "url")
  {
  }
}
