# Reborn XP proxy and site classifier, in Dafny

This project models the four serverless handlers under `netlify/functions/`, together with the two scripts that two of them inject into the pages they serve.

- **`metadata.js`** is the site classifier. `crawl` normalises a URL and fetches the page. From the answer it decides:
  - whether the page may be shown in a cross-origin frame, from `X-Frame-Options` and `Content-Security-Policy`;
  - the page's name and description;
  - its icon, from an ordered list of candidates with a `/favicon.ico` fallback and a content-type gate on the icon fetch.

  When the page cannot be fetched, it returns a degraded record instead. `handler` takes the URL from a header, the query string or a JSON body.
- **`aol-proxy.js`** proxies an AOL Search page:
  - non-HTML answers pass through unchanged;
  - HTML gets a `<base>` at the target's origin;
  - the first element matching each of six AOL selectors is removed;
  - a results header is added, with Web/Images/Videos tabs, a search box and a script that posts search messages;
  - the interceptor script is appended.
- **`ddg-proxy.js`** proxies a DuckDuckGo page. It uses the same pass-through and `<base>` steps, removes `target="_blank"` from links, and appends the interceptor script.
- **`search.js`** proxies AOL Search only:
  - it picks the target from `q` or `url`;
  - it refuses hosts that do not end in `aol.com`;
  - it serves every upstream status;
  - it injects a script. On load the script reports the address. On a link click it either keeps AOL links inside the proxy or asks the classifier whether the destination may be framed.

## Modules

| module | models |
|---|---|
| `Wrappers` | `Option` |
| `Strings` | `startsWith`, `endsWith`, `includes`, `trim`, `toUpperCase`, the case-insensitive scheme test |
| `UriComponent` | `encodeURIComponent` / `decodeURIComponent` (ECMA-262, section 19.2.6), over UTF-8 |
| `UrlKit` | `new URL(...)` as a parameter, and `searchParams.get` |
| `Dom` | the parsed document, the selectors the handlers use, `querySelector`, `remove`, `textContent`, and the `target="_blank"` stripping |
| `Http` | the event a handler receives, its reply, and the transport outcome of one request, with axios' status gate |
| `FramePolicy` | the frameability decision |
| `SiteMetadata` | `crawl` and the metadata `handler` |
| `Messages` | the messages posted to the hosting window |
| `ControlBar` | the AOL results header and its script |
| `PageProxy` | what `aol-proxy.js` and `ddg-proxy.js` share |
| `AolProxy`, `DdgProxy`, `SearchProxy` | the three page proxies |
| `LinkInterceptor` | the script `search.js` injects |

The model keeps the outside world out of the handlers:

- Each handler takes the network as a function `fetch: string -> Transport`, from the URL to either an answer or a network error.
- It takes the WHATWG URL parser as a `UrlKit` value.
- It takes the HTML parser's output as the `doc` field of the answer.

Every statement about a handler therefore holds for every network and every parser.

Every handler is split into two steps:

- a `Route` from the event to "answer now" or "fetch this URL";
- a `Finish` from the transport's outcome to the reply.

"No request is made" is then a statement about `Route`.

### Behaviour worth noting

- **Frame policy.** The `Content-Security-Policy` test is a substring test, so `frame-ancestors *.x.com` permits framing (`FramePolicy.WildcardPermits`, `FramePolicy.Examples`).
- **The `<base>` element.** The proxies prepend a new `<base>` and leave any existing one in place behind it (`DdgProxy.ExistingBaseStays`).
- **Removing AOL elements.** Each selector removes only its first match, so a second footer survives and a second pass removes more (`AolProxy.SecondFooterStays`, `AolProxy.SecondPassRemovesMore`).
- **The icon.** The icon becomes the chosen icon URL exactly when the fetch of that URL is accepted; otherwise it stays the default (`SiteMetadata.CrawlIconGate`, `SiteMetadata.CrawlStoresAcceptedIcon`).
- **Icon references.** A `<link>`'s `href` is read as the browser reflects it: resolved against the page's own `<base href>` when it has one, and only then against the final URL (`SiteMetadata.PageBaseResolvesIcon`).
- **Failures after the page fetch.** A failure after the page has been fetched lands in the crawl's outer `catch`. That `catch` resets only the name, so the final URL and the frame decision already set are kept (`SiteMetadata.CrawlHeadersDecide`).
- **Failure policies.** The crawl is fail-open: an unfetchable page comes back frameable. The click handler is fail-closed: an unreadable classifier reply counts as restricted (`LinkInterceptor.FailOpenVersusFailClosed`).
- **Host tests.** Both host tests are substring and suffix tests, so lookalike hosts pass them (`SearchProxy.LookalikeHostPasses`, `LinkInterceptor.LookalikeIsInternal`).
- **Header tabs.** The header's script binds click handlers when it runs, which is before the rest of the AOL page exists. Only the header's own three tabs respond to clicks, and a `.q-tab` of the AOL page posts nothing (`ControlBar.TabClickReportsItsType`).

## Model

| member | source | states |
|---|---|---|
| Strings.Trim | netlify/functions/metadata.js:53 | `trim()` cuts only JavaScript white space and line terminators, from both ends. Its result is an infix of the input that neither starts nor ends with white space. |
| Strings.TrimUntouched | netlify/functions/metadata.js:53 | A title with no white space at either end keeps its exact text as the page name candidate. |
| UriComponent.EncodeURIComponent | netlify/functions/search.js:17 | The encoded query uses only unreserved characters, `%` and upper-case hex digits. It can never contain `&`, `#`, `=` or `?`, which would end the `q` parameter. |
| UriComponent.DecodeEncode | netlify/functions/search.js:88 | `decodeURIComponent(encodeURIComponent(s)) == s` for every string, so the `url` parameter of a proxy link carries the link unchanged. |
| UriComponent.DecodeEncodedChar | netlify/functions/search.js:17 | Decoding reads back the encoding of one character, in any of its four UTF-8 lengths, and consumes exactly that encoding. |
| UrlKit.SearchParam | netlify/functions/aol-proxy.js:40 | `searchParams.get('q')` is the value of the first `q` pair, and null exactly when there is none. |
| Http.Axios | netlify/functions/metadata.js:25-29 | An axios call resolves exactly when the request is answered with a status its `validateStatus` accepts. It then carries that response. |
| Http.TruthyParam | netlify/functions/ddg-proxy.js:15-16 | A parameter counts as given exactly when it is present and not empty. |
| FramePolicy.IsFrameRestricted | netlify/functions/metadata.js:34-46 | The site is restricted exactly when one of two things holds: `X-Frame-Options` upper-cased is `DENY` or `SAMEORIGIN`, or the CSP contains `frame-ancestors` but not `frame-ancestors *`. |
| FramePolicy.XFrameOptionsWins | netlify/functions/metadata.js:38-40 | `DENY` or `SAMEORIGIN`, in any case, restricts whatever the CSP says. |
| FramePolicy.PolicyDecidesOtherwise | netlify/functions/metadata.js:42-46 | Without a forbidding `X-Frame-Options`, the CSP substring test alone decides, in both directions. |
| FramePolicy.NoHeadersNoRestriction | netlify/functions/metadata.js:21 | A page with neither header stays frameable. |
| FramePolicy.WildcardPermits | netlify/functions/metadata.js:43 | Any policy containing `frame-ancestors *`, wildcard subdomains included, permits framing. |
| FramePolicy.Examples | netlify/functions/metadata.js:38-46 | `'self'` restricts. `*.x.com` does not. Lower-case `sameorigin` restricts. `ALLOW-FROM` does not. |
| SiteMetadata.NormalizeUrl | netlify/functions/metadata.js:9-12 | A URL starting with `http://` or `https://`, in any case, is kept as it is. Anything else gets `https://` in front. The result always has an HTTP scheme and ends with the input. |
| SiteMetadata.NormalizeUrlIdempotent | netlify/functions/metadata.js:9-12 | Normalising twice is normalising once. |
| SiteMetadata.FirstTruthy | netlify/functions/metadata.js:54 | A chain of logical ORs over strings gives the first non-empty one, and nothing when all are empty. |
| SiteMetadata.PageName | netlify/functions/metadata.js:53 | The name is the first non-empty of `og:site_name`, `og:title` and the trimmed title. Failing those it is the final URL's host name, and none where parsing that URL throws. |
| SiteMetadata.PickIcon | netlify/functions/metadata.js:63-72 | The chosen icon comes from the first selector, in order, whose element has a non-empty reference that resolves against the final URL. A `<link>`'s reference is its `href` resolved against the document's base URL. The result is none when no selector qualifies. |
| SiteMetadata.IconUrl | netlify/functions/metadata.js:63-76 | The icon URL is the chosen candidate. Failing that it is `/favicon.ico` resolved against the final URL, and none where that resolution throws. |
| SiteMetadata.RelativeIconResolved | netlify/functions/metadata.js:64-69 | A page whose only icon is `<link rel="icon" href="/i.png">`, with no `<base>`, gets that reference resolved against its final URL. This holds for any parser under which `/i.png` does not resolve against `about:blank`, which is the case for the WHATWG parser. |
| SiteMetadata.PageBaseResolvesIcon | netlify/functions/metadata.js:48-68 | On a page with its own `<base href>`, a relative icon reference is resolved first against that base and only then against the final URL. |
| SiteMetadata.AcceptedIcon | netlify/functions/metadata.js:80-90 | The icon bytes are kept exactly when the icon answer is 2xx and has a content type that starts with `image/` or contains `icon`. |
| SiteMetadata.StoreIcon | netlify/functions/metadata.js:86-90 | The icon and its data change together and only for an accepted answer. No other field changes. |
| SiteMetadata.ResolveIcon | netlify/functions/metadata.js:56-92 | The icon step never touches the URL, the final URL, the frame decision or the description. An empty icon URL is not fetched and changes nothing. For a non-empty icon URL, the icon and its data are set to that URL and the fetched bytes exactly when the fetch is accepted; otherwise nothing changes. |
| SiteMetadata.Analyse | netlify/functions/metadata.js:31-92 | On an answered page, three things hold. The final URL is the redirect target and the frame decision is the headers'. The icon leaves its default only with the data of an accepted icon fetch. When a name is found and the icon URL is non-empty, the name is that name, and the icon is set to the icon URL exactly when its fetch is accepted. |
| SiteMetadata.CrawlNormalized | netlify/functions/metadata.js:14-97 | The record reports the URL it was asked for. |
| SiteMetadata.Crawl | netlify/functions/metadata.js:7-12 | An empty URL gives null. Any other URL gives the crawl of its normalised form. |
| SiteMetadata.CrawlFailureRecord | netlify/functions/metadata.js:14-29 | When the page fetch fails (network error or status 400 and up), the record is the degraded one. The final URL is the normalised URL, framing is allowed, the description is empty and the icon is the default. The name is the host name, or `Untitled Page` where the URL does not parse. |
| SiteMetadata.CrawlHeadersDecide | netlify/functions/metadata.js:31-46 | Once the page answers, the final URL and the frame decision are the answer's, whatever fails later. |
| SiteMetadata.CrawlNames | netlify/functions/metadata.js:53-54 | When the page answers and nothing throws, name and description follow their fallback chains. |
| SiteMetadata.CrawlIconGate | netlify/functions/metadata.js:17-18 | The icon leaves `/images/xp/icons/ApplicationWindow.png` only together with its data. The data are the bytes of an accepted fetch of that icon URL. |
| SiteMetadata.CrawlStoresAcceptedIcon | netlify/functions/metadata.js:63-90 | On an answered page with a name and a non-empty icon URL, the crawl's icon is that URL and its data the fetched bytes exactly when the icon fetch is accepted. Otherwise the icon stays the default without data. |
| SiteMetadata.SameOriginPageRestricted | netlify/functions/metadata.js:38-40 | A page answering with `X-Frame-Options: SAMEORIGIN` is reported restricted. |
| SiteMetadata.OpenTestScenario | netlify/functions/metadata.js:42-53 | A page with a title, no meta tags and no frame headers is named by its title and is frameable. |
| SiteMetadata.RequestedUrl | netlify/functions/metadata.js:111-118 | The URL comes from the `target_url` header, else the `url` query parameter, else the body's `url`. Empty values count as absent. It is absent only when all three are. |
| SiteMetadata.RequestedUrlPriority | netlify/functions/metadata.js:111-118 | The header wins over the query parameter, which wins over the body. |
| SiteMetadata.MetadataHandler | netlify/functions/metadata.js:107-134 | OPTIONS gives 204. A request without a URL gives 400 with the error JSON. Any other request gives 200 carrying exactly the crawl of the requested URL, a record for its normalised form. |
| SiteMetadata.HandlerReportsFailedCrawl | netlify/functions/metadata.js:94-96 | A request whose page cannot be fetched still gets 200. The reply carries the degraded record: default icon without data, framing allowed, and the name the outer `catch` sets. |
| PageProxy.Route | netlify/functions/aol-proxy.js:13-16 | OPTIONS gives 204 and an empty or missing `url` gives 400. Otherwise exactly that URL is fetched. |
| PageProxy.Finish | netlify/functions/ddg-proxy.js:18-57 | The reply is 200 exactly when the fetch got a 2xx answer and, for HTML, `new URL(target)` succeeds. A network error gives 500 `Error: <its message>`, and an HTML answer for an unparseable target gives 500 `Error: Invalid URL`. Non-HTML carries the answer's bytes and content type. HTML carries the rewritten document. |
| PageProxy.Failure | netlify/functions/ddg-proxy.js:55-57 | The catch block answers 500 with no content type, and the body is `Error: ` followed by exactly the error's message. |
| PageProxy.NoFetchWithoutUrl | netlify/functions/ddg-proxy.js:13-16 | A preflight or a request without `url` is answered without any request, so the answer does not depend on the network. |
| PageProxy.UpstreamErrorStatus | netlify/functions/aol-proxy.js:19-22 | A non-2xx upstream answer is rejected by axios' default gate. It becomes a 500 whose body names the status. |
| PageProxy.NonHtmlPassesThrough | netlify/functions/aol-proxy.js:24-32 | A 2xx answer whose content type lacks `text/html` goes back as 200 with its own content type and bytes. No rewrite or URL parse is involved. |
| AolProxy.RewriteFrame | netlify/functions/aol-proxy.js:45-136 | The rewritten page has three fixed points. The head starts with the base at the target's origin. The body starts with the results header for the target's search type and query, and ends with the interceptor. |
| AolProxy.RewriteOfPlainPage | netlify/functions/aol-proxy.js:45-136 | On a page with none of the AOL elements, the rewrite only adds the base, the header and the interceptor. Everything else keeps its place. |
| AolProxy.BaseSurvivesSelectors | netlify/functions/aol-proxy.js:46-55 | The injected base matches none of the six removal selectors. |
| AolProxy.RemoveEachKeepsLeader | netlify/functions/aol-proxy.js:51-55 | The removals keep the base first in the head. |
| AolProxy.RemoveEachKeepsNoMatch | netlify/functions/aol-proxy.js:51-55 | The removals never create a match where there was none. |
| AolProxy.RemoveEachNoMatch | netlify/functions/aol-proxy.js:51-55 | When no selector finds anything, the removals change nothing. |
| AolProxy.TwoFootersLoseOne | netlify/functions/aol-proxy.js:51-55 | On a page with two footers, only the `footer` lookup finds something, and only the first footer goes. |
| AolProxy.SecondFooterStays | netlify/functions/aol-proxy.js:51-55 | Each selector removes one element at most, so a rewritten two-footer page keeps its second footer. |
| AolProxy.SecondPassRemovesMore | netlify/functions/aol-proxy.js:51-55 | The removal is not idempotent: a second pass removes the footer the first left. |
| AolProxy.RewriteHeadKeepsNoMatch | netlify/functions/aol-proxy.js:46-55 | The base and the removals add no element that the base does not match to the head. |
| AolProxy.RewriteFindsActiveTab | netlify/functions/aol-proxy.js:100-116 | In a rewritten page, `.q-tab.active` finds the header's tab for the target's search type. |
| AolProxy.RewriteFindsSearchInput | netlify/functions/aol-proxy.js:105 | In a rewritten page, `#q-inner-search` is the header's search box, and its value is the target's `q` parameter. |
| AolProxy.SearchReportsTargetType | netlify/functions/aol-proxy.js:114-121 | In a rewritten page, the Search button and the Enter key post a search for the typed text with the target's search type. |
| AolProxy.RewriteBindsHeaderTabs | netlify/functions/aol-proxy.js:122-124 | In a rewritten page whose head held no `.q-tab`, the script binds the header's three tabs and no tab of the AOL page. |
| ControlBar.SearchTypeOf | netlify/functions/aol-proxy.js:41-43 | The type is `videos` exactly when the URL contains `/video`. It is `images` exactly when it contains `/image` but not `/video`. Otherwise it is `web`. |
| ControlBar.ExactlyOneActiveTab | netlify/functions/aol-proxy.js:100-102 | Every tab is a `.q-tab` and carries its `data-type`. It is `.active` exactly when its type is the search type. |
| ControlBar.HeaderFindsActiveTab | netlify/functions/aol-proxy.js:116 | A document-order search of the header for `.q-tab.active` finds the active tab. |
| ControlBar.DocFindsActiveTab | netlify/functions/aol-proxy.js:116 | In a document whose body starts with the header and whose head holds no active tab, `querySelector('.q-tab.active')` is the header's active tab. |
| ControlBar.DocFindsSearchInput | netlify/functions/aol-proxy.js:105 | In a document whose body starts with the header, `getElementById('q-inner-search')` is the header's box holding the query. |
| ControlBar.HeaderMessage | netlify/functions/aol-proxy.js:111-127 | The logo posts `navigate_to about:home`. Enter does what the button does and other keys nothing. A tab click posts exactly when the clicked tab is one the script bound. Every other message is a search for the typed text. |
| ControlBar.TabClickReportsItsType | netlify/functions/aol-proxy.js:122-124 | With the header first in the body and no `.q-tab` in the head, the bound tabs are exactly the header's three. Clicking one posts a search with that tab's own type, active or not, and nothing else posts a tab search. |
| ControlBar.HeaderBindsItsTabs | netlify/functions/aol-proxy.js:98-103 | `querySelectorAll('.q-tab')` over the header gives its three tabs in document order, and nothing else in the header. |
| DdgProxy.RewriteShape | netlify/functions/ddg-proxy.js:39-47 | The rewritten page has the base first in the head and the interceptor last in the body. In between is the original page, with each node in its place and only `target="_blank"` attributes changed. |
| DdgProxy.NoNewWindowLinks | netlify/functions/ddg-proxy.js:43 | No anchor in the rewritten page still has `target="_blank"`. |
| DdgProxy.StripSettles | netlify/functions/ddg-proxy.js:39-47 | Rewriting a rewritten page strips nothing more. It only adds a second base and a second interceptor. |
| DdgProxy.ExistingBaseStays | netlify/functions/ddg-proxy.js:39-41 | A page's own `<base>` is kept, behind the injected one. |
| Dom.FindFirstCons | netlify/functions/aol-proxy.js:53 | `querySelector` looks at a node, then its subtree, then its later siblings. |
| Dom.FindAllStartsWithFirst | netlify/functions/aol-proxy.js:122 | Every node `querySelectorAll` returns matches, and it returns none exactly when `querySelector` finds nothing. Otherwise its first node is the one `querySelector` finds. |
| Dom.FindAllAppend | netlify/functions/aol-proxy.js:122 | `querySelectorAll` over two forests in order returns the first forest's matches, then the second's. |
| Dom.RemoveFirstRemovesFound | netlify/functions/aol-proxy.js:53-54 | The element removed is the one `querySelector` returns. |
| Dom.FindFirstNoneIff | netlify/functions/aol-proxy.js:53-54 | `querySelector` finds nothing exactly when no node in document order matches. |
| Dom.RemoveFirstCutsFirstMatch | netlify/functions/aol-proxy.js:53-54 | Removing the first match cuts exactly one contiguous block out of the document order: the first matching node and its subtree. With no match, nothing changes. |
| Dom.RemoveFirstInDocCuts | netlify/functions/aol-proxy.js:52-55 | Over a whole document, head first: nothing changes when nothing matches. Otherwise the element `querySelector` finds goes with exactly its subtree, and every other node stays in order. |
| Dom.RemoveFirstInDocKeepsNoMatch | netlify/functions/aol-proxy.js:52-55 | A removal never gives the head or the body a match for any test where it had none. |
| Dom.RemoveFirstInDocKeepsLeader | netlify/functions/aol-proxy.js:52-55 | An empty element at the front of the head that the selector does not match stays at the front. |
| Dom.StripLabelFacts | netlify/functions/ddg-proxy.js:43 | Stripping touches only an `a` whose `target` is `_blank` (ASCII case-insensitively), and removes only its `target`. A stripped node no longer matches. |
| Dom.FlattenStripAll | netlify/functions/ddg-proxy.js:43 | Stripping keeps the document order node for node, each node stripped in place. |
| Dom.NoTargetBlankLeft | netlify/functions/ddg-proxy.js:43 | After stripping, no node matches `a[target="_blank"]`. |
| Dom.StripAllIdempotent | netlify/functions/ddg-proxy.js:43 | Stripping twice is stripping once. |
| SearchProxy.TargetOf | netlify/functions/search.js:13-20 | With `q`, the target is the AOL search URL followed by a value that decodes back to `q` and contains no `&` or `#`, so the whole query is one `q` parameter. Else it is `url`. Else it is the AOL home page. It is never empty. |
| SearchProxy.QueryWinsOverUrl | netlify/functions/search.js:16-17 | When `q` is given, `url` is never looked at. |
| SearchProxy.Route | netlify/functions/search.js:22-29 | The target is fetched exactly when it parses and its host name ends in `aol.com`. An unparseable target gives 400 `Invalid URL` and any other refusal gives 403 `Access Denied: This proxy only handles AOL Search.`, both as text/html. |
| SearchProxy.NoFetchOutsideGate | netlify/functions/search.js:22-29 | A refused target is answered without a request, whatever the network would do. |
| SearchProxy.LookalikeHostPasses | netlify/functions/search.js:23-24 | The gate is a suffix test, so `evilaol.com` is fetched. |
| SearchProxy.InsertBase | netlify/functions/search.js:41-44 | The base ends up first in the head, both when the head had children and when it had none, and the old children follow in order. |
| SearchProxy.Finish | netlify/functions/search.js:31-110 | Every answered request, whatever its status, is served as a rewritten 200 page. A network error is a 500 whose body is exactly `Proxy Error: ` followed by the error's message. Every reply is text/html. |
| SearchProxy.UpstreamStatusIgnored | netlify/functions/search.js:32-35 | An upstream 404 or 500 is still served as 200. |
| SearchProxy.EveryAnswerIsHtml | netlify/functions/search.js:8-11 | Every reply of the handler, error or not, is labelled text/html. |
| SearchProxy.RewriteFrame | netlify/functions/search.js:41-101 | The rewritten page adds the base first in the head and the script last in the body. Everything else stays where it was. |
| LinkInterceptor.ServedPageAnnouncesTarget | netlify/functions/search.js:46-55 | Every page the search proxy serves with status 200 ends with the injected script. On load, that script's listener (`LinkInterceptor.OnLoad`) reports `rebornxp_address_update` with the very URL the proxy fetched. |
| LinkInterceptor.InternalIffContainsAol | netlify/functions/search.js:82 | A link is internal exactly when its URL contains `aol.com`, so the `search.aol.com` test adds nothing. |
| LinkInterceptor.LookalikeIsInternal | netlify/functions/search.js:82 | `https://evil-aol.com.attacker.net/` counts as AOL. |
| LinkInterceptor.ProxyUrlCarriesHref | netlify/functions/search.js:88 | The proxy URL's query is one `url` parameter, with no `&` or `#`, and it decodes back to the link. |
| LinkInterceptor.IsRestricted | netlify/functions/search.js:57-75 | Any failure gives `true`. A missing `site` gives `undefined` and a null `site` gives `null`, both falsy. Otherwise the result is `site.xframe_restricted`. |
| LinkInterceptor.RestrictionFromAnalyzer | netlify/functions/search.js:59-61 | Asking the classifier about a link yields the crawl's frame decision for that link. |
| LinkInterceptor.FailOpenVersusFailClosed | netlify/functions/search.js:68-74 | An unfetchable destination comes back frameable from the classifier, while an unreadable classifier reply counts as restricted. |
| LinkInterceptor.OnClick | netlify/functions/search.js:77-98 | The click's default is prevented exactly when it is inside an anchor with a non-empty `href`. Otherwise nothing happens. |
| LinkInterceptor.InternalClickStaysInProxy | netlify/functions/search.js:87-89 | An AOL link loads the proxy URL for it, which decodes back to the link, and posts nothing. |
| LinkInterceptor.ExternalClickAsksOnce | netlify/functions/search.js:90-96 | Any other link posts exactly one navigation request, for that link, carrying the classifier's verdict. The label reads `Loading...` meanwhile and is restored afterwards. Nothing is loaded. |
| LinkInterceptor.NonLinkClickIgnored | netlify/functions/search.js:78-79 | A click outside a link, or on a link without an address, is left to the browser. |

## Left out

- HTTP transport: User-Agent strings, `maxRedirects: 5`, the 3000 ms icon timeout and `responseType` are not modelled. The transport's outcome per URL is a parameter; redirects appear only as the answer's `responseUrl`.
- URL parsing (the WHATWG URL Standard) is a parameter, `UrlKit`. Origins, host names and reference resolution are whatever the parser returns.
- HTML parsing and serialisation are not modelled. A handler receives the parsed tree and returns the rewritten tree. Quirks mode, and the `<html>`, `<head>` and `<body>` elements being found by selectors, are not modelled.
- Base64: pass-through bodies and icon data are kept as raw bytes, and `isBase64Encoded` is not modelled.
- CORS header dictionaries are not modelled, since they are identical on every reply of a handler. Only `Content-Type` is kept.
- The header's CSS and markup text are not modelled; only the elements the script reads are. The interceptor script at `https://reborn-xp-api.netlify.app/.netlify/functions/interceptor` is referenced but its source is not part of this model.
- The unescaped interpolation of `query` into the header's markup and of the target URL into the injected script is a weakness, not a contract, and is not modelled.
- SearchProxy.NavScript: the injected script's text is reduced to the target it reports; its behaviour is `LinkInterceptor`.
- Browser runtime: `postMessage` delivery, event dispatch, `DOMContentLoaded`, promise timing and concurrent clicks are not modelled. `OnClick` lists the effects of one click in order.
- `getElementById` for the header's script finds the first element with the id. A page whose own markup before the header reuses `q-inner-btn`, `q-inner-search` or `q-logo-home` is not modelled beyond the stated preconditions on the head.
- In the click handler, `link.href` is taken as already resolved, and `innerText` is taken as the label text.
- The document base URL is taken from the first `<base href>`, head before body. A `<base>` inside a `<template>` or a foreign element, which the HTML Standard skips, is not distinguished.
- The header's script is taken to see the head and the header. Elements the HTML parser moves into the head after the script has run are not modelled.
- Lone UTF-16 surrogates, which make `encodeURIComponent` throw, cannot occur in Dafny strings and are not modelled.
- `event.queryStringParameters` being null, which makes `ddg-proxy.js`, `aol-proxy.js` and `search.js` throw outside their `try`, is not modelled. The query is a map.
- A JSON body whose `url` is not a string is not modelled. The source throws on a non-empty non-string `url` at `target_url.toLowerCase()` (metadata.js:10), outside any `try`, so the handler fails. The model answers 400 as for no URL.
- The final URL: an answer without a reported `responseUrl` gives the requested URL, as the source does when `response.request.res` is absent. A present `res` without `responseUrl`, which the source reads as `undefined`, is not distinguished.
- Strings.JsUpper: maps only the characters whose upper case is a single ASCII letter. Multi-character expansions such as `ß` to `SS` are not performed, because none of them can produce `DENY` or `SAMEORIGIN`.
- SiteMetadata.CrawlNormalized: its own contract only fixes the `url` field. The rest of its behaviour is stated by `CrawlFailureRecord`, `CrawlHeadersDecide`, `CrawlNames` and `CrawlIconGate`.
- SiteMetadata.CrawlNames: states the name and description only when the final URL's host name and the icon URL resolve. When one of them throws, the outer catch rewrites the name, as `Recover` models.
- SiteMetadata.Analyse: fixes the description only when a name is found, for the same reason.
- SiteMetadata.ResolveIcon: states that the name is kept only when the icon URL resolves. When the `/favicon.ico` resolution throws, the outer catch replaces the name.
