/** netlify/functions/ddg-proxy.js: fetches a DuckDuckGo page, points its relative links
    at the target's origin, keeps every link in the same window and adds the interceptor
    script. */
module DdgProxy {
  import opened Wrappers
  import opened Dom
  import opened Http
  import opened UrlKit
  import opened PageProxy

  /** The rewrite of a parsed page: the base goes first in the head, every
      `a[target="_blank"]` loses its `target`, and the interceptor goes last in the body. */
  function Rewrite(d: Doc, u: UrlRecord, target: string): Doc {
    var stripped := StripDoc(PrependHead(d, BaseNode(u.origin)));
    Doc(stripped.head, stripped.body + [Interceptor])
  }

  function Handler(kit: UrlKit, e: Event, fetch: string -> Transport): Reply<ProxyBody> {
    PageProxy.Handler(kit, e, fetch, Rewrite)
  }

  /** The rewritten page is the stripped page between the base and the interceptor; the
      stripping leaves every other node where it was. */
  lemma RewriteShape(d: Doc, u: UrlRecord, target: string)
    ensures var r := Rewrite(d, u, target);
            && r.head == [BaseNode(u.origin)] + StripAll(d.head)
            && r.body == StripAll(d.body) + [Interceptor]
            && Flatten(r.body[..|d.body|]) == StripLabels(Flatten(d.body))
  {
    var base := BaseNode(u.origin);
    assert !SelectorMatches(TargetBlank, LabelOf(base));
    assert StripNode(base) == base;
    assert ([base] + d.head)[1..] == d.head;
    var r := Rewrite(d, u, target);
    assert r.body[..|d.body|] == StripAll(d.body);
    FlattenStripAll(d.body);
  }

  /** No anchor in the rewritten page opens a new window. */
  lemma NoNewWindowLinks(d: Doc, u: UrlRecord, target: string)
    ensures FirstMatchAt(Matcher(TargetBlank), FlattenDoc(Rewrite(d, u, target))).None?
  {
    var p := Matcher(TargetBlank);
    var r := Rewrite(d, u, target);
    var base := BaseNode(u.origin);
    RewriteShape(d, u, target);
    NoTargetBlankLeft(d.head);
    NoTargetBlankLeft(d.body);
    assert !p(LabelOf(base)) by {
      assert p(LabelOf(base)) == SelectorMatches(TargetBlank, LabelOf(base));
    }
    assert !p(LabelOf(Interceptor)) by {
      assert p(LabelOf(Interceptor)) == SelectorMatches(TargetBlank, LabelOf(Interceptor));
    }
    LeafBeforeNoMatch(p, base, StripAll(d.head));
    LeafAfterNoMatch(p, StripAll(d.body), Interceptor);
    FirstMatchAtAppend(p, Flatten(r.head), Flatten(r.body));
  }

  /** A childless element that fails `p`, put in front of a forest without a match, adds
      none. */
  lemma {:induction false} LeafBeforeNoMatch(p: Label -> bool, n: Node, ns: seq<Node>)
    requires n.Elem? && n.children == [] && !p(LabelOf(n))
    requires FirstMatchAt(p, Flatten(ns)).None?
    ensures FirstMatchAt(p, Flatten([n] + ns)).None?
  {
    FlattenCons(n, ns);
    assert FlattenNode(n) == [LabelOf(n)];
    FirstMatchAtAppend(p, [LabelOf(n)], Flatten(ns));
  }

  /** The same, behind the forest. */
  lemma {:induction false} LeafAfterNoMatch(p: Label -> bool, ns: seq<Node>, n: Node)
    requires n.Elem? && n.children == [] && !p(LabelOf(n))
    requires FirstMatchAt(p, Flatten(ns)).None?
    ensures FirstMatchAt(p, Flatten(ns + [n])).None?
  {
    FlattenAppend(ns, [n]);
    FlattenCons(n, []);
    assert [n] + [] == [n];
    assert FlattenNode(n) == [LabelOf(n)];
    assert Flatten([n]) == [LabelOf(n)];
    FirstMatchAtAppend(p, Flatten(ns), [LabelOf(n)]);
  }

  /** Rewriting a page that has been through the proxy once strips nothing more: only the
      base and the interceptor are added again. */
  lemma StripSettles(d: Doc, u: UrlRecord, target: string)
    ensures var r := Rewrite(d, u, target);
            Rewrite(r, u, target)
            == Doc([BaseNode(u.origin), BaseNode(u.origin)] + StripAll(d.head),
                   StripAll(d.body) + [Interceptor, Interceptor])
  {
    var r := Rewrite(d, u, target);
    var base := BaseNode(u.origin);
    RewriteShape(d, u, target);
    RewriteShape(r, u, target);
    assert !SelectorMatches(TargetBlank, LabelOf(base));
    assert !SelectorMatches(TargetBlank, LabelOf(Interceptor));
    RestripBefore(base, d.head);
    RestripAfter(d.body, Interceptor);
  }

  /** A stripped forest behind a childless element the stripping leaves alone is stripped
      already. */
  lemma {:induction false} RestripBefore(n: Node, ns: seq<Node>)
    requires n.Elem? && n.children == [] && !SelectorMatches(TargetBlank, LabelOf(n))
    ensures StripAll([n] + StripAll(ns)) == [n] + StripAll(ns)
  {
    StripAllIdempotent(ns);
    StripAllAppend([n], StripAll(ns));
    assert StripNode(n) == n;
    assert StripAll([n]) == [n];
  }

  /** The same, with the element behind the forest. */
  lemma {:induction false} RestripAfter(ns: seq<Node>, n: Node)
    requires n.Elem? && n.children == [] && !SelectorMatches(TargetBlank, LabelOf(n))
    ensures StripAll(StripAll(ns) + [n]) == StripAll(ns) + [n]
  {
    StripAllIdempotent(ns);
    StripAllAppend(StripAll(ns), [n]);
    assert StripNode(n) == n;
    assert StripAll([n]) == [n];
  }

  /** The base is put in front, not substituted: a page that already has a base keeps it,
      behind the new one. */
  lemma ExistingBaseStays(href: string, body: seq<Node>, u: UrlRecord, target: string)
    ensures Rewrite(Doc([BaseNode(href)], body), u, target).head == [BaseNode(u.origin), BaseNode(href)]
  {
    RewriteShape(Doc([BaseNode(href)], body), u, target);
    assert !SelectorMatches(TargetBlank, LabelOf(BaseNode(href)));
    assert StripAll([BaseNode(href)]) == [BaseNode(href)];
  }
}
