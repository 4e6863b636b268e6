/** netlify/functions/aol-proxy.js: fetches an AOL Search page, drops AOL's own header,
    footer and navigation, and puts the results header of `ControlBar` in their place. */
module AolProxy {
  import opened Wrappers
  import opened Strings
  import opened Dom
  import opened Http
  import opened UrlKit
  import opened Messages
  import opened ControlBar
  import opened PageProxy

  /** The AOL elements removed, in the order they are looked up. */
  const RemovedSelectors: seq<Selector> :=
    [Id("sticky-hd"), Tag("header"), Id("ft_wrapper"), Tag("footer"), Class("mag-glass"), Id("ybar")]

  /** `selectors.forEach(s => doc.querySelector(s)?.remove())`: one lookup per selector,
      each in the document the previous removals left. */
  function RemoveEach(sels: seq<Selector>, d: Doc): Doc
    decreases |sels|
  {
    if sels == [] then d else RemoveEach(sels[1..], RemoveFirstInDoc(sels[0], d))
  }

  /** `searchParams.get('q') || ''` */
  function QueryOf(u: UrlRecord): string {
    SearchParam(u, "q").GetOr("")
  }

  /** The rewrite of a parsed AOL page: a base pointing at the target's origin goes first
      in the head, the AOL chrome is removed, the results header goes first in the body and
      the interceptor script last. */
  function Rewrite(d: Doc, u: UrlRecord, target: string): Doc {
    var cleaned := RemoveEach(RemovedSelectors, PrependHead(d, BaseNode(u.origin)));
    Doc(cleaned.head, [HeaderNode(SearchTypeOf(target), QueryOf(u))] + cleaned.body + [Interceptor])
  }

  function Handler(kit: UrlKit, e: Event, fetch: string -> Transport): Reply<ProxyBody> {
    PageProxy.Handler(kit, e, fetch, Rewrite)
  }

  // ---------------------------------------------------------------------------------
  // The shape of a rewritten page

  /** The injected base matches none of the removed selectors. */
  lemma BaseSurvivesSelectors(href: string, k: nat)
    requires k < |RemovedSelectors|
    ensures !SelectorMatches(RemovedSelectors[k], LabelOf(BaseNode(href)))
  {
  }

  /** An element at the front of the head that no selector in `sels` matches stays at the
      front through all the removals. */
  lemma {:induction false} RemoveEachKeepsLeader(sels: seq<Selector>, d: Doc)
    requires d.head != [] && d.head[0].Elem? && d.head[0].children == []
    requires forall k :: 0 <= k < |sels| ==> !SelectorMatches(sels[k], LabelOf(d.head[0]))
    ensures RemoveEach(sels, d).head != [] && RemoveEach(sels, d).head[0] == d.head[0]
    decreases |sels|
  {
    if sels != [] {
      RemoveFirstInDocKeepsLeader(sels[0], d);
      var d' := RemoveFirstInDoc(sels[0], d);
      assert forall k :: 0 <= k < |sels[1..]| ==> sels[1..][k] == sels[k + 1];
      RemoveEachKeepsLeader(sels[1..], d');
    }
  }

  /** Removals never make a test `q` pass in the head where nothing passed it before. */
  lemma {:induction false} RemoveEachKeepsNoMatch(q: Label -> bool, sels: seq<Selector>, d: Doc)
    requires FirstMatchAt(q, Flatten(d.head)).None?
    ensures FirstMatchAt(q, Flatten(RemoveEach(sels, d).head)).None?
    decreases |sels|
  {
    if sels != [] {
      RemoveFirstInDocKeepsNoMatch(q, sels[0], d);
      RemoveEachKeepsNoMatch(q, sels[1..], RemoveFirstInDoc(sels[0], d));
    }
  }

  /** When no selector finds anything, the removals change nothing. */
  lemma {:induction false} RemoveEachNoMatch(sels: seq<Selector>, d: Doc)
    requires forall k :: 0 <= k < |sels| ==> FirstMatchAt(Matcher(sels[k]), FlattenDoc(d)).None?
    ensures RemoveEach(sels, d) == d
    decreases |sels|
  {
    if sels != [] {
      RemoveFirstInDocCuts(sels[0], d);
      assert forall k :: 0 <= k < |sels[1..]| ==> sels[1..][k] == sels[k + 1];
      RemoveEachNoMatch(sels[1..], d);
    }
  }

  /** A rewritten page starts its head with the base at the target's origin, starts its
      body with the results header for the target's search type and query, and ends its
      body with the interceptor. */
  lemma RewriteFrame(d: Doc, u: UrlRecord, target: string)
    ensures var r := Rewrite(d, u, target);
            && r.head != [] && r.head[0] == BaseNode(u.origin)
            && |r.body| >= 2
            && r.body[0] == HeaderNode(SearchTypeOf(target), QueryOf(u))
            && r.body[|r.body| - 1] == Interceptor
  {
    var d1 := PrependHead(d, BaseNode(u.origin));
    forall k | 0 <= k < |RemovedSelectors|
      ensures !SelectorMatches(RemovedSelectors[k], LabelOf(d1.head[0]))
    {
      BaseSurvivesSelectors(u.origin, k);
    }
    RemoveEachKeepsLeader(RemovedSelectors, d1);
  }

  /** On a page with none of the AOL elements, the rewrite only adds: the base, the
      header and the script, with everything else as it was. */
  lemma RewriteOfPlainPage(d: Doc, u: UrlRecord, target: string)
    requires forall k :: 0 <= k < |RemovedSelectors| ==> FirstMatchAt(Matcher(RemovedSelectors[k]), FlattenDoc(d)).None?
    ensures Rewrite(d, u, target)
            == Doc([BaseNode(u.origin)] + d.head,
                   [HeaderNode(SearchTypeOf(target), QueryOf(u))] + d.body + [Interceptor])
  {
    var d1 := PrependHead(d, BaseNode(u.origin));
    forall k | 0 <= k < |RemovedSelectors|
      ensures FirstMatchAt(Matcher(RemovedSelectors[k]), FlattenDoc(d1)).None?
    {
      BaseAddsNoMatch(d, u.origin, k);
    }
    RemoveEachNoMatch(RemovedSelectors, d1);
  }

  /** Prepending the base gives none of the removed selectors a match. */
  lemma BaseAddsNoMatch(d: Doc, href: string, k: nat)
    requires k < |RemovedSelectors|
    requires FirstMatchAt(Matcher(RemovedSelectors[k]), FlattenDoc(d)).None?
    ensures FirstMatchAt(Matcher(RemovedSelectors[k]), FlattenDoc(PrependHead(d, BaseNode(href)))).None?
  {
    var base := BaseNode(href);
    var p := Matcher(RemovedSelectors[k]);
    BaseSurvivesSelectors(href, k);
    assert !p(LabelOf(base));
    PrependKeepsNoMatch(p, base, d);
  }

  /** Prepending a childless node that fails `p` to the head gives `p` no match. */
  lemma {:induction false} PrependKeepsNoMatch(p: Label -> bool, n: Node, d: Doc)
    requires n.Text? || n.children == []
    requires !p(LabelOf(n))
    requires FirstMatchAt(p, FlattenDoc(d)).None?
    ensures FirstMatchAt(p, FlattenDoc(PrependHead(d, n))).None?
  {
    FlattenCons(n, d.head);
    assert FlattenNode(n) == [LabelOf(n)];
    FirstMatchAtAppend(p, [LabelOf(n)], FlattenDoc(d));
    assert FlattenDoc(PrependHead(d, n)) == [LabelOf(n)] + FlattenDoc(d);
  }

  /** A selector that matches no label of a document's order leaves it as it is. */
  lemma NoLabelMatches(sel: Selector, d: Doc)
    requires forall k :: 0 <= k < |FlattenDoc(d)| ==> !SelectorMatches(sel, FlattenDoc(d)[k])
    ensures RemoveFirstInDoc(sel, d) == d
  {
    var p := Matcher(sel);
    var f := FlattenDoc(d);
    forall k | 0 <= k < |f| ensures !p(f[k]) {
      assert p(f[k]) == SelectorMatches(sel, f[k]);
    }
    RemoveFirstInDocCuts(sel, d);
  }

  const Footer: Node := Elem("footer", map[], [])

  lemma TwoFooterOrders(href: string)
    ensures FlattenDoc(Doc([BaseNode(href)], [Footer, Footer])) == [LabelOf(BaseNode(href)), LabelOf(Footer), LabelOf(Footer)]
    ensures FlattenDoc(Doc([BaseNode(href)], [Footer])) == [LabelOf(BaseNode(href)), LabelOf(Footer)]
  {
    assert Flatten([Footer]) == [LabelOf(Footer)];
    assert Flatten([BaseNode(href)]) == [LabelOf(BaseNode(href))];
    FlattenCons(Footer, [Footer]);
    assert [Footer, Footer] == [Footer] + [Footer];
  }

  lemma FirstFooterRemoved(href: string)
    ensures RemoveFirstInDoc(Tag("footer"), Doc([BaseNode(href)], [Footer, Footer]))
            == Doc([BaseNode(href)], [Footer])
  {
    var base := BaseNode(href);
    var p := Matcher(Tag("footer"));
    assert !p(LabelOf(base)) && p(LabelOf(Footer));
    RemoveFirstSkips(p, base, []);
    assert [base] + [] == [base];
    assert RemoveFirst(p, [base]) == ([base], None);
    assert RemoveFirst(p, [Footer, Footer]) == ([Footer], Some(Footer));
  }

  lemma OtherSelectorsFindNothing(href: string)
    ensures var d0 := Doc([BaseNode(href)], [Footer, Footer]);
            && RemoveFirstInDoc(Id("sticky-hd"), d0) == d0
            && RemoveFirstInDoc(Tag("header"), d0) == d0
            && RemoveFirstInDoc(Id("ft_wrapper"), d0) == d0
    ensures var d1 := Doc([BaseNode(href)], [Footer]);
            && RemoveFirstInDoc(Class("mag-glass"), d1) == d1
            && RemoveFirstInDoc(Id("ybar"), d1) == d1
  {
    var d0 := Doc([BaseNode(href)], [Footer, Footer]);
    var d1 := Doc([BaseNode(href)], [Footer]);
    TwoFooterOrders(href);
    NoLabelMatches(Id("sticky-hd"), d0);
    NoLabelMatches(Tag("header"), d0);
    NoLabelMatches(Id("ft_wrapper"), d0);
    NoLabelMatches(Class("mag-glass"), d1);
    NoLabelMatches(Id("ybar"), d1);
  }

  /** Each selector removes one element only: a page with two footers keeps its second. */
  lemma SecondFooterStays(u: UrlRecord, target: string)
    ensures Rewrite(Doc([], [Footer, Footer]), u, target).body
            == [HeaderNode(SearchTypeOf(target), QueryOf(u)), Footer, Interceptor]
  {
    var d := Doc([], [Footer, Footer]);
    var base := BaseNode(u.origin);
    assert PrependHead(d, base) == Doc([base], [Footer, Footer]);
    TwoFootersLoseOne(u.origin);
    WrapBody(HeaderNode(SearchTypeOf(target), QueryOf(u)), RemoveEach(RemovedSelectors, PrependHead(d, base)).body, Footer);
  }

  lemma {:induction false} WrapBody(h: Node, body: seq<Node>, n: Node)
    requires body == [n]
    ensures [h] + body + [Interceptor] == [h, n, Interceptor]
  {
  }

  /** The six lookups over the base and two footers: only the `footer` lookup finds
      something, the first footer. */
  lemma TwoFootersLoseOne(href: string)
    ensures RemoveEach(RemovedSelectors, Doc([BaseNode(href)], [Footer, Footer]))
            == Doc([BaseNode(href)], [Footer])
  {
    var base := BaseNode(href);
    var d0 := Doc([base], [Footer, Footer]);
    var d1 := Doc([base], [Footer]);
    OtherSelectorsFindNothing(href);
    FirstFooterRemoved(href);
    assert RemoveEach(RemovedSelectors[5..], d1) == d1;
    assert RemoveEach(RemovedSelectors[4..], d1) == d1;
    assert RemoveEach(RemovedSelectors[3..], d0) == d1;
    assert RemoveEach(RemovedSelectors[2..], d0) == d1;
    assert RemoveEach(RemovedSelectors[1..], d0) == d1;
  }

  /** Removing is therefore not idempotent: a second pass over the cleaned two-footer page
      removes the footer the first pass left. */
  lemma SecondPassRemovesMore(href: string)
    ensures var d1 := Doc([BaseNode(href)], [Footer]);
            RemoveEach(RemovedSelectors, d1) == Doc([BaseNode(href)], []) != d1
  {
    var base := BaseNode(href);
    var d1 := Doc([base], [Footer]);
    var d2 := Doc([base], []);
    OneFooterLookups(href);
    assert RemoveEach(RemovedSelectors[6..], d2) == d2;
    assert RemoveEach(RemovedSelectors[5..], d2) == d2;
    assert RemoveEach(RemovedSelectors[4..], d2) == d2;
    assert RemoveEach(RemovedSelectors[3..], d1) == d2;
    assert RemoveEach(RemovedSelectors[2..], d1) == d2;
    assert RemoveEach(RemovedSelectors[1..], d1) == d2;
  }

  /** Each lookup over the base and one footer: only the `footer` lookup finds
      something. */
  lemma OneFooterLookups(href: string)
    ensures var d1 := Doc([BaseNode(href)], [Footer]);
            && RemoveFirstInDoc(Id("sticky-hd"), d1) == d1
            && RemoveFirstInDoc(Tag("header"), d1) == d1
            && RemoveFirstInDoc(Id("ft_wrapper"), d1) == d1
            && RemoveFirstInDoc(Tag("footer"), d1) == Doc([BaseNode(href)], [])
    ensures var d2 := Doc([BaseNode(href)], []);
            && RemoveFirstInDoc(Class("mag-glass"), d2) == d2
            && RemoveFirstInDoc(Id("ybar"), d2) == d2
  {
    var base := BaseNode(href);
    var d1 := Doc([base], [Footer]);
    var d2 := Doc([base], []);
    TwoFooterOrders(href);
    assert Flatten([base]) == [LabelOf(base)];
    assert FlattenDoc(d2) == [LabelOf(base)];
    NoLabelMatches(Id("sticky-hd"), d1);
    NoLabelMatches(Tag("header"), d1);
    NoLabelMatches(Id("ft_wrapper"), d1);
    var p := Matcher(Tag("footer"));
    assert !p(LabelOf(base)) && p(LabelOf(Footer));
    RemoveFirstSkips(p, base, []);
    assert [base] + [] == [base];
    NoLabelMatches(Class("mag-glass"), d2);
    NoLabelMatches(Id("ybar"), d2);
  }

  // ---------------------------------------------------------------------------------
  // The results header in the rewritten page

  /** In a rewritten page whose head held no `.q-tab.active`, the Search button and the
      Enter key report the search type the target URL asked for, with the typed text. */
  lemma SearchReportsTargetType(d: Doc, u: UrlRecord, target: string, typed: string)
    requires FirstMatchAt(Matcher(ActiveTab), Flatten(d.head)).None?
    ensures HeaderMessage(Rewrite(d, u, target), typed, PressButton)
            == Some(Search(typed, Some(SearchTypeOf(target))))
    ensures HeaderMessage(Rewrite(d, u, target), typed, KeyPress("Enter"))
            == Some(Search(typed, Some(SearchTypeOf(target))))
  {
    var st := SearchTypeOf(target);
    RewriteFindsActiveTab(d, u, target);
    ExactlyOneActiveTab(st, IndexOf(st));
  }

  /** In a rewritten page whose head held no `.q-tab`, the script binds the header's
      three tabs and no `.q-tab` of the AOL page: the `i`-th posts a search of its own
      type with the typed text, and any later one posts nothing. */
  lemma RewriteBindsHeaderTabs(d: Doc, u: UrlRecord, target: string, typed: string)
    requires FirstMatchAt(Matcher(TabClassSelector), Flatten(d.head)).None?
    ensures BoundTabs(Rewrite(d, u, target)) == Tabs(SearchTypeOf(target))
    ensures forall i: nat :: i < 3 ==>
              HeaderMessage(Rewrite(d, u, target), typed, ClickTab(i)) == Some(Search(typed, Some(SearchTypes[i])))
    ensures forall k: nat :: k >= 3 ==> HeaderMessage(Rewrite(d, u, target), typed, ClickTab(k)) == None
  {
    assert !SelectorMatches(TabClassSelector, LabelOf(BaseNode(u.origin)));
    RewriteHeadKeepsNoMatch(TabClassSelector, d, u, target);
    TabClickReportsItsType(Rewrite(d, u, target), SearchTypeOf(target), QueryOf(u), typed);
  }

  /** The `.q-tab.active` lookup in a rewritten page finds the results header's tab for
      the target's search type. */
  lemma RewriteFindsActiveTab(d: Doc, u: UrlRecord, target: string)
    requires FirstMatchAt(Matcher(ActiveTab), Flatten(d.head)).None?
    ensures var st := SearchTypeOf(target);
            QuerySelector(ActiveTab, Rewrite(d, u, target)) == Some(TabNode(IndexOf(st), st))
  {
    assert !SelectorMatches(Class("q-tab"), LabelOf(BaseNode(u.origin)));
    RewriteHeadKeepsNoMatch(ActiveTab, d, u, target);
    DocFindsActiveTab(Rewrite(d, u, target), SearchTypeOf(target), QueryOf(u));
  }

  /** In a rewritten page whose head held no `#q-inner-search`, the search box the
      header's script reads is the header's own, and it starts out holding the target's
      `q` parameter. */
  lemma RewriteFindsSearchInput(d: Doc, u: UrlRecord, target: string)
    requires FirstMatchAt(Matcher(SearchInputId), Flatten(d.head)).None?
    ensures QuerySelector(SearchInputId, Rewrite(d, u, target)) == Some(SearchInput(QueryOf(u)))
    ensures AttrOr(QuerySelector(SearchInputId, Rewrite(d, u, target)).value, "value") == QueryOf(u)
  {
    RewriteHeadKeepsNoMatch(SearchInputId, d, u, target);
    DocFindsSearchInput(Rewrite(d, u, target), SearchTypeOf(target), QueryOf(u));
  }

  /** The rewrite gives the head no match for a selector the injected base does not
      match: removals create none. */
  lemma RewriteHeadKeepsNoMatch(sel: Selector, d: Doc, u: UrlRecord, target: string)
    requires !SelectorMatches(sel, LabelOf(BaseNode(u.origin)))
    requires FirstMatchAt(Matcher(sel), Flatten(d.head)).None?
    ensures FindFirst(Matcher(sel), Rewrite(d, u, target).head).None?
  {
    var p := Matcher(sel);
    var base := BaseNode(u.origin);
    var d1 := PrependHead(d, base);
    FlattenCons(base, d.head);
    assert FlattenNode(base) == [LabelOf(base)];
    assert p(LabelOf(base)) == SelectorMatches(sel, LabelOf(base));
    FirstMatchAtAppend(p, [LabelOf(base)], Flatten(d.head));
    RemoveEachKeepsNoMatch(p, RemovedSelectors, d1);
    FindFirstNoneIff(p, Rewrite(d, u, target).head);
  }
}
