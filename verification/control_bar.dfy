/** The results header netlify/functions/aol-proxy.js puts at the top of a proxied AOL
    page (logo, Web/Images/Videos tabs, search box) and the messages its embedded script
    posts. Its styling and the literal markup are not modelled; the elements, their ids,
    classes and the two values the template fills in are. */
module ControlBar {
  import opened Wrappers
  import opened Strings
  import opened Dom
  import opened Messages

  const SearchTypes: seq<string> := ["web", "images", "videos"]
  const TabTitles: seq<string> := ["Web", "Images", "Videos"]
  const LogoSrc: string := "https://rebornxp.com/res/sites/iexplore/logo.png"

  /** The search type a target URL asks for: `/video` anywhere gives videos, else `/image`
      anywhere gives images, else web. */
  function SearchTypeOf(url: string): (r: string)
    ensures r in SearchTypes
    ensures r == "videos" <==> Contains(url, "/video")
    ensures r == "images" <==> !Contains(url, "/video") && Contains(url, "/image")
  {
    var t := if Contains(url, "/image") then "images" else "web";
    if Contains(url, "/video") then "videos" else t
  }

  /** A tab's class attribute: `q-tab active` for the current search type, `q-tab `
      otherwise. */
  function TabClass(active: bool): string {
    "q-tab " + (if active then "active" else "")
  }

  function TabNode(i: nat, searchType: string): Node
    requires i < 3
  {
    Elem("a", map["class" := TabClass(SearchTypes[i] == searchType), "data-type" := SearchTypes[i]],
         [Text(TabTitles[i])])
  }

  function Tabs(searchType: string): seq<Node> {
    [TabNode(0, searchType), TabNode(1, searchType), TabNode(2, searchType)]
  }

  /** The `#qooqle-results-header` element, its search box pre-filled with `query`. */
  function HeaderNode(searchType: string, query: string): Node {
    Elem("div", map["id" := "qooqle-results-header"],
         [Elem("style", map[], []), Logo, SearchBox(searchType, query), Elem("script", map[], [])])
  }

  const Logo: Node := Elem("img", map["src" := LogoSrc, "width" := "80", "id" := "q-logo-home"], [])

  function SearchBox(searchType: string, query: string): Node {
    Elem("div", map["class" := "q-search-box"],
         [Elem("div", map["class" := "q-tabs"], Tabs(searchType)), InputGroup(query)])
  }

  function InputGroup(query: string): Node {
    Elem("div", map["class" := "q-input-group"], [
      SearchInput(query),
      Elem("button", map["id" := "q-inner-btn"], [Text("Search")])])
  }

  /** `#q-inner-search`, the text box, its value the query. */
  function SearchInput(query: string): Node {
    Elem("input", map["type" := "text", "id" := "q-inner-search", "value" := query], [])
  }

  const SearchInputId: Selector := Id("q-inner-search")

  const ActiveTab: Selector := Both(Class("q-tab"), Class("active"))

  /** `el.dataset.type`. */
  function DataType(n: Node): Option<string> {
    if n.Elem? && "data-type" in n.attrs then Some(n.attrs["data-type"]) else None
  }

  // ---------------------------------------------------------------------------------
  // Class tokens of the header's class attributes

  predicate IsWord(w: string) {
    w != [] && forall k :: 0 <= k < |w| ==> !IsAsciiWhitespace(w[k])
  }

  lemma {:induction false} TokenEndOfWord(w: string, rest: string, i: nat)
    requires i <= |w| && IsWord(w)
    requires rest == [] || IsAsciiWhitespace(rest[0])
    ensures TokenEnd(w + rest, i) == |w|
    decreases |w| - i
  {
    var s := w + rest;
    if i < |w| {
      assert s[i] == w[i];
      TokenEndOfWord(w, rest, i + 1);
    } else if rest != [] {
      assert s[i] == rest[0];
    }
  }

  /** A word followed by nothing or by white space starts with that word as a token. */
  lemma ClassTokensOfWord(w: string, rest: string)
    requires IsWord(w)
    requires rest == [] || IsAsciiWhitespace(rest[0])
    ensures ClassTokens(w + rest) == [w] + ClassTokens(rest)
  {
    var s := w + rest;
    TokenEndOfWord(w, rest, 0);
    assert s[0] == w[0];
    assert s[..|w|] == w && s[|w|..] == rest;
  }

  lemma SingleToken(w: string)
    requires IsWord(w)
    ensures ClassTokens(w) == [w]
  {
    ClassTokensOfWord(w, "");
    assert w + "" == w;
  }

  /** A tab's classes are `q-tab`, and `active` exactly when it is the active one. */
  lemma TabClassTokens(active: bool)
    ensures ClassTokens(TabClass(active)) == if active then ["q-tab", "active"] else ["q-tab"]
  {
    QTabIsWord();
    var rest := " " + (if active then "active" else "");
    assert TabClass(active) == "q-tab" + rest;
    ClassTokensOfWord("q-tab", rest);
    SpaceThen(if active then "active" else "");
    if active {
      ActiveIsWord();
      SingleToken("active");
    }
  }

  lemma QTabIsWord()
    ensures IsWord("q-tab")
  {
    forall k | 0 <= k < 5 ensures !IsAsciiWhitespace("q-tab"[k]) {}
  }

  lemma ActiveIsWord()
    ensures IsWord("active")
  {
    forall k | 0 <= k < 6 ensures !IsAsciiWhitespace("active"[k]) {}
  }

  /** A leading space is no token. */
  lemma {:induction false} SpaceThen(s: string)
    ensures ClassTokens(" " + s) == ClassTokens(s)
  {
    assert (" " + s)[1..] == s;
  }

  /** Exactly one tab is active, the one whose `data-type` is the search type; every tab
      is a `.q-tab`. */
  lemma ExactlyOneActiveTab(searchType: string, i: nat)
    requires i < 3
    ensures Matches(Class("q-tab"), Tabs(searchType)[i])
    ensures Matches(ActiveTab, Tabs(searchType)[i]) <==> SearchTypes[i] == searchType
    ensures DataType(Tabs(searchType)[i]) == Some(SearchTypes[i])
  {
    var active := SearchTypes[i] == searchType;
    TabClassTokens(active);
    var n := Tabs(searchType)[i];
    assert n == TabNode(i, searchType);
    assert n.attrs["class"] == TabClass(active);
    var l := LabelOf(n);
    assert SelectorMatches(ActiveTab, l)
       <==> SelectorMatches(Class("q-tab"), l) && SelectorMatches(Class("active"), l);
    if !active {
      assert "active" != "q-tab";
      assert !("active" in ClassTokens(TabClass(active)));
    }
  }

  /** None of the header's other elements is a `.q-tab.active`. */
  lemma OtherHeaderClasses()
    ensures !("q-tab" in ClassTokens("q-search-box"))
    ensures !("q-tab" in ClassTokens("q-tabs"))
    ensures !("q-tab" in ClassTokens("q-input-group"))
  {
    assert IsWord("q-search-box") by {
      forall k | 0 <= k < 12 ensures !IsAsciiWhitespace("q-search-box"[k]) {}
    }
    assert IsWord("q-tabs") by {
      forall k | 0 <= k < 6 ensures !IsAsciiWhitespace("q-tabs"[k]) {}
    }
    assert IsWord("q-input-group") by {
      forall k | 0 <= k < 13 ensures !IsAsciiWhitespace("q-input-group"[k]) {}
    }
    SingleToken("q-search-box");
    SingleToken("q-tabs");
    SingleToken("q-input-group");
  }

  /** The three tabs, searched in order, give the active one. */
  lemma TabsFindActive(searchType: string)
    requires searchType in SearchTypes
    ensures FindFirst(Matcher(ActiveTab), Tabs(searchType)) == Some(TabNode(IndexOf(searchType), searchType))
  {
    var p := Matcher(ActiveTab);
    var tabs := Tabs(searchType);
    var i := IndexOf(searchType);
    ExactlyOneActiveTab(searchType, 0);
    ExactlyOneActiveTab(searchType, 1);
    ExactlyOneActiveTab(searchType, 2);
    forall k | 0 <= k < 3
      ensures FindFirst(p, tabs[k].children) == None
    {
      assert tabs[k].children == [Text(TabTitles[k])];
      FindFirstCons(p, Text(TabTitles[k]), []);
    }
    FindFirstCons(p, tabs[2], []);
    FindFirstCons(p, tabs[1], [tabs[2]]);
    FindFirstCons(p, tabs[0], [tabs[1], tabs[2]]);
    assert tabs == [tabs[0]] + [tabs[1], tabs[2]];
    assert [tabs[1], tabs[2]] == [tabs[1]] + [tabs[2]];
    assert [tabs[2]] == [tabs[2]] + [];
  }

  /** An element whose class attribute does not hold the token `q-tab` is no tab. */
  lemma NotATab(n: Node)
    requires n.Elem? && "class" in n.attrs && !("q-tab" in ClassTokens(n.attrs["class"]))
    ensures !Matcher(ActiveTab)(LabelOf(n))
  {
    var l := LabelOf(n);
    assert l == ElemLabel(n.tag, n.attrs);
    assert !SelectorMatches(Class("q-tab"), l);
    assert !SelectorMatches(Both(Class("q-tab"), Class("active")), l);
    assert Matcher(ActiveTab)(l) == SelectorMatches(ActiveTab, l);
  }

  /** An element without a class attribute is no tab. */
  lemma NoClassNoTab(n: Node)
    requires n.Elem? && !("class" in n.attrs)
    ensures !Matcher(ActiveTab)(LabelOf(n))
  {
    var l := LabelOf(n);
    assert l == ElemLabel(n.tag, n.attrs);
    assert !SelectorMatches(Class("q-tab"), l);
    assert !SelectorMatches(Both(Class("q-tab"), Class("active")), l);
    assert Matcher(ActiveTab)(l) == SelectorMatches(ActiveTab, l);
  }

  lemma SearchBoxFindsActiveTab(searchType: string, query: string, rest: seq<Node>)
    requires searchType in SearchTypes
    ensures FindFirst(Matcher(ActiveTab), [SearchBox(searchType, query)] + rest)
            == Some(TabNode(IndexOf(searchType), searchType))
  {
    var p := Matcher(ActiveTab);
    OtherHeaderClasses();
    TabsFindActive(searchType);
    var tabsDiv := Elem("div", map["class" := "q-tabs"], Tabs(searchType));
    NotATab(tabsDiv);
    FindFirstCons(p, tabsDiv, [InputGroup(query)]);
    var box := SearchBox(searchType, query);
    assert box.children == [tabsDiv] + [InputGroup(query)];
    NotATab(box);
    FindFirstCons(p, box, rest);
  }

  /** Searching the header in document order for `.q-tab.active` finds the active tab. */
  lemma HeaderFindsActiveTab(searchType: string, query: string, rest: seq<Node>)
    requires searchType in SearchTypes
    ensures FindFirst(Matcher(ActiveTab), [HeaderNode(searchType, query)] + rest)
            == Some(TabNode(IndexOf(searchType), searchType))
  {
    var p := Matcher(ActiveTab);
    var found := Some(TabNode(IndexOf(searchType), searchType));
    var header := HeaderNode(searchType, query);
    var style := Elem("style", map[], []);
    var tail := [Elem("script", map[], [])];
    NoClassNoTab(Logo);
    NoClassNoTab(style);
    SearchBoxFindsActiveTab(searchType, query, tail);
    FindFirstCons(p, Logo, [SearchBox(searchType, query)] + tail);
    FindFirstCons(p, style, [Logo] + ([SearchBox(searchType, query)] + tail));
    assert header.children == [style] + ([Logo] + ([SearchBox(searchType, query)] + tail));
    assert FindFirst(p, header.children) == found;
    NoClassNoTab(header);
    FindFirstCons(p, header, rest);
  }

  /** In a document whose head holds no active tab and whose body starts with the header,
      `document.querySelector('.q-tab.active')` is the header's active tab. */
  lemma {:induction false} DocFindsActiveTab(d: Doc, searchType: string, query: string)
    requires searchType in SearchTypes
    requires FindFirst(Matcher(ActiveTab), d.head).None?
    requires d.body != [] && d.body[0] == HeaderNode(searchType, query)
    ensures QuerySelector(ActiveTab, d) == Some(TabNode(IndexOf(searchType), searchType))
  {
    HeaderFindsActiveTab(searchType, query, d.body[1..]);
    assert d.body == [HeaderNode(searchType, query)] + d.body[1..];
  }

  // ---------------------------------------------------------------------------------
  // The search box

  /** An element without an id is not `#id`. */
  lemma NoIdNoMatch(n: Node, id: string)
    requires n.Elem? && !("id" in n.attrs)
    ensures !Matcher(Id(id))(LabelOf(n))
  {
    assert Matcher(Id(id))(LabelOf(n)) == SelectorMatches(Id(id), LabelOf(n));
  }

  /** No tab holds the search box. */
  lemma TabsHoldNoInput(searchType: string)
    ensures FindFirst(Matcher(SearchInputId), Tabs(searchType)).None?
  {
    var p := Matcher(SearchInputId);
    var tabs := Tabs(searchType);
    forall k | 0 <= k < 3
      ensures !p(LabelOf(tabs[k])) && FindFirst(p, tabs[k].children).None?
    {
      assert tabs[k] == TabNode(k, searchType);
      NoIdNoMatch(tabs[k], "q-inner-search");
      assert tabs[k].children == [Text(TabTitles[k])];
      FindFirstCons(p, Text(TabTitles[k]), []);
    }
    FindFirstCons(p, tabs[2], []);
    FindFirstCons(p, tabs[1], [tabs[2]]);
    FindFirstCons(p, tabs[0], [tabs[1], tabs[2]]);
    assert tabs == [tabs[0]] + [tabs[1], tabs[2]];
    assert [tabs[1], tabs[2]] == [tabs[1]] + [tabs[2]];
    assert [tabs[2]] == [tabs[2]] + [];
  }

  lemma SearchBoxFindsInput(searchType: string, query: string, rest: seq<Node>)
    ensures FindFirst(Matcher(SearchInputId), [SearchBox(searchType, query)] + rest)
            == Some(SearchInput(query))
  {
    var p := Matcher(SearchInputId);
    var input := SearchInput(query);
    var button := Elem("button", map["id" := "q-inner-btn"], [Text("Search")]);
    assert p(LabelOf(input)) == SelectorMatches(SearchInputId, LabelOf(input));
    FindFirstCons(p, input, [button]);
    var group := InputGroup(query);
    assert group.children == [input] + [button];
    NoIdNoMatch(group, "q-inner-search");
    FindFirstCons(p, group, []);
    TabsHoldNoInput(searchType);
    var tabsDiv := Elem("div", map["class" := "q-tabs"], Tabs(searchType));
    NoIdNoMatch(tabsDiv, "q-inner-search");
    FindFirstCons(p, tabsDiv, [group]);
    var box := SearchBox(searchType, query);
    assert box.children == [tabsDiv] + [group];
    NoIdNoMatch(box, "q-inner-search");
    FindFirstCons(p, box, rest);
  }

  /** Searching the header in document order for `#q-inner-search` finds its text box. */
  lemma HeaderFindsSearchInput(searchType: string, query: string, rest: seq<Node>)
    ensures FindFirst(Matcher(SearchInputId), [HeaderNode(searchType, query)] + rest)
            == Some(SearchInput(query))
  {
    var p := Matcher(SearchInputId);
    var header := HeaderNode(searchType, query);
    var style := Elem("style", map[], []);
    var tail := [Elem("script", map[], [])];
    assert p(LabelOf(Logo)) == SelectorMatches(SearchInputId, LabelOf(Logo));
    NoIdNoMatch(style, "q-inner-search");
    SearchBoxFindsInput(searchType, query, tail);
    FindFirstCons(p, Logo, [SearchBox(searchType, query)] + tail);
    FindFirstCons(p, style, [Logo] + ([SearchBox(searchType, query)] + tail));
    assert header.children == [style] + ([Logo] + ([SearchBox(searchType, query)] + tail));
    assert p(LabelOf(header)) == SelectorMatches(SearchInputId, LabelOf(header));
    FindFirstCons(p, header, rest);
  }

  /** In a document whose head holds no `#q-inner-search` and whose body starts with the
      header, `document.getElementById('q-inner-search')` is the header's text box, and
      its value is the query. */
  lemma {:induction false} DocFindsSearchInput(d: Doc, searchType: string, query: string)
    requires FindFirst(Matcher(SearchInputId), d.head).None?
    requires d.body != [] && d.body[0] == HeaderNode(searchType, query)
    ensures QuerySelector(SearchInputId, d) == Some(SearchInput(query))
    ensures AttrOr(QuerySelector(SearchInputId, d).value, "value") == query
  {
    HeaderFindsSearchInput(searchType, query, d.body[1..]);
    assert d.body == [HeaderNode(searchType, query)] + d.body[1..];
  }

  function IndexOf(searchType: string): (i: nat)
    requires searchType in SearchTypes
    ensures i < 3 && SearchTypes[i] == searchType
  {
    if searchType == "web" then 0 else if searchType == "images" then 1 else 2
  }

  // ---------------------------------------------------------------------------------
  // The header's script

  /** What the user does in the header. `ClickTab(k)` clicks the `k`-th of the tabs the
      script gave a click handler. */
  datatype UserAction =
    | PressButton
    | KeyPress(key: string)
    | ClickTab(k: nat)
    | ClickLogo

  const TabClassSelector: Selector := Class("q-tab")

  /** The `.q-tab` elements the script's `querySelectorAll` sees: the script is the last
      child of the header, the body's first node, so when it runs the document holds the
      head and the header and nothing of the page below. */
  function BoundTabs(doc: Doc): seq<Node> {
    FindAll(Matcher(TabClassSelector), doc.head + (if doc.body == [] then [] else [doc.body[0]]))
  }

  /** The message the header's script posts for one action in `doc`, where `typed` is the
      search box's current text; None when nothing is posted (another key, an element
      without a click handler, or no active tab, where reading `.dataset` of `null`
      throws). The button looks the active tab up when it is pressed, in the whole
      document. */
  function HeaderMessage(doc: Doc, typed: string, a: UserAction): (m: Option<Message>)
    decreases a.KeyPress?
    ensures a.ClickLogo? ==> m == Some(NavigateTo("about:home"))
    ensures a.KeyPress? ==> m == (if a.key == "Enter" then HeaderMessage(doc, typed, PressButton) else None)
    ensures m.Some? && !a.ClickLogo? ==> m.value.Search? && m.value.query == typed
    ensures a.ClickTab? ==> (m.Some? <==> a.k < |BoundTabs(doc)|)
  {
    match a
    case PressButton =>
      (match QuerySelector(ActiveTab, doc)
       case Some(t) => Some(Search(typed, DataType(t)))
       case None => None)
    case KeyPress(k) =>
      if k == "Enter" then HeaderMessage(doc, typed, PressButton) else None
    case ClickTab(k) =>
      var tabs := BoundTabs(doc);
      if k < |tabs| then Some(Search(typed, DataType(tabs[k]))) else None
    case ClickLogo => Some(NavigateTo("about:home"))
  }

  predicate Matches(sel: Selector, n: Node) {
    SelectorMatches(sel, LabelOf(n))
  }

  // ---------------------------------------------------------------------------------
  // The tabs the script binds

  /** An element without a class attribute and without children holds no tab. */
  lemma {:induction false} BareElementNoTab(n: Node)
    requires n.Elem? && !("class" in n.attrs) && n.children == []
    ensures FindAllNode(Matcher(TabClassSelector), n) == []
  {
    var q := Matcher(TabClassSelector);
    assert q(LabelOf(n)) == SelectorMatches(TabClassSelector, LabelOf(n));
    assert FindAll(q, n.children) == [];
  }

  /** An element whose only child is text holds no tab below itself. */
  lemma {:induction false} TextOnlyChildren(n: Node, d: string)
    requires n.Elem? && n.children == [Text(d)]
    ensures FindAll(Matcher(TabClassSelector), n.children) == []
  {
    var q := Matcher(TabClassSelector);
    FindAllSingle(q, Text(d));
    assert FindAllNode(q, Text(d)) == [];
  }

  /** Each of the three tabs is bound, in order. */
  lemma {:induction false} TabsAreAllTabs(searchType: string)
    ensures FindAll(Matcher(TabClassSelector), Tabs(searchType)) == Tabs(searchType)
  {
    var q := Matcher(TabClassSelector);
    var tabs := Tabs(searchType);
    forall k | 0 <= k < 3
      ensures FindAllNode(q, tabs[k]) == [tabs[k]]
    {
      ExactlyOneActiveTab(searchType, k);
      assert tabs[k].children == [Text(TabTitles[k])];
      TextOnlyChildren(tabs[k], TabTitles[k]);
      assert [tabs[k]] + [] == [tabs[k]];
    }
    FindAllSingle(q, tabs[2]);
    FindAllConsNode(q, tabs[1], [tabs[2]]);
    FindAllConsNode(q, tabs[0], [tabs[1], tabs[2]]);
    assert tabs == [tabs[0]] + [tabs[1], tabs[2]];
    assert [tabs[1], tabs[2]] == [tabs[1]] + [tabs[2]];
  }

  /** The search box's input group holds no tab. */
  lemma {:induction false} InputGroupNoTab(query: string)
    ensures FindAllNode(Matcher(TabClassSelector), InputGroup(query)) == []
  {
    var q := Matcher(TabClassSelector);
    var input := SearchInput(query);
    var button := Elem("button", map["id" := "q-inner-btn"], [Text("Search")]);
    var group := InputGroup(query);
    assert q(LabelOf(button)) == SelectorMatches(TabClassSelector, LabelOf(button));
    TextOnlyChildren(button, "Search");
    FindAllSingle(q, button);
    BareElementNoTab(input);
    FindAllConsNode(q, input, [button]);
    assert group.children == [input] + [button];
    OtherHeaderClasses();
    assert q(LabelOf(group)) == SelectorMatches(TabClassSelector, LabelOf(group));
  }

  /** The tabs row holds exactly the three tabs. */
  lemma {:induction false} TabsRowTabs(searchType: string)
    ensures FindAllNode(Matcher(TabClassSelector), Elem("div", map["class" := "q-tabs"], Tabs(searchType)))
            == Tabs(searchType)
  {
    var q := Matcher(TabClassSelector);
    var row := Elem("div", map["class" := "q-tabs"], Tabs(searchType));
    TabsAreAllTabs(searchType);
    OtherHeaderClasses();
    assert q(LabelOf(row)) == SelectorMatches(TabClassSelector, LabelOf(row));
    assert [] + Tabs(searchType) == Tabs(searchType);
  }

  /** The search box holds exactly the three tabs. */
  lemma {:induction false} SearchBoxTabs(searchType: string, query: string)
    ensures FindAllNode(Matcher(TabClassSelector), SearchBox(searchType, query)) == Tabs(searchType)
  {
    var q := Matcher(TabClassSelector);
    var row := Elem("div", map["class" := "q-tabs"], Tabs(searchType));
    var box := SearchBox(searchType, query);
    TabsRowTabs(searchType);
    InputGroupNoTab(query);
    FindAllSingle(q, InputGroup(query));
    FindAllConsNode(q, row, [InputGroup(query)]);
    assert box.children == [row] + [InputGroup(query)];
    assert FindAll(q, box.children) == Tabs(searchType) + [];
    OtherHeaderClasses();
    assert q(LabelOf(box)) == SelectorMatches(TabClassSelector, LabelOf(box));
    assert [] + Tabs(searchType) == Tabs(searchType);
  }

  /** The header binds exactly its three tabs, in document order. */
  lemma {:induction false} HeaderBindsItsTabs(searchType: string, query: string)
    ensures FindAll(Matcher(TabClassSelector), [HeaderNode(searchType, query)]) == Tabs(searchType)
  {
    var q := Matcher(TabClassSelector);
    var header := HeaderNode(searchType, query);
    var style := Elem("style", map[], []);
    var script := Elem("script", map[], []);
    var box := SearchBox(searchType, query);
    BareElementNoTab(script);
    BareElementNoTab(Logo);
    BareElementNoTab(style);
    SearchBoxTabs(searchType, query);
    FindAllSingle(q, script);
    FindAllConsNode(q, box, [script]);
    FindAllConsNode(q, Logo, [box, script]);
    FindAllConsNode(q, style, [Logo, box, script]);
    assert [box, script] == [box] + [script];
    assert [Logo, box, script] == [Logo] + [box, script];
    assert header.children == [style] + [Logo, box, script];
    assert FindAll(q, header.children) == Tabs(searchType);
    assert q(LabelOf(header)) == SelectorMatches(TabClassSelector, LabelOf(header));
    FindAllSingle(q, header);
    assert [] + Tabs(searchType) == Tabs(searchType);
  }

  /** In a document whose head holds no tab and whose body starts with the header, the
      script binds the header's three tabs and nothing else, whatever the rest of the
      page holds: clicking the `i`-th reports its type, and a `.q-tab` of the page itself
      posts nothing. */
  lemma {:induction false} TabClickReportsItsType(doc: Doc, searchType: string, query: string, typed: string)
    requires FindFirst(Matcher(TabClassSelector), doc.head).None?
    requires doc.body != [] && doc.body[0] == HeaderNode(searchType, query)
    ensures BoundTabs(doc) == Tabs(searchType)
    ensures forall i: nat :: i < 3 ==>
              HeaderMessage(doc, typed, ClickTab(i)) == Some(Search(typed, Some(SearchTypes[i])))
    ensures forall k: nat :: k >= 3 ==> HeaderMessage(doc, typed, ClickTab(k)) == None
  {
    var q := Matcher(TabClassSelector);
    FindAllStartsWithFirst(q, doc.head);
    FindAllAppend(q, doc.head, [doc.body[0]]);
    HeaderBindsItsTabs(searchType, query);
    forall i: nat | i < 3
      ensures HeaderMessage(doc, typed, ClickTab(i)) == Some(Search(typed, Some(SearchTypes[i])))
    {
      ExactlyOneActiveTab(searchType, i);
    }
  }
}
