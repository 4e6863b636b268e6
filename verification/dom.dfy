/** The parsed document the handlers mutate, reduced to what they look at: element tags,
    attributes and children, and text. Parsing and serialisation are outside the model;
    a handler receives the tree the parser built and returns the tree it rewrote. */
module Dom {
  import opened Wrappers
  import opened Strings

  datatype Node =
    | Text(data: string)
    | Elem(tag: string, attrs: map<string, string>, children: seq<Node>)

  /** The children of `<head>` and of `<body>`, in document order. The `<html>`, `<head>`
      and `<body>` elements themselves carry nothing the handlers read. */
  datatype Doc = Doc(head: seq<Node>, body: seq<Node>)

  /** What a selector can see of one node: the node without its children. */
  datatype Label =
    | TextLabel(data: string)
    | ElemLabel(tag: string, attrs: map<string, string>)

  function LabelOf(n: Node): Label {
    match n
    case Text(d) => TextLabel(d)
    case Elem(t, a, _) => ElemLabel(t, a)
  }

  // ---------------------------------------------------------------------------------
  // Selectors

  /** The simple selectors the handlers use: `header`, `#ybar`, `.mag-glass`,
      `link[rel="icon"]`, and compounds of them such as `.q-tab.active`. */
  datatype Selector =
    | Tag(name: string)
    | Id(id: string)
    | Class(name: string)
    | AttrEquals(tag: string, attr: string, value: string)
    | Both(left: Selector, right: Selector)

  /** Attributes whose values an attribute selector compares ASCII case-insensitively in
      an HTML document (HTML Standard, section 4.16.2 "Case-sensitivity of selectors"). */
  const CaseInsensitiveValues: set<string> := {
    "accept", "accept-charset", "align", "alink", "axis", "bgcolor", "charset", "checked",
    "clear", "codetype", "color", "compact", "declare", "defer", "dir", "direction",
    "disabled", "enctype", "face", "frame", "hreflang", "http-equiv", "lang", "language",
    "link", "media", "method", "multiple", "nohref", "noresize", "noshade", "nowrap",
    "readonly", "rel", "rev", "rules", "scope", "scrolling", "selected", "shape", "target",
    "text", "type", "valign", "valuetype", "vlink" }

  predicate AttrValueEquals(attr: string, actual: string, expected: string) {
    if attr in CaseInsensitiveValues then AsciiLowerAll(actual) == AsciiLowerAll(expected)
    else actual == expected
  }

  /** ASCII white space as the class attribute is split on. */
  predicate IsAsciiWhitespace(c: char) {
    c == ' ' || c == '\t' || c == '\n' || c == '\U{000C}' || c == '\r'
  }

  /** The index where the token starting at `i` ends. */
  function TokenEnd(s: string, i: nat): (r: nat)
    requires i <= |s|
    ensures i <= r <= |s|
    ensures i < |s| && !IsAsciiWhitespace(s[i]) ==> i < r
    decreases |s| - i
  {
    if i == |s| || IsAsciiWhitespace(s[i]) then i else TokenEnd(s, i + 1)
  }

  /** The class attribute's value split on ASCII white space. */
  function ClassTokens(s: string): seq<string>
    decreases |s|
  {
    if s == [] then []
    else if IsAsciiWhitespace(s[0]) then ClassTokens(s[1..])
    else
      var n := TokenEnd(s, 0);
      [s[..n]] + ClassTokens(s[n..])
  }

  predicate SelectorMatches(sel: Selector, l: Label) {
    match l
    case TextLabel(_) => false
    case ElemLabel(tag, attrs) =>
      match sel
      case Tag(name) => tag == name
      case Id(id) => "id" in attrs && attrs["id"] == id
      case Class(name) => "class" in attrs && name in ClassTokens(attrs["class"])
      case AttrEquals(t, a, v) => tag == t && a in attrs && AttrValueEquals(a, attrs[a], v)
      case Both(x, y) => SelectorMatches(x, l) && SelectorMatches(y, l)
  }

  /** A selector as the test the tree walks below apply to each node's label. */
  function Matcher(sel: Selector): Label -> bool {
    l => SelectorMatches(sel, l)
  }

  /** `node.textContent`: the text of all descendant text nodes, in document order. */
  function TextContent(n: Node): string
    decreases n
  {
    match n
    case Text(d) => d
    case Elem(_, _, ch) => TextContentAll(ch)
  }

  function TextContentAll(ns: seq<Node>): string
    decreases ns
  {
    if ns == [] then [] else TextContent(ns[0]) + TextContentAll(ns[1..])
  }

  /** The value of attribute `name`, or "" when the node has none (how the reflected
      `content` and `href` properties read a missing attribute). */
  function AttrOr(n: Node, name: string): string {
    if n.Elem? && name in n.attrs then n.attrs[name] else ""
  }

  // ---------------------------------------------------------------------------------
  // Document order

  /** Every node of a forest in document order (pre-order), each as its label. */
  function Flatten(ns: seq<Node>): seq<Label>
    decreases ns
  {
    if ns == [] then [] else FlattenNode(ns[0]) + Flatten(ns[1..])
  }

  function FlattenNode(n: Node): (r: seq<Label>)
    ensures |r| >= 1 && r[0] == LabelOf(n)
    decreases n
  {
    match n
    case Text(d) => [TextLabel(d)]
    case Elem(t, a, ch) => [ElemLabel(t, a)] + Flatten(ch)
  }

  function FlattenDoc(d: Doc): seq<Label> {
    Flatten(d.head) + Flatten(d.body)
  }

  lemma {:induction false} FlattenAppend(a: seq<Node>, b: seq<Node>)
    ensures Flatten(a + b) == Flatten(a) + Flatten(b)
    decreases |a|
  {
    if a != [] {
      assert (a + b)[1..] == a[1..] + b;
      FlattenAppend(a[1..], b);
    } else {
      assert a + b == b;
    }
  }

  lemma {:induction false} FlattenCons(n: Node, ns: seq<Node>)
    ensures Flatten([n] + ns) == FlattenNode(n) + Flatten(ns)
  {
    assert ([n] + ns)[1..] == ns;
  }

  /** The index of the first label in `ls` that passes `p`. */
  function FirstMatchAt(p: Label -> bool, ls: seq<Label>): (r: Option<nat>)
    ensures r.Some? ==> r.value < |ls| && p(ls[r.value])
                        && forall k :: 0 <= k < r.value ==> !p(ls[k])
    ensures r.None? ==> forall k :: 0 <= k < |ls| ==> !p(ls[k])
  {
    if ls == [] then None
    else if p(ls[0]) then Some(0)
    else match FirstMatchAt(p, ls[1..])
      case None => None
      case Some(i) => Some(i + 1)
  }

  /** The first match of a concatenation is the first match of its first part, or else
      the first match of its second part, shifted. */
  lemma {:induction false} FirstMatchAtAppend(p: Label -> bool, a: seq<Label>, b: seq<Label>)
    ensures FirstMatchAt(p, a + b) ==
      match FirstMatchAt(p, a)
      case Some(i) => Some(i)
      case None =>
        match FirstMatchAt(p, b)
        case Some(j) => Some(|a| + j)
        case None => None
    decreases |a|
  {
    if a == [] {
      assert a + b == b;
    } else {
      assert (a + b)[0] == a[0];
      assert (a + b)[1..] == a[1..] + b;
      FirstMatchAtAppend(p, a[1..], b);
    }
  }

  // ---------------------------------------------------------------------------------
  // querySelector and el.remove()

  /** The first node of a forest, in document order, whose label passes `p`. */
  function FindFirst(p: Label -> bool, ns: seq<Node>): Option<Node>
    decreases ns
  {
    if ns == [] then None
    else if p(LabelOf(ns[0])) then Some(ns[0])
    else match ns[0]
      case Elem(_, _, ch) =>
        (match FindFirst(p, ch)
         case Some(m) => Some(m)
         case None => FindFirst(p, ns[1..]))
      case Text(_) => FindFirst(p, ns[1..])
  }

  /** The search looks at a node before its subtree and its subtree before its later
      siblings. */
  lemma {:induction false} FindFirstCons(p: Label -> bool, n: Node, rest: seq<Node>)
    ensures p(LabelOf(n)) ==> FindFirst(p, [n] + rest) == Some(n)
    ensures !p(LabelOf(n)) && n.Elem? && FindFirst(p, n.children).Some? ==>
              FindFirst(p, [n] + rest) == FindFirst(p, n.children)
    ensures !p(LabelOf(n)) && (n.Text? || FindFirst(p, n.children).None?) ==>
              FindFirst(p, [n] + rest) == FindFirst(p, rest)
  {
    assert ([n] + rest)[1..] == rest;
  }

  /** Every node of a forest, in document order, whose label passes `p`
      (`querySelectorAll`). */
  function FindAll(p: Label -> bool, ns: seq<Node>): seq<Node>
    decreases ns
  {
    if ns == [] then [] else FindAllNode(p, ns[0]) + FindAll(p, ns[1..])
  }

  /** The node itself when it passes, then the matches in its subtree. */
  function FindAllNode(p: Label -> bool, n: Node): seq<Node>
    decreases n
  {
    var own := if p(LabelOf(n)) then [n] else [];
    match n
    case Text(_) => own
    case Elem(_, _, ch) => own + FindAll(p, ch)
  }

  /** Every node `FindAll` returns passes `p`, and its first is the node `FindFirst`
      finds: `querySelector` is the head of `querySelectorAll`. */
  lemma {:induction false} FindAllStartsWithFirst(p: Label -> bool, ns: seq<Node>)
    ensures forall k :: 0 <= k < |FindAll(p, ns)| ==> p(LabelOf(FindAll(p, ns)[k]))
    ensures FindAll(p, ns) == [] <==> FindFirst(p, ns).None?
    ensures FindAll(p, ns) != [] ==> FindFirst(p, ns) == Some(FindAll(p, ns)[0])
    decreases ns
  {
    if ns != [] {
      var n := ns[0];
      FindAllStartsWithFirst(p, ns[1..]);
      var own := if p(LabelOf(n)) then [n] else [];
      var inside := if n.Elem? then FindAll(p, n.children) else [];
      var later := FindAll(p, ns[1..]);
      if n.Elem? {
        FindAllStartsWithFirst(p, n.children);
      }
      assert FindAllNode(p, n) == own + inside;
      assert FindAll(p, ns) == own + inside + later;
      forall k | 0 <= k < |FindAll(p, ns)|
        ensures p(LabelOf(FindAll(p, ns)[k]))
      {
        if k >= |own| + |inside| {
          assert FindAll(p, ns)[k] == later[k - |own| - |inside|];
        } else if k >= |own| {
          assert FindAll(p, ns)[k] == inside[k - |own|];
        }
      }
    }
  }

  /** A node's own match and its subtree's come before its later siblings'. */
  lemma {:induction false} FindAllConsNode(p: Label -> bool, n: Node, rest: seq<Node>)
    ensures FindAll(p, [n] + rest) == FindAllNode(p, n) + FindAll(p, rest)
  {
    assert ([n] + rest)[0] == n;
    assert ([n] + rest)[1..] == rest;
  }

  lemma {:induction false} FindAllSingle(p: Label -> bool, n: Node)
    ensures FindAll(p, [n]) == FindAllNode(p, n)
  {
    assert [n][1..] == [];
    assert FindAllNode(p, n) + [] == FindAllNode(p, n);
  }

  lemma {:induction false} FindAllAppend(p: Label -> bool, a: seq<Node>, b: seq<Node>)
    ensures FindAll(p, a + b) == FindAll(p, a) + FindAll(p, b)
    decreases |a|
  {
    if a != [] {
      assert (a + b)[0] == a[0];
      assert (a + b)[1..] == a[1..] + b;
      FindAllAppend(p, a[1..], b);
      var x := FindAllNode(p, a[0]);
      assert FindAll(p, a + b) == x + FindAll(p, a[1..] + b);
      assert x + (FindAll(p, a[1..]) + FindAll(p, b)) == (x + FindAll(p, a[1..])) + FindAll(p, b);
    } else {
      assert a + b == b;
    }
  }

  /** `document.querySelector(sel)`: the head is searched before the body. */
  function QuerySelector(sel: Selector, d: Doc): Option<Node> {
    match FindFirst(Matcher(sel), d.head)
    case Some(m) => Some(m)
    case None => FindFirst(Matcher(sel), d.body)
  }

  /** Removes the first node of a forest, in document order, whose label passes `p` (with
      its subtree) and returns the forest and the removed node. */
  function RemoveFirst(p: Label -> bool, ns: seq<Node>): (seq<Node>, Option<Node>)
    decreases ns
  {
    if ns == [] then ([], None)
    else if p(LabelOf(ns[0])) then (ns[1..], Some(ns[0]))
    else match ns[0]
      case Elem(t, a, ch) =>
        (match RemoveFirst(p, ch)
         case (ch', Some(m)) => ([Elem(t, a, ch')] + ns[1..], Some(m))
         case (_, None) =>
           var (rest, m) := RemoveFirst(p, ns[1..]);
           ([ns[0]] + rest, m))
      case Text(_) =>
        var (rest, m) := RemoveFirst(p, ns[1..]);
        ([ns[0]] + rest, m)
  }

  /** `document.querySelector(sel)?.remove()`. */
  function RemoveFirstInDoc(sel: Selector, d: Doc): Doc {
    match RemoveFirst(Matcher(sel), d.head)
    case (h, Some(_)) => Doc(h, d.body)
    case (_, None) => Doc(d.head, RemoveFirst(Matcher(sel), d.body).0)
  }

  /** The node removed is the node `querySelector` finds. */
  lemma {:induction false} RemoveFirstRemovesFound(p: Label -> bool, ns: seq<Node>)
    ensures RemoveFirst(p, ns).1 == FindFirst(p, ns)
    decreases ns
  {
    if ns != [] && !p(LabelOf(ns[0])) {
      RemoveFirstRemovesFound(p, ns[1..]);
      if ns[0].Elem? {
        RemoveFirstRemovesFound(p, ns[0].children);
      }
    }
  }

  /** `g` is `f` with the block `block`, found at index `i`, cut out. */
  predicate IsCut(f: seq<Label>, i: nat, block: seq<Label>, g: seq<Label>) {
    i + |block| <= |f| && f[i..i + |block|] == block && g == f[..i] + f[i + |block|..]
  }

  lemma {:induction false} CutShift(prefix: seq<Label>, f: seq<Label>, i: nat, block: seq<Label>, g: seq<Label>)
    requires IsCut(f, i, block, g)
    ensures IsCut(prefix + f, |prefix| + i, block, prefix + g)
  {
    var pf := prefix + f;
    assert pf[|prefix| + i..|prefix| + i + |block|] == f[i..i + |block|];
    assert pf[..|prefix| + i] == prefix + f[..i];
    assert pf[|prefix| + i + |block|..] == f[i + |block|..];
  }

  lemma {:induction false} CutExtend(f: seq<Label>, i: nat, block: seq<Label>, g: seq<Label>, suffix: seq<Label>)
    requires IsCut(f, i, block, g)
    ensures IsCut(f + suffix, i, block, g + suffix)
  {
    var fs := f + suffix;
    assert fs[i..i + |block|] == f[i..i + |block|];
    assert fs[..i] == f[..i];
    assert fs[i + |block|..] == f[i + |block|..] + suffix;
  }

  /** What removing the first match of `p` from `ns` must produce: when nothing matches,
      the forest unchanged; otherwise a matching node `x`, found at the first matching
      index of the document order, whose subtree is the one block cut out of it. */
  predicate RemovalSpec(p: Label -> bool, ns: seq<Node>, r: seq<Node>, m: Option<Node>) {
    var f := Flatten(ns);
    match m
    case None => FirstMatchAt(p, f).None? && r == ns
    case Some(x) =>
      && FirstMatchAt(p, f).Some?
      && p(LabelOf(x))
      && IsCut(f, FirstMatchAt(p, f).value, FlattenNode(x), Flatten(r))
  }

  /** Removing the first match cuts exactly one contiguous block out of the document
      order: the first matching node and its descendants. Nothing before or after the
      block changes, and when nothing matches, nothing changes at all. */
  lemma {:induction false} RemoveFirstCutsFirstMatch(p: Label -> bool, ns: seq<Node>)
    ensures RemovalSpec(p, ns, RemoveFirst(p, ns).0, RemoveFirst(p, ns).1)
    decreases ns
  {
    if ns == [] {
      return;
    }
    var n := ns[0];
    var tail := ns[1..];
    assert ns == [n] + tail;
    if p(LabelOf(n)) {
      HeadCut(p, n, tail);
    } else if n.Elem? && RemoveFirst(p, n.children).1.Some? {
      RemoveFirstCutsFirstMatch(p, n.children);
      ChildCut(p, n, tail);
    } else {
      if n.Elem? {
        RemoveFirstCutsFirstMatch(p, n.children);
      }
      RemoveFirstCutsFirstMatch(p, tail);
      TailCut(p, n, tail);
    }
  }

  /** The step where the first node itself matches: it goes, with its subtree. */
  lemma {:induction false} HeadCut(p: Label -> bool, n: Node, tail: seq<Node>)
    requires p(LabelOf(n))
    ensures RemovalSpec(p, [n] + tail, RemoveFirst(p, [n] + tail).0, RemoveFirst(p, [n] + tail).1)
  {
    var ns := [n] + tail;
    assert ns[0] == n && ns[1..] == tail;
    assert RemoveFirst(p, ns) == (tail, Some(n));
    FlattenCons(n, tail);
    FirstMatchAtAppend(p, FlattenNode(n), Flatten(tail));
    assert FirstMatchAt(p, FlattenNode(n)) == Some(0);
    assert IsCut(FlattenNode(n) + Flatten(tail), 0, FlattenNode(n), Flatten(tail));
  }

  /** A cut inside the children, seen from the parent: the parent's own label goes in
      front and its later siblings behind. */
  lemma {:induction false} CutInside(p: Label -> bool, l: Label, fc: seq<Label>, ft: seq<Label>, j: nat, block: seq<Label>, fc': seq<Label>)
    requires !p(l) && FirstMatchAt(p, fc) == Some(j) && IsCut(fc, j, block, fc')
    ensures FirstMatchAt(p, [l] + fc + ft) == Some(1 + j)
    ensures IsCut([l] + fc + ft, 1 + j, block, [l] + fc' + ft)
  {
    FirstMatchInside(p, l, fc, ft, j);
    CutExtend(fc, j, block, fc', ft);
    CutShift([l], fc + ft, j, block, fc' + ft);
    assert [l] + fc + ft == [l] + (fc + ft);
    assert [l] + fc' + ft == [l] + (fc' + ft);
  }

  lemma {:induction false} FirstMatchInside(p: Label -> bool, l: Label, fc: seq<Label>, ft: seq<Label>, j: nat)
    requires !p(l) && FirstMatchAt(p, fc) == Some(j)
    ensures FirstMatchAt(p, [l] + fc + ft) == Some(1 + j)
  {
    FirstMatchAtAppend(p, fc, ft);
    FirstMatchAtAppend(p, [l], fc + ft);
    assert [l] + fc + ft == [l] + (fc + ft);
  }

  /** The step where the first match lies inside the first node: the cut falls among its
      descendants. */
  lemma {:induction false} ChildCut(p: Label -> bool, n: Node, tail: seq<Node>)
    requires !p(LabelOf(n)) && n.Elem?
    requires RemoveFirst(p, n.children).1.Some?
    requires RemovalSpec(p, n.children, RemoveFirst(p, n.children).0, RemoveFirst(p, n.children).1)
    ensures RemovalSpec(p, [n] + tail, RemoveFirst(p, [n] + tail).0, RemoveFirst(p, [n] + tail).1)
  {
    var ns := [n] + tail;
    assert ns[0] == n && ns[1..] == tail;
    var (ch', mc) := RemoveFirst(p, n.children);
    var n' := Elem(n.tag, n.attrs, ch');
    assert RemoveFirst(p, ns) == ([n'] + tail, mc);
    var l := LabelOf(n);
    FlattenCons(n, tail);
    FlattenCons(n', tail);
    assert Flatten(ns) == [l] + Flatten(n.children) + Flatten(tail);
    assert Flatten([n'] + tail) == [l] + Flatten(ch') + Flatten(tail);
    CutInside(p, l, Flatten(n.children), Flatten(tail), FirstMatchAt(p, Flatten(n.children)).value,
              FlattenNode(mc.value), Flatten(ch'));
  }

  /** A node that does not match and holds no match contributes no match to the order. */
  lemma {:induction false} NodeHasNoMatch(p: Label -> bool, n: Node)
    requires !p(LabelOf(n))
    requires n.Elem? ==> FirstMatchAt(p, Flatten(n.children)).None?
    ensures FirstMatchAt(p, FlattenNode(n)).None?
  {
    if n.Elem? {
      FirstMatchAtAppend(p, [LabelOf(n)], Flatten(n.children));
    }
  }

  /** When the first node of a forest neither matches nor holds a match, removal skips
      it. */
  lemma {:induction false} RemoveFirstSkips(p: Label -> bool, n: Node, tail: seq<Node>)
    requires !p(LabelOf(n))
    requires n.Elem? ==> RemoveFirst(p, n.children).1.None?
    ensures RemoveFirst(p, [n] + tail) == ([n] + RemoveFirst(p, tail).0, RemoveFirst(p, tail).1)
  {
    var ns := [n] + tail;
    assert ns[0] == n && ns[1..] == tail;
  }

  /** A cut in the later siblings, seen from the forest: the first node's labels go in
      front. */
  lemma {:induction false} CutAfter(p: Label -> bool, fn: seq<Label>, ft: seq<Label>, j: nat, block: seq<Label>, ft': seq<Label>)
    requires FirstMatchAt(p, fn).None? && FirstMatchAt(p, ft) == Some(j) && IsCut(ft, j, block, ft')
    ensures FirstMatchAt(p, fn + ft) == Some(|fn| + j)
    ensures IsCut(fn + ft, FirstMatchAt(p, fn + ft).value, block, fn + ft')
  {
    FirstMatchAtAppend(p, fn, ft);
    CutShift(fn, ft, j, block, ft');
  }

  /** The step where the first node holds no match, so the cut falls in the rest of the
      forest. */
  lemma {:induction false} TailCut(p: Label -> bool, n: Node, tail: seq<Node>)
    requires !p(LabelOf(n))
    requires n.Elem? ==> RemovalSpec(p, n.children, RemoveFirst(p, n.children).0, RemoveFirst(p, n.children).1)
    requires n.Elem? ==> RemoveFirst(p, n.children).1.None?
    requires RemovalSpec(p, tail, RemoveFirst(p, tail).0, RemoveFirst(p, tail).1)
    ensures RemovalSpec(p, [n] + tail, RemoveFirst(p, [n] + tail).0, RemoveFirst(p, [n] + tail).1)
  {
    NodeHasNoMatch(p, n);
    RemoveFirstSkips(p, n, tail);
    var r := RemoveFirst(p, tail);
    if r.1.None? {
      SkipNoMatch(p, n, tail);
    } else {
      SkipCut(p, n, tail, r.0, r.1.value);
    }
  }

  /** A node without a match in front of a forest without a match. */
  lemma {:induction false} SkipNoMatch(p: Label -> bool, n: Node, tail: seq<Node>)
    requires FirstMatchAt(p, FlattenNode(n)).None?
    requires FirstMatchAt(p, Flatten(tail)).None?
    ensures RemovalSpec(p, [n] + tail, [n] + tail, None)
  {
    FlattenCons(n, tail);
    FirstMatchAtAppend(p, FlattenNode(n), Flatten(tail));
  }

  /** A node without a match in front of a forest with a cut. */
  lemma {:induction false} SkipCut(p: Label -> bool, n: Node, tail: seq<Node>, rest: seq<Node>, x: Node)
    requires FirstMatchAt(p, FlattenNode(n)).None?
    requires RemovalSpec(p, tail, rest, Some(x))
    ensures RemovalSpec(p, [n] + tail, [n] + rest, Some(x))
  {
    var fn, ft, fr := FlattenNode(n), Flatten(tail), Flatten(rest);
    CutAfter(p, fn, ft, FirstMatchAt(p, ft).value, FlattenNode(x), fr);
    var f, g := Flatten([n] + tail), Flatten([n] + rest);
    FlattenCons(n, tail);
    FlattenCons(n, rest);
    assert f == fn + ft && g == fn + fr;
    assert FirstMatchAt(p, f).Some? && IsCut(f, FirstMatchAt(p, f).value, FlattenNode(x), g);
  }

  /** Cutting a block out never creates a match. */
  lemma {:induction false} CutKeepsNoMatch(p: Label -> bool, f: seq<Label>, i: nat, block: seq<Label>, g: seq<Label>)
    requires IsCut(f, i, block, g)
    requires FirstMatchAt(p, f).None?
    ensures FirstMatchAt(p, g).None?
  {
    assert forall k :: 0 <= k < i ==> g[k] == f[k];
    assert forall k :: i <= k < |g| ==> g[k] == f[k + |block|];
  }

  /** `document.querySelector(sel)?.remove()` over a whole document: nothing changes when
      nothing matches; otherwise the node `querySelector` finds is removed, and with it
      exactly its own subtree's block of the document order. */
  lemma RemoveFirstInDocCuts(sel: Selector, d: Doc)
    ensures QuerySelector(sel, d).None? <==> FirstMatchAt(Matcher(sel), FlattenDoc(d)).None?
    ensures QuerySelector(sel, d).None? ==> RemoveFirstInDoc(sel, d) == d
    ensures QuerySelector(sel, d).Some? ==>
              var x := QuerySelector(sel, d).value;
              var f := FlattenDoc(d);
              && SelectorMatches(sel, LabelOf(x))
              && IsCut(f, FirstMatchAt(Matcher(sel), f).value, FlattenNode(x),
                       FlattenDoc(RemoveFirstInDoc(sel, d)))
  {
    var p := Matcher(sel);
    RemoveFirstCutsFirstMatch(p, d.head);
    RemoveFirstCutsFirstMatch(p, d.body);
    RemoveFirstRemovesFound(p, d.head);
    RemoveFirstRemovesFound(p, d.body);
    var (h, mh) := RemoveFirst(p, d.head);
    var (b, mb) := RemoveFirst(p, d.body);
    if mh.Some? {
      HeadRemoval(p, d, h, mh.value);
    } else {
      BodyRemoval(p, d, b, mb);
      if mb.Some? {
        assert p(LabelOf(mb.value)) == SelectorMatches(sel, LabelOf(mb.value));
      }
    }
  }

  /** A removal in the head, seen in the whole document order. */
  lemma {:induction false} HeadRemoval(p: Label -> bool, d: Doc, h: seq<Node>, x: Node)
    requires RemovalSpec(p, d.head, h, Some(x))
    ensures FirstMatchAt(p, FlattenDoc(d)).Some?
    ensures IsCut(FlattenDoc(d), FirstMatchAt(p, FlattenDoc(d)).value, FlattenNode(x), FlattenDoc(Doc(h, d.body)))
  {
    var fh, fb := Flatten(d.head), Flatten(d.body);
    FirstMatchAtAppend(p, fh, fb);
    CutExtend(fh, FirstMatchAt(p, fh).value, FlattenNode(x), Flatten(h), fb);
  }

  /** A removal in the body of a document whose head has no match, seen in the whole
      document order. */
  lemma {:induction false} BodyRemoval(p: Label -> bool, d: Doc, b: seq<Node>, m: Option<Node>)
    requires FirstMatchAt(p, Flatten(d.head)).None?
    requires RemovalSpec(p, d.body, b, m)
    ensures m.None? <==> FirstMatchAt(p, FlattenDoc(d)).None?
    ensures m.None? ==> Doc(d.head, b) == d
    ensures m.Some? ==> IsCut(FlattenDoc(d), FirstMatchAt(p, FlattenDoc(d)).value, FlattenNode(m.value), FlattenDoc(Doc(d.head, b)))
  {
    var fh, fb := Flatten(d.head), Flatten(d.body);
    FirstMatchAtAppend(p, fh, fb);
    if m.Some? {
      CutShift(fh, fb, FirstMatchAt(p, fb).value, FlattenNode(m.value), Flatten(b));
    }
  }

  /** `querySelector` finds nothing exactly when no node in the document order matches. */
  lemma FindFirstNoneIff(p: Label -> bool, ns: seq<Node>)
    ensures FindFirst(p, ns).None? <==> FirstMatchAt(p, Flatten(ns)).None?
  {
    RemoveFirstCutsFirstMatch(p, ns);
    RemoveFirstRemovesFound(p, ns);
  }

  /** Removing a node never makes a test `q` pass where no node passed it before, in the
      head or in the body. */
  lemma RemoveFirstInDocKeepsNoMatch(q: Label -> bool, sel: Selector, d: Doc)
    ensures FirstMatchAt(q, Flatten(d.head)).None? ==>
              FirstMatchAt(q, Flatten(RemoveFirstInDoc(sel, d).head)).None?
    ensures FirstMatchAt(q, Flatten(d.body)).None? ==>
              FirstMatchAt(q, Flatten(RemoveFirstInDoc(sel, d).body)).None?
  {
    var p := Matcher(sel);
    RemoveFirstCutsFirstMatch(p, d.head);
    RemoveFirstCutsFirstMatch(p, d.body);
    var (h, mh) := RemoveFirst(p, d.head);
    var (b, mb) := RemoveFirst(p, d.body);
    if mh.Some? {
      var f := Flatten(d.head);
      if FirstMatchAt(q, f).None? {
        CutKeepsNoMatch(q, f, FirstMatchAt(p, f).value, FlattenNode(mh.value), Flatten(h));
      }
    } else if mb.Some? {
      var f := Flatten(d.body);
      if FirstMatchAt(q, f).None? {
        CutKeepsNoMatch(q, f, FirstMatchAt(p, f).value, FlattenNode(mb.value), Flatten(b));
      }
    }
  }

  /** An empty element at the front of the head that the selector does not match stays at
      the front. */
  lemma RemoveFirstInDocKeepsLeader(sel: Selector, d: Doc)
    requires d.head != [] && d.head[0].Elem? && d.head[0].children == []
    requires !SelectorMatches(sel, LabelOf(d.head[0]))
    ensures RemoveFirstInDoc(sel, d).head != []
    ensures RemoveFirstInDoc(sel, d).head[0] == d.head[0]
  {
    var p := Matcher(sel);
    assert !p(LabelOf(d.head[0]));
    assert d.head == [d.head[0]] + d.head[1..];
    RemoveFirstSkips(p, d.head[0], d.head[1..]);
  }

  // ---------------------------------------------------------------------------------
  // Stripping target="_blank"

  /** `a[target="_blank"]`; `target` is compared ASCII case-insensitively. */
  const TargetBlank: Selector := AttrEquals("a", "target", "_blank")

  /** `a.removeAttribute('target')` on a label the selector matches; every other label is
      left as it is. */
  function StripLabel(l: Label): Label {
    match l
    case ElemLabel(t, a) => if SelectorMatches(TargetBlank, l) then ElemLabel(t, a - {"target"}) else l
    case TextLabel(_) => l
  }

  function StripNode(n: Node): Node
    decreases n
  {
    match n
    case Text(_) => n
    case Elem(t, a, ch) =>
      var l := StripLabel(ElemLabel(t, a));
      Elem(l.tag, l.attrs, StripAll(ch))
  }

  /** `querySelectorAll('a[target="_blank"]').forEach(a => a.removeAttribute('target'))`
      over a forest. */
  function StripAll(ns: seq<Node>): (r: seq<Node>)
    ensures |r| == |ns|
    decreases ns
  {
    if ns == [] then [] else [StripNode(ns[0])] + StripAll(ns[1..])
  }

  function StripDoc(d: Doc): Doc {
    Doc(StripAll(d.head), StripAll(d.body))
  }

  function StripLabels(ls: seq<Label>): (r: seq<Label>)
    ensures |r| == |ls| && forall k :: 0 <= k < |ls| ==> r[k] == StripLabel(ls[k])
  {
    seq(|ls|, k requires 0 <= k < |ls| => StripLabel(ls[k]))
  }

  /** A stripped label is never matched again, and stripping only ever touches a label the
      selector matches, and then only its `target` attribute. */
  lemma StripLabelFacts(l: Label)
    ensures !SelectorMatches(TargetBlank, StripLabel(l))
    ensures StripLabel(StripLabel(l)) == StripLabel(l)
    ensures StripLabel(l) != l ==>
              (SelectorMatches(TargetBlank, l) && StripLabel(l) == ElemLabel(l.tag, l.attrs - {"target"}))
  {
  }

  lemma StripNodeLabel(n: Node)
    ensures LabelOf(StripNode(n)) == StripLabel(LabelOf(n))
  {
  }

  /** Stripping works label by label: the document order keeps its length and every
      position holds the stripped version of what was there. */
  lemma {:induction false} FlattenStripAll(ns: seq<Node>)
    ensures Flatten(StripAll(ns)) == StripLabels(Flatten(ns))
    decreases ns
  {
    if ns != [] {
      var n := ns[0];
      FlattenStripAll(ns[1..]);
      if n.Elem? {
        FlattenStripAll(n.children);
      }
      FlattenStripNode(n);
      assert ns == [n] + ns[1..];
      FlattenStripCons(n, ns[1..]);
    }
  }

  /** One node's share of `FlattenStripAll`, given its children's. */
  lemma {:induction false} FlattenStripNode(n: Node)
    requires n.Elem? ==> Flatten(StripAll(n.children)) == StripLabels(Flatten(n.children))
    ensures FlattenNode(StripNode(n)) == StripLabels(FlattenNode(n))
  {
    StripNodeLabel(n);
    if n.Elem? {
      StripLabelsAppend([LabelOf(n)], Flatten(n.children));
    }
  }

  /** A forest's share of `FlattenStripAll`, given its first node's and the rest's. */
  lemma {:induction false} FlattenStripCons(n: Node, tail: seq<Node>)
    requires FlattenNode(StripNode(n)) == StripLabels(FlattenNode(n))
    requires Flatten(StripAll(tail)) == StripLabels(Flatten(tail))
    ensures Flatten(StripAll([n] + tail)) == StripLabels(Flatten([n] + tail))
  {
    assert ([n] + tail)[0] == n && ([n] + tail)[1..] == tail;
    assert StripAll([n] + tail) == [StripNode(n)] + StripAll(tail);
    FlattenCons(StripNode(n), StripAll(tail));
    FlattenCons(n, tail);
    StripLabelsAppend(FlattenNode(n), Flatten(tail));
  }

  lemma {:induction false} StripLabelsAppend(a: seq<Label>, b: seq<Label>)
    ensures StripLabels(a + b) == StripLabels(a) + StripLabels(b)
  {
  }

  /** After stripping, no anchor with `target="_blank"` is left. */
  lemma NoTargetBlankLeft(ns: seq<Node>)
    ensures FirstMatchAt(Matcher(TargetBlank), Flatten(StripAll(ns))).None?
  {
    FlattenStripAll(ns);
    var f := Flatten(ns);
    forall k | 0 <= k < |f|
      ensures !SelectorMatches(TargetBlank, StripLabels(f)[k])
    {
      StripLabelFacts(f[k]);
    }
  }

  /** Stripping works node by node, so it distributes over concatenation. */
  lemma {:induction false} StripAllAppend(a: seq<Node>, b: seq<Node>)
    ensures StripAll(a + b) == StripAll(a) + StripAll(b)
    decreases |a|
  {
    if a != [] {
      assert (a + b)[0] == a[0];
      assert (a + b)[1..] == a[1..] + b;
      StripAllAppend(a[1..], b);
    } else {
      assert a + b == b;
    }
  }

  /** Stripping twice is stripping once. */
  lemma {:induction false} StripAllIdempotent(ns: seq<Node>)
    ensures StripAll(StripAll(ns)) == StripAll(ns)
    decreases ns
  {
    if ns != [] {
      StripAllIdempotent(ns[1..]);
      assert StripAll(ns)[1..] == StripAll(ns[1..]);
      match ns[0]
      case Text(_) =>
      case Elem(t, a, ch) =>
        StripAllIdempotent(ch);
        StripLabelFacts(ElemLabel(t, a));
    }
  }
}
