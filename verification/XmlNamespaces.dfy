/** Namespaces as the finished document shows them: what the attribute nodes of its elements declare, against what the
    parser took them to declare. */
module XmlNamespaces {
  import opened Common
  import opened XmlText
  import opened XmlTree
  import opened XmlScanner
  import opened XmlParser
  import opened XmlRoundTrip
  import opened XmlScopes

  // ---- which attributes declare which prefix ----

  /** The attribute that declares a prefix; the empty one stands for the default namespace. */
  function DeclarationName(prefix: string): string {
    if prefix == "" then "xmlns" else "xmlns:" + prefix
  }

  predicate Named(raw: seq<RawAttr>) {
    forall i :: 0 <= i < |raw| ==> IsQName(raw[i].name)
  }

  lemma {:induction false} DeclaresIs(name: string, prefix: string)
    ensures Declares(DeclarationName(prefix)) == Some(prefix)
    ensures IsQName(name) && Declares(name) == Some(prefix) ==> name == DeclarationName(prefix)
  {
    ColonAt("xmlns", prefix);
    if IsQName(name) && Declares(name) == Some(prefix) && name != "xmlns" {
      var k := IndexOf(name, ":", 0);
      assert name[..k] == "xmlns" && k == 5 && At(name, k, ":");
      assert name == name[..5] + ":" + name[6..];
      NoEmptyLocal();
    }
  }

  lemma ColonAt(before: string, after: string)
    requires ':' !in before
    ensures IndexOf(before + ":" + after, ":", 0) == |before|
    ensures (before + ":" + after)[..|before|] == before && (before + ":" + after)[|before| + 1..] == after
  {
    var s := before + ":" + after;
    assert s == before + (":" + after);
    AtOne(s, |before|, ':');
    forall j: nat | j < |before| ensures !At(s, j, ":") {
      AtOne(s, j, ':');
      assert s[j] == before[j];
    }
    IndexOfIs(s, ":", 0, |before|);
  }

  lemma NoEmptyLocal()
    ensures !IsQName("xmlns:")
  {
    var s := "xmlns:";
    assert s[5] == ':' && !NameChar(s[5]);
    assert forall k :: 0 <= k < |s| && s[k] == ':' ==> k == 5;
  }

  function FirstValue(raw: seq<RawAttr>, name: string): Option<string> {
    if raw == [] then None
    else if raw[0].name == name then Some(raw[0].value)
    else FirstValue(raw[1..], name)
  }

  function LastValue(raw: seq<RawAttr>, name: string): Option<string> {
    if raw == [] then None
    else if LastValue(raw[1..], name).Some? then LastValue(raw[1..], name)
    else if raw[0].name == name then Some(raw[0].value)
    else None
  }

  /** The parser's map: a prefix stands for the value of the first attribute that declares it. */
  lemma {:induction false} DeclarationsAre(raw: seq<RawAttr>, prefix: string)
    requires Named(raw)
    ensures Lookup(Declarations(raw), prefix) == FirstValue(raw, DeclarationName(prefix))
  {
    if raw != [] {
      DeclarationsAre(raw[1..], prefix);
      DeclaresIs(raw[0].name, prefix);
    }
  }

  // ---- the attribute nodes ----

  /** The same reading of the attribute nodes of an element. */
  function Declared(attrs: seq<Attr>): NsMap {
    Declarations(Raw(attrs))
  }

  function ValueOf(attrs: seq<Attr>, name: string): Option<string> {
    if attrs == [] then None
    else if attrs[0].name == name then Some(attrs[0].value)
    else ValueOf(attrs[1..], name)
  }

  lemma {:induction false} ValueOfRaw(attrs: seq<Attr>, name: string)
    ensures FirstValue(Raw(attrs), name) == ValueOf(attrs, name)
  {
    if attrs != [] {
      ValueOfRaw(attrs[1..], name);
      assert Raw(attrs)[1..] == Raw(attrs[1..]);
    }
  }

  lemma {:induction false} SetValue(attrs: seq<Attr>, a: Attr, name: string)
    ensures ValueOf(SetNamedItem(attrs, a), name) == if name == a.name then Some(a.value) else ValueOf(attrs, name)
  {
    if attrs != [] && attrs[0].name != a.name {
      SetValue(attrs[1..], a, name);
    }
  }

  /** The node keeps the value of the last attribute of a name. */
  lemma {:induction false} SetAllValue(ns: NsMap, done: seq<Attr>, raw: seq<RawAttr>, name: string)
    ensures ValueOf(SetAll(ns, done, raw), name)
      == if LastValue(raw, name).Some? then LastValue(raw, name) else ValueOf(done, name)
    decreases |raw|
  {
    if raw != [] {
      var a := Attr(raw[0].name, AttrUri(ns, raw[0].name), raw[0].value);
      SetAllValue(ns, SetNamedItem(done, a), raw[1..], name);
      SetValue(done, a, name);
    }
  }

  /** Attribute nodes have the namespaces that their prefixes have. */
  predicate AttrsScoped(ns: NsMap, attrs: seq<Attr>) {
    forall i :: 0 <= i < |attrs| ==> IsQName(attrs[i].name) && AttrInScope(ns, attrs[i].name, attrs[i].uri)
  }

  lemma {:induction false} SetUris(ns: NsMap, attrs: seq<Attr>, a: Attr)
    requires AttrsScoped(ns, attrs) && IsQName(a.name) && AttrInScope(ns, a.name, a.uri)
    ensures AttrsScoped(ns, SetNamedItem(attrs, a))
  {
    hide IsQName, AttrInScope;
    if attrs != [] && attrs[0].name != a.name {
      SetUris(ns, attrs[1..], a);
    }
  }

  lemma {:induction false} SetAllUris(ns: NsMap, done: seq<Attr>, raw: seq<RawAttr>)
    requires Named(raw) && AttrsScoped(ns, done)
    ensures AttrsScoped(ns, SetAll(ns, done, raw))
    decreases |raw|
  {
    hide IsQName, AttrUri, AttrInScope, AttrsScoped;
    if raw != [] {
      var a := Attr(raw[0].name, AttrUri(ns, raw[0].name), raw[0].value);
      AttrUriIs(ns, raw[0].name);
      SetUris(ns, done, a);
      SetAllUris(ns, SetNamedItem(done, a), raw[1..]);
    }
  }

  // ---- when the two agree ----

  /** An attribute that declares a prefix and occurs more than once has the same value first and last. */
  predicate Unambiguous(raw: seq<RawAttr>) {
    forall i :: 0 <= i < |raw| && Declares(raw[i].name).Some? ==>
      FirstValue(raw, raw[i].name) == LastValue(raw, raw[i].name)
  }

  lemma {:induction false} ValuesOf(raw: seq<RawAttr>, name: string)
    ensures FirstValue(raw, name).Some? <==> exists i :: 0 <= i < |raw| && raw[i].name == name
    ensures FirstValue(raw, name).Some? <==> LastValue(raw, name).Some?
  {
    if raw != [] {
      ValuesOf(raw[1..], name);
      assert forall i :: 1 <= i < |raw| ==> raw[i] == raw[1..][i - 1];
    }
  }

  lemma DeclaredValue(ns: NsMap, raw: seq<RawAttr>, prefix: string)
    requires Named(raw)
    ensures Lookup(Declared(SetAll(ns, [], raw)), prefix) == LastValue(raw, DeclarationName(prefix))
  {
    hide SetAll, Declarations, Raw, DeclarationName, LastValue;
    var attrs, name := SetAll(ns, [], raw), DeclarationName(prefix);
    SetAllUris(ns, [], raw);
    DeclarationsAre(Raw(attrs), prefix);
    ValueOfRaw(attrs, name);
    SetAllValue(ns, [], raw, name);
  }

  lemma SameMap(a: NsMap, b: NsMap)
    requires forall p :: Lookup(a, p) == Lookup(b, p)
    ensures a == b
  {
    assert forall p :: p in a <==> Lookup(a, p).Some?;
    assert forall p :: p in b <==> Lookup(b, p).Some?;
    assert forall p :: p in a ==> Lookup(a, p) == Some(a[p]);
  }

  /** The map of an element says what its own attribute nodes say exactly if no declaration is repeated with another
      value: the map takes the first of them, the node keeps the last. */
  lemma DeclarationsAgree(ns: NsMap, raw: seq<RawAttr>)
    requires Named(raw)
    ensures Declarations(raw) == Declared(SetAll(ns, [], raw)) <==> Unambiguous(raw)
  {
    hide Declarations, Declared, SetAll, DeclarationName, FirstValue, LastValue, Lookup;
    var nodes := Declared(SetAll(ns, [], raw));
    forall prefix
      ensures Lookup(Declarations(raw), prefix) == FirstValue(raw, DeclarationName(prefix))
      ensures Lookup(nodes, prefix) == LastValue(raw, DeclarationName(prefix))
    {
      DeclarationsAre(raw, prefix);
      DeclaredValue(ns, raw, prefix);
    }
    if Unambiguous(raw) {
      forall prefix ensures Lookup(Declarations(raw), prefix) == Lookup(nodes, prefix) {
        ValuesOf(raw, DeclarationName(prefix));
        DeclaresIs("", prefix);
      }
      SameMap(Declarations(raw), nodes);
    }
    if Declarations(raw) == nodes {
      forall i | 0 <= i < |raw| && Declares(raw[i].name).Some?
        ensures FirstValue(raw, raw[i].name) == LastValue(raw, raw[i].name)
      {
        DeclaresIs(raw[i].name, Declares(raw[i].name).value);
        assert Lookup(nodes, Declares(raw[i].name).value) == LastValue(raw, raw[i].name);
      }
    }
  }

  /** Two declarations of the prefix `p`: the map has the first, the node the second. */
  lemma RepeatedDeclaration(ns: NsMap)
    ensures var raw := [RawAttr("xmlns:p", "1"), RawAttr("xmlns:p", "2")];
      Lookup(Declarations(raw), "p") == Some("1") && Lookup(Declared(SetAll(ns, [], raw)), "p") == Some("2")
  {
    var raw := [RawAttr("xmlns:p", "1"), RawAttr("xmlns:p", "2")];
    PrefixedName();
    assert DeclarationName("p") == "xmlns:p";
    assert raw[1..] == [RawAttr("xmlns:p", "2")] && raw[1..][1..] == [];
    DeclarationsAre(raw, "p");
    DeclaredValue(ns, raw, "p");
  }

  lemma PrefixedName()
    ensures IsQName("xmlns:p")
  {
    var s := "xmlns:p";
    assert s[5] == ':' && s[..5] == "xmlns" && s[6..] == "p";
    assert IsNcName("xmlns") && IsNcName("p");
  }

  // ---- the scanner only takes names ----

  lemma {:induction false} TurnNames(ent: Entities, src: string, sc: Scan)
    requires Named(sc.el.attrs)
    ensures var n := Turn(ent, src, sc);
      if n.Continue? then Named(n.sc.el.attrs) else n.result.Scanned? ==> Named(n.result.el.attrs)
  {
    hide IsQName, IndexOf, Unescape, UnknownRefs;
  }

  lemma {:induction false} ScannedNames(ent: Entities, src: string, sc: Scan)
    requires Named(sc.el.attrs)
    ensures ScanFrom(ent, src, sc).Scanned? ==> Named(ScanFrom(ent, src, sc).el.attrs)
    decreases |src| - sc.p
  {
    hide Turn, Named;
    TurnNames(ent, src, sc);
    match Turn(ent, src, sc)
    case Continue(sc1) => ScannedNames(ent, src, sc1);
    case Stop(r) =>
  }

  // ---- the whole document ----

  /** The element comes from a start tag of the source, and its attribute nodes are those of the tag. */
  ghost predicate Tagged(env: Env, src: string, ns: NsMap, name: string, attrs: seq<Attr>) {
    exists raw: seq<RawAttr> :: FromTag(env.entities, src, name, raw) && attrs == SetAll(ns, [], raw)
  }

  /** Every element below comes from a start tag of the source, with all its attributes, and every element and attribute
      node has the namespace of its prefix, in the map that the attribute nodes of the elements around it declare
      (Namespaces in XML 1.0, section 6). */
  ghost predicate TreeScoped(env: Env, src: string, ns: NsMap, t: Node)
    decreases t
  {
    match t
    case Element(name, uri, attrs, kids) =>
      var inner := ns + Declared(attrs);
      ElementInScope(inner, name, uri) && AttrsScoped(inner, attrs) && Tagged(env, src, inner, name, attrs)
      && forall i :: 0 <= i < |kids| ==> TreeScoped(env, src, inner, kids[i])
    case _ => true
  }

  ghost predicate AllScoped(env: Env, src: string, ns: NsMap, ts: seq<Node>) {
    forall i :: 0 <= i < |ts| ==> TreeScoped(env, src, ns, ts[i])
  }

  /** Instructions and document types add no elements. */
  ghost predicate PlainMarkup(env: Env) {
    forall src, at, i :: 0 <= i < |env.markup(src, at).nodes| ==> !env.markup(src, at).nodes[i].Element?
  }

  /** If a start tag is read at `at`, it repeats no declaration with another value. */
  predicate ClearTag(env: Env, src: string, at: nat) {
    (at + 1 < |src| && src[at + 1] in {'/', '?', '!'})
    || match ScanFrom(env.entities, src, Begin(at))
       case Scanned(el, _, _) => Unambiguous(el.attrs)
       case Thrown(_) => true
  }

  /** No start tag that the parser reads from this state on repeats a declaration with another value. */
  predicate ClearFrom(env: Env, src: string, st: State)
    decreases |src| - st.start
  {
    var at := IndexOf(src, "<", st.start);
    at >= 0 ==> ClearTag(env, src, at) && ClearFrom(env, src, Pass(env, src, st).st)
  }

  /** The scope in which the children of the `i`-th open element stand; of the document for -1. */
  function ScopeAt(env: Env, st: State, i: int): NsMap
    requires -1 <= i < |st.stack|
  {
    if i == -1 then env.base else st.stack[i].ns
  }

  /** The open element `i` is well scoped in its parent, as far as it has been built. */
  ghost predicate OpenScoped(env: Env, src: string, st: State, i: nat)
    requires i < |st.stack| == |st.b.path|
  {
    var ns := st.stack[i].ns;
    ns == ScopeAt(env, st, i - 1) + Declared(st.b.path[i].attrs)
    && ElementInScope(ns, st.b.path[i].name, st.b.path[i].uri)
    && AttrsScoped(ns, st.b.path[i].attrs) && Tagged(env, src, ns, st.b.path[i].name, st.b.path[i].attrs)
    && AllScoped(env, src, ns, st.b.path[i].kids)
  }

  /** The document built so far is well scoped. */
  ghost predicate BuiltScoped(env: Env, src: string, st: State) {
    |st.stack| == |st.b.path| && AllScoped(env, src, env.base, st.b.doc)
    && forall i :: 0 <= i < |st.stack| ==> OpenScoped(env, src, st, i)
  }

  /** Nodes that are well scoped in the current element keep the document well scoped. */
  lemma AppendScoped(env: Env, src: string, st: State, ts: seq<Node>)
    requires BuiltScoped(env, src, st) && AllScoped(env, src, Scope(env, st), ts)
    ensures BuiltScoped(env, src, st.(b := AppendAll(st.b, ts)))
  {
    hide TreeScoped, AttrsScoped, Declared, ElementInScope, Tagged;
    var n, t := |st.stack|, st.(b := AppendAll(st.b, ts));
    forall i | 0 <= i < n ensures OpenScoped(env, src, t, i) {
      assert OpenScoped(env, src, st, i);
    }
  }

  /** Only the stack and the tree matter. */
  lemma SameBuilt(env: Env, src: string, st: State, t: State)
    requires BuiltScoped(env, src, st) && t.stack == st.stack && t.b.doc == st.b.doc && t.b.path == st.b.path
    ensures BuiltScoped(env, src, t)
  {
    hide AllScoped, AttrsScoped, Declared, ElementInScope, Tagged;
    forall i | 0 <= i < |t.stack| ensures OpenScoped(env, src, t, i) {
      assert OpenScoped(env, src, st, i);
    }
  }

  /** Closing the innermost element hands a well scoped tree to its parent. */
  lemma LeaveScoped(env: Env, src: string, st: State)
    requires BuiltScoped(env, src, st) && st.stack != []
    ensures BuiltScoped(env, src, st.(stack := st.stack[..|st.stack| - 1], b := EndElement(st.b)))
  {
    hide AttrsScoped, Declared, ElementInScope, Tagged;
    var n := |st.stack| - 1;
    var top := st.b.path[n];
    var below := st.(stack := st.stack[..n], b := st.b.(path := st.b.path[..n]));
    assert OpenScoped(env, src, st, n);
    assert TreeScoped(env, src, ScopeAt(env, st, n - 1), Element(top.name, top.uri, top.attrs, top.kids));
    forall i | 0 <= i < n ensures OpenScoped(env, src, below, i) {
      assert OpenScoped(env, src, st, i);
    }
    hide AllScoped;
    AppendOne(env, src, below, Element(top.name, top.uri, top.attrs, top.kids));
  }

  lemma AppendOne(env: Env, src: string, st: State, t: Node)
    requires BuiltScoped(env, src, st) && TreeScoped(env, src, Scope(env, st), t)
    ensures BuiltScoped(env, src, st.(b := AppendAll(st.b, [t])))
  {
    hide BuiltScoped, TreeScoped;
    AppendScoped(env, src, st, [t]);
  }

  /** A start tag without contradicting declarations opens a well scoped element. */
  lemma EnterScoped(env: Env, src: string, st: State, el: StartTag)
    requires BuiltScoped(env, src, st) && Named(el.attrs) && Unambiguous(el.attrs)
    requires FromTag(env.entities, src, el.name, el.attrs)
    ensures BuiltScoped(env, src, OpenElement(env, st, el))
  {
    hide AttrsScoped, ElementUri, ElementInScope, Declarations, Declared, SetAll, Unambiguous, Named, AllScoped, FromTag;
    var declared := Declarations(el.attrs);
    var ns := Scope(env, st) + declared;
    var attrs := SetAll(ns, [], el.attrs);
    DeclarationsAgree(ns, el.attrs);
    NoAttrs(env, src, ns);
    SetAllUris(ns, [], el.attrs);
    ElementUriIs(ns, el.name);
    var b := StartElement(st.b, el.name, ElementUri(ns, el.name), attrs);
    var t := st.(b := b, stack := st.stack + [Open(el.name, el.attrs, ns, declared)]);
    forall i | 0 <= i < |t.stack| ensures OpenScoped(env, src, t, i) {
      if i < |st.stack| {
        assert OpenScoped(env, src, st, i);
      }
    }
    if el.closed {
      LeaveScoped(env, src, t);
      assert t.stack[..|t.stack| - 1] == st.stack;
    }
  }

  lemma NoAttrs(env: Env, src: string, ns: NsMap)
    ensures AttrsScoped(ns, []) && AllScoped(env, src, ns, [])
  {
  }

  // ---- the parser, step by step ----

  lemma CharactersScoped(env: Env, src: string, st: State, chars: string, cdata: bool)
    requires BuiltScoped(env, src, st)
    ensures BuiltScoped(env, src, st.(b := Characters(st.b, chars, cdata)))
  {
    hide BuiltScoped, AllSpace;
    AppendOne(env, src, st, if cdata then CData(chars) else Text(chars));
    assert st == st.(b := st.b);
  }

  lemma TextScoped(env: Env, src: string, st: State, end: nat)
    requires BuiltScoped(env, src, st) && end <= |src|
    ensures BuiltScoped(env, src, AppendText(env, src, st, end))
  {
    hide BuiltScoped, Characters, Unescape, UnknownRefs;
    if st.start < end {
      var raw := src[st.start..end];
      var text := Unescape(env.entities, raw);
      var chars := if |text| > |raw| then text[..|raw|] else text;
      CharactersScoped(env, src, st, chars, false);
      SameBuilt(env, src, st.(b := Characters(st.b, chars, false)), AppendText(env, src, st, end));
    }
  }

  lemma MarkupScoped(env: Env, src: string, at: nat, st: State)
    requires BuiltScoped(env, src, st) && PlainMarkup(env)
    ensures BuiltScoped(env, src, ReadMarkup(env, src, at, st).0)
  {
    hide BuiltScoped;
    AppendScoped(env, src, st, env.markup(src, at).nodes);
  }

  lemma DccScoped(env: Env, src: string, at: nat, st: State)
    requires BuiltScoped(env, src, st) && PlainMarkup(env)
    ensures BuiltScoped(env, src, ReadDcc(env, src, at, st).0)
  {
    hide BuiltScoped, PlainMarkup, AppendAll, Characters, IndexOf;
    MarkupScoped(env, src, at, st);
    hide ReadMarkup;
    SameBuilt(env, src, st, Reported(st, 1));
    var close := IndexOf(src, "-->", at + 4);
    if close > at {
      AppendOne(env, src, st, Comment(src[at + 4..close]));
    }
    var end := IndexOf(src, "]]>", at + 9);
    CharactersScoped(env, src, st, if end < 0 then "" else src[at + 9..end], true);
  }

  lemma EndTagScoped(env: Env, src: string, at: nat, st: State)
    requires BuiltScoped(env, src, st) && at + 2 <= |src|
    ensures BuiltScoped(env, src, ReadEndTag(env, src, at, st).0)
  {
    hide BuiltScoped, EndTagName, EndElement;
    var (name, end, errors) := EndTagName(src, at);
    SameBuilt(env, src, st, Reported(st, errors));
    if st.stack != [] {
      LeaveScoped(env, src, st);
      var closed := st.(stack := st.stack[..|st.stack| - 1], b := EndElement(st.b));
      SameBuilt(env, src, closed, Reported(closed, errors));
      SameBuilt(env, src, closed, Reported(closed, errors + 2));
    }
  }

  lemma StartTagScoped(env: Env, src: string, at: nat, st: State)
    requires BuiltScoped(env, src, st) && at < |src| && src[at] == '<' && ClearTag(env, src, at)
    requires !(at + 1 < |src| && src[at + 1] in {'/', '?', '!'})
    ensures BuiltScoped(env, src, ReadStartTag(env, src, at, st).0)
  {
    assert Named([]);
    ScannedNames(env.entities, src, Begin(at));
    hide BuiltScoped, ScanFrom, OpenElement, FixSelfClosed, Unambiguous, Named, FromTag;
    match ScanFrom(env.entities, src, Begin(at)) {
      case Thrown(reports) => SameBuilt(env, src, st, Reported(st, reports + 1));
      case Scanned(el, end, reports) =>
        TagFound(env.entities, src, at, el.name, el.attrs);
        var (unclosed, closeAt) := FixSelfClosed(src, end, el.name, st.closeAt);
        var st1 := Reported(st, reports);
        var st2 := st1.(closeAt := closeAt);
        SameBuilt(env, src, st, st1);
        SameBuilt(env, src, st, st2);
        SameBuilt(env, src, st, Reported(st2, 1));
        EnterScoped(env, src, st1, el);
        EnterScoped(env, src, st2, el);
        EnterScoped(env, src, Reported(st2, 1), el.(closed := true));
    }
  }

  lemma TagScoped(env: Env, src: string, at: nat, st: State)
    requires BuiltScoped(env, src, st) && at < |src| && src[at] == '<' && PlainMarkup(env) && ClearTag(env, src, at)
    ensures BuiltScoped(env, src, ReadTag(env, src, at, st).0)
  {
    hide BuiltScoped, PlainMarkup, ClearTag, ReadStartTag, ReadEndTag, ReadMarkup, ReadDcc;
    if at + 1 < |src| && src[at + 1] == '/' {
      EndTagScoped(env, src, at, st);
    } else if at + 1 < |src| && src[at + 1] == '?' {
      MarkupScoped(env, src, at, st);
    } else if at + 1 < |src| && src[at + 1] == '!' {
      DccScoped(env, src, at, st);
    } else {
      StartTagScoped(env, src, at, st);
    }
  }

  lemma PassScoped(env: Env, src: string, st: State)
    requires BuiltScoped(env, src, st) && PlainMarkup(env) && Pass(env, src, st).More?
    requires ClearTag(env, src, IndexOf(src, "<", st.start))
    ensures BuiltScoped(env, src, Pass(env, src, st).st)
  {
    hide BuiltScoped, PlainMarkup, ClearTag, ReadTag, AppendText;
    var at := IndexOf(src, "<", st.start);
    AtOne(src, at, '<');
    var st1 := AppendText(env, src, st, at);
    TextScoped(env, src, st, at);
    TagScoped(env, src, at, st1);
    var (next, end) := ReadTag(env, src, at, st1);
    if end > at {
      SameBuilt(env, src, next, next.(start := end));
    }
    SameBuilt(env, src, next, next.(start := at));
    TextScoped(env, src, next.(start := at), at + 1);
  }

  /** Elements that are still open at the end are taken as they are. */
  lemma {:induction false} CloseAllScoped(env: Env, src: string, st: State)
    requires BuiltScoped(env, src, st)
    ensures AllScoped(env, src, env.base, CloseAll(st.b))
    decreases |st.stack|
  {
    if st.stack != [] {
      LeaveScoped(env, src, st);
      hide AllScoped, OpenScoped;
      CloseAllScoped(env, src, st.(stack := st.stack[..|st.stack| - 1], b := EndElement(st.b)));
    }
  }

  lemma {:induction false} RunScoped(env: Env, src: string, st: State)
    requires BuiltScoped(env, src, st) && PlainMarkup(env) && ClearFrom(env, src, st)
    ensures AllScoped(env, src, env.base, Run(env, src, st).doc)
    decreases |src| - st.start
  {
    hide BuiltScoped, PlainMarkup, ClearTag, CloseAll, PassAt, AppendText, TreeScoped;
    if IndexOf(src, "<", st.start) < 0 {
      CloseAllScoped(env, src, st);
      TextIsScoped(env, src, env.base);
    } else {
      PassScoped(env, src, st);
      hide Pass;
      RunScoped(env, src, Pass(env, src, st).st);
    }
  }

  lemma TextIsScoped(env: Env, src: string, ns: NsMap)
    ensures forall data :: TreeScoped(env, src, ns, Text(data))
  {
  }

  /** `normalize` only touches text. */
  lemma {:induction false} NormalizeScoped(env: Env, src: string, ns: NsMap, t: Node)
    requires TreeScoped(env, src, ns, t)
    ensures TreeScoped(env, src, ns, Normalize(t))
    decreases Size(t), 0
  {
    if t.Element? {
      NormalizeListScoped(env, src, ns + Declared(t.attrs), t.kids);
    }
  }

  lemma {:induction false} NormalizeListScoped(env: Env, src: string, ns: NsMap, ts: seq<Node>)
    requires AllScoped(env, src, ns, ts)
    ensures AllScoped(env, src, ns, NormalizeList(ts))
    decreases SizeAll(ts), 1
  {
    if |ts| >= 2 && ts[0].Text? && ts[1].Text? {
      MergeSizes(ts);
      assert forall i :: 1 <= i < |Merged(ts)| ==> Merged(ts)[i] == ts[i + 1];
      NormalizeListScoped(env, src, ns, Merged(ts));
    } else if ts != [] {
      NormalizeScoped(env, src, ns, ts[0]);
      NormalizeListScoped(env, src, ns, ts[1..]);
    }
  }

  /** In the document that the parser makes of a source, well formed or not, in which it reads no contradicting
      declarations, every element is that of a start tag, and every element and attribute has the namespace that the
      declarations around it, in that very document, give its prefix: no declaration reaches a sibling or a parent. */
  lemma DocumentScoped(env: Env, src: string)
    requires PlainMarkup(env) && ClearFrom(env, src, EMPTY) && src != []
    ensures Parse(env, src).Some? && AllScoped(env, src, env.base, Parse(env, src).value.0)
  {
    assert BuiltScoped(env, src, EMPTY);
    hide BuiltScoped, PlainMarkup, ClearFrom;
    RunScoped(env, src, EMPTY);
    NormalizeListScoped(env, src, env.base, Run(env, src, EMPTY).doc);
  }

  // ---- the maps of the open elements, against their attribute nodes ----

  /** The default map overridden by what the attribute nodes of the open elements declare. */
  function InNodes(base: NsMap, path: seq<Frame>): NsMap {
    if path == [] then base else InNodes(base, path[..|path| - 1]) + Declared(path[|path| - 1].attrs)
  }

  /** The map of the `i`-th open element is what the nodes say. */
  predicate AgreesAt(env: Env, st: State, i: nat)
    requires i < |st.stack| == |st.b.path|
  {
    st.stack[i].ns == InNodes(env.base, st.b.path[..i + 1])
  }

  ghost predicate NodesAgree(env: Env, st: State, k: nat)
    requires k <= |st.stack| == |st.b.path|
  {
    forall i :: 0 <= i < k ==> AgreesAt(env, st, i)
  }

  ghost predicate ClearUpTo(st: State, k: nat)
    requires k <= |st.stack|
  {
    forall i :: 0 <= i < k ==> Unambiguous(st.stack[i].raw)
  }

  /** However often a prefix is declared, both readings know it. */
  lemma SameKeys(ns: NsMap, raw: seq<RawAttr>)
    requires Named(raw)
    ensures Declarations(raw).Keys == Declared(SetAll(ns, [], raw)).Keys
  {
    hide Declarations, Declared, SetAll, DeclarationName, FirstValue, LastValue;
    var map1, map2 := Declarations(raw), Declared(SetAll(ns, [], raw));
    forall prefix: string ensures prefix in map1 <==> prefix in map2 {
      DeclarationsAre(raw, prefix);
      DeclaredValue(ns, raw, prefix);
      ValuesOf(raw, DeclarationName(prefix));
    }
  }

  lemma SameOverride(a: NsMap, b: NsMap, c: NsMap)
    requires b.Keys == c.Keys
    ensures a + b == a + c <==> b == c
  {
    if a + b == a + c {
      forall p | p in b ensures b[p] == c[p] {
        assert (a + b)[p] == b[p] && (a + c)[p] == c[p];
      }
    }
  }

  /** The attributes of an open element have names that the scanner accepts. */
  lemma NamesOf(ent: Entities, src: string, name: string, raw: seq<RawAttr>)
    requires FromTag(ent, src, name, raw)
    ensures Named(raw)
  {
    var at: nat :| TagAt(ent, src, at, name, raw);
    assert Named([]);
    ScannedNames(ent, src, Begin(at));
  }

  lemma OneMore(env: Env, st: State, i: nat)
    requires i < |st.stack| == |st.b.path|
    ensures NodesAgree(env, st, i + 1) <==> NodesAgree(env, st, i) && AgreesAt(env, st, i)
    ensures ClearUpTo(st, i + 1) <==> ClearUpTo(st, i) && Unambiguous(st.stack[i].raw)
    ensures i > 0 && NodesAgree(env, st, i) ==> AgreesAt(env, st, i - 1)
  {
    hide AgreesAt, Unambiguous;
  }

  lemma {:induction false} AgreeUpTo(env: Env, src: string, st: State, k: nat)
    requires Scoped(env, src, st) && k <= |st.stack| == |st.b.path|
    ensures NodesAgree(env, st, k) <==> ClearUpTo(st, k)
    decreases k
  {
    hide Scoped, AgreesAt, Unambiguous;
    if k > 0 {
      AgreeUpTo(env, src, st, k - 1);
      LastOpen(env, src, st, k - 1);
      OneMore(env, st, k - 1);
    }
  }

  lemma EntryIs(env: Env, src: string, st: State, i: nat)
    requires Scoped(env, src, st) && i < |st.stack| == |st.b.path|
    ensures st.stack[i].declared == Declarations(st.stack[i].raw) && Named(st.stack[i].raw)
    ensures st.stack[i].ns == InScope(env.base, st.stack[..i]) + st.stack[i].declared
    ensures st.b.path[i].attrs == SetAll(st.stack[i].ns, [], st.stack[i].raw)
    ensures InScope(env.base, st.stack[..i]) == if i == 0 then env.base else st.stack[i - 1].ns
  {
    EntryHolds(env, src, st, i);
    ScopeStep(env.base, st.stack, i);
    hide InScope, Declarations, SetAll, ElementInScope, AttrsInScope, FromTag, Named, Scoped;
    NamesOf(env.entities, src, st.stack[i].name, st.stack[i].raw);
  }

  lemma ScopeStep(base: NsMap, open: seq<Open>, i: nat)
    requires i < |open|
    ensures InScope(base, open[..i + 1]) == InScope(base, open[..i]) + open[i].declared
    ensures i == 0 ==> InScope(base, open[..i]) == base
  {
    assert open[..i + 1][..i] == open[..i];
  }

  lemma EntryHolds(env: Env, src: string, st: State, i: nat)
    requires Scoped(env, src, st) && i < |st.stack| == |st.b.path|
    ensures FromTag(env.entities, src, st.stack[i].name, st.stack[i].raw)
    ensures EntryScoped(env.base, st.stack, st.b.path, i)
    ensures i > 0 ==> EntryScoped(env.base, st.stack, st.b.path, i - 1)
  {
    hide EntryScoped, FromTag;
  }

  lemma NodesStep(base: NsMap, path: seq<Frame>, i: nat)
    requires i < |path|
    ensures InNodes(base, path[..i + 1]) == InNodes(base, path[..i]) + Declared(path[i].attrs)
    ensures i == 0 ==> InNodes(base, path[..i]) == base
  {
    hide Declared;
    assert path[..i + 1][..i] == path[..i];
  }

  lemma LastOpen(env: Env, src: string, st: State, i: nat)
    requires Scoped(env, src, st) && i < |st.stack| == |st.b.path|
    ensures (i == 0 || AgreesAt(env, st, i - 1)) ==> (AgreesAt(env, st, i) <==> Unambiguous(st.stack[i].raw))
  {
    var entry := st.stack[i];
    EntryIs(env, src, st, i);
    hide Scoped, Named, Unambiguous, Declared, Declarations, SetAll, InScope, InNodes;
    SameKeys(entry.ns, entry.raw);
    DeclarationsAgree(entry.ns, entry.raw);
    NodesStep(env.base, st.b.path, i);
    SameOverride(InScope(env.base, st.stack[..i]), entry.declared, Declared(st.b.path[i].attrs));
  }

  /** After any number of passes over any source, the open elements hold the maps that their attribute nodes declare if
      and only if none of them repeats a declaration with another value. */
  lemma AlwaysAgree(env: Env, src: string, n: nat)
    requires After(env, src, n).More?
    ensures var st := After(env, src, n).st;
      |st.stack| == |st.b.path| && (NodesAgree(env, st, |st.stack|) <==> ClearUpTo(st, |st.stack|))
  {
    AlwaysScoped(env, src, n);
    AgreeUpTo(env, src, After(env, src, n).st, |After(env, src, n).st.stack|);
    hide NodesAgree, ClearUpTo, After;
  }

  // ---- documents of one element ----

  const XMLNS := "http://www.w3.org/2000/xmlns/"

  /** Any one tag, printed with any names and values: the element with its own declarations in scope. */
  lemma {:induction false} ParseAlone(env: Env, name: string, attrs: seq<Attr>)
    requires Predefined(env.entities) && IsQName(name)
    requires forall i :: 0 <= i < |attrs| ==> IsQName(attrs[i].name)
    ensures var ns := env.base + Declarations(Raw(attrs));
      Parse(env, PrintOpen(name, attrs, true))
        == Some(([Element(name, ElementUri(ns, name), SetAll(ns, [], Raw(attrs)), [])], 0))
  {
    var src, el := PrintOpen(name, attrs, true), StartTag(name, Raw(attrs), true);
    hide *;
    TagAlone(env, name, attrs);
    OpenedFirst(env, el);
    var ns := env.base + Declarations(Raw(attrs));
    RunAlone(env, src, el, Element(name, ElementUri(ns, name), SetAll(ns, [], Raw(attrs)), []));
    ParsedRun(env, src);
    NormalAlone(name, ElementUri(ns, name), SetAll(ns, [], Raw(attrs)));
  }

  lemma {:induction false} TagAlone(env: Env, name: string, attrs: seq<Attr>)
    requires Predefined(env.entities) && IsQName(name)
    requires forall i :: 0 <= i < |attrs| ==> IsQName(attrs[i].name)
    ensures var src, el := PrintOpen(name, attrs, true), StartTag(name, Raw(attrs), true);
      |src| > 1 && src[0] == '<' && ReadTag(env, src, 0, EMPTY) == (OpenElement(env, EMPTY, el), |src|)
  {
    var src, el := PrintOpen(name, attrs, true), StartTag(name, Raw(attrs), true);
    AtSelf(src);
    FirstChars(name, attrs);
    hide *;
    ScanOpen(env.entities, src, 0, name, attrs, true);
    OnlyTag(env, src, el);
  }

  lemma {:induction false} RunAlone(env: Env, src: string, el: StartTag, t: Node)
    requires |src| > 1 && src[0] == '<' && ReadTag(env, src, 0, EMPTY) == (OpenElement(env, EMPTY, el), |src|)
    requires OpenElement(env, EMPTY, el) == EMPTY.(b := Builder([t], [], true))
    ensures Run(env, src, EMPTY) == Done([t], 0)
  {
    hide Run, OpenElement, ReadTag;
    var st := OpenElement(env, EMPTY, el);
    TagRun(env, src, EMPTY, st, |src|);
    AtEnd(env, src, st.(start := |src|));
  }

  lemma ParsedRun(env: Env, src: string)
    requires src != []
    ensures Parse(env, src) == Some((NormalizeList(Run(env, src, EMPTY).doc), Run(env, src, EMPTY).reports))
  {
    hide Run;
  }

  lemma NormalAlone(name: string, uri: Option<string>, attrs: seq<Attr>)
    ensures NormalizeList([Element(name, uri, attrs, [])]) == [Element(name, uri, attrs, [])]
  {
  }

  lemma AtSelf(s: string)
    ensures At(s, 0, s)
  {
  }

  lemma FirstChars(name: string, attrs: seq<Attr>)
    requires IsQName(name)
    ensures var src := PrintOpen(name, attrs, true);
      |src| > 1 && src[0] == '<' && src[1] !in {'/', '?', '!'}
  {
    var src := PrintOpen(name, attrs, true);
    assert src[1] == name[0];
    if !IsNcName(name) {
      var k :| 0 <= k < |name| && name[k] == ':' && IsNcName(name[..k]) && IsNcName(name[k + 1..]);
      assert name[..k][0] == name[0];
    }
  }

  lemma OnlyTag(env: Env, src: string, el: StartTag)
    requires |src| > 1 && src[1] !in {'/', '?', '!'}
    requires ScanFrom(env.entities, src, Begin(0)) == Scanned(el, |src| - 1, 0) && el.closed
    ensures ReadTag(env, src, 0, EMPTY) == (OpenElement(env, EMPTY, el), |src|)
  {
    hide ScanFrom, OpenElement;
    assert Reported(EMPTY, 0) == EMPTY;
  }

  lemma AtEnd(env: Env, src: string, st: State)
    requires st.start == |src| && st.b.path == [] && st.reports == 0
    ensures Run(env, src, st) == Done(st.b.doc, 0)
  {
    assert src[|src|..] == "";
    assert IndexOf(src, "<", |src|) == -1;
    assert st.b.doc + [] == st.b.doc;
  }

  lemma OpenedFirst(env: Env, el: StartTag)
    requires el.closed
    ensures var ns := env.base + Declarations(el.attrs);
      OpenElement(env, EMPTY, el)
        == EMPTY.(b := Builder([Element(el.name, ElementUri(ns, el.name), SetAll(ns, [], el.attrs), [])], [], true))
  {
    hide Declarations, SetAll, ElementUri;
    var ns := env.base + Declarations(el.attrs);
    var frame := Frame(el.name, ElementUri(ns, el.name), SetAll(ns, [], el.attrs), []);
    assert StartElement(EMPTY.b, frame.name, frame.uri, frame.attrs) == Builder([], [frame], true);
    assert [frame][..0] == [];
  }

  lemma PrintedAttr(name: string, c: char)
    requires c !in {'<', '&', '"'}
    ensures PrintAttr(Attr(name, None, [c])) == " " + name + "=\"" + [c] + "\""
  {
    assert RefName(c, true) == "";
    assert [c][1..] == [];
    assert Escape([c], true) == [c] + Escape([], true) == [c];
    hide Escape;
    assert " " + (name + ("=\"" + ([c] + "\""))) == " " + name + "=\"" + [c] + "\"";
  }

  // ---- a default namespace ----

  const DEFAULTED := "<a xmlns=\"u\" x=\"1\"/>"

  /** The default namespace is that of the element, and not that of its attribute without a prefix. */
  lemma {:induction false} DefaultInDocument(env: Env)
    requires Predefined(env.entities)
    ensures Parse(env, DEFAULTED)
      == Some(([Element("a", Some("u"), [Attr("xmlns", Some(XMLNS), "u"), Attr("x", None, "1")], [])], 0))
  {
    var attrs := [Attr("xmlns", None, "u"), Attr("x", None, "1")];
    DefaultPrinted(attrs);
    PlainNames();
    hide IsQName, PrintOpen;
    ParseAlone(env, "a", attrs);
    assert Raw(attrs) == [RawAttr("xmlns", "u"), RawAttr("x", "1")];
    var ns := env.base + Declarations(Raw(attrs));
    hide ElementUri, SetAll, Declarations, Raw;
    DefaultDeclared(env.base, Raw(attrs));
    DefaultSet(ns, Raw(attrs));
  }

  lemma PlainNames()
    ensures IsQName("a") && IsQName("x") && IsQName("xmlns")
  {
    assert IsNcName("a") && IsNcName("x") && IsNcName("xmlns");
  }

  lemma DefaultPrinted(attrs: seq<Attr>)
    requires attrs == [Attr("xmlns", None, "u"), Attr("x", None, "1")]
    ensures PrintOpen("a", attrs, true) == DEFAULTED
  {
    PrintedAttr("xmlns", 'u');
    PrintedAttr("x", '1');
    hide PrintAttr;
    assert attrs[1..] == [attrs[1]] && attrs[1..][1..] == [];
    var first, second := " xmlns=\"u\"", " x=\"1\"";
    assert PrintAttrs(attrs[1..]) == second + "" == second;
    assert PrintAttrs(attrs) == first + second;
    GluedDefault();
  }

  lemma GluedDefault()
    ensures "<" + ("a" + ((" xmlns=\"u\"" + " x=\"1\"") + "/>")) == DEFAULTED
  {
  }

  lemma DefaultDeclared(base: NsMap, raw: seq<RawAttr>)
    requires raw == [RawAttr("xmlns", "u"), RawAttr("x", "1")]
    ensures ElementUri(base + Declarations(raw), "a") == Some("u")
  {
    PlainNames();
    PrefixIs("a");
    assert DeclarationName("") == "xmlns";
    hide Declarations, IsQName, Prefix;
    DeclarationsAre(raw, "");
    assert Lookup(Declarations(raw), "") == Some("u");
  }

  lemma DefaultSet(ns: NsMap, raw: seq<RawAttr>)
    requires raw == [RawAttr("xmlns", "u"), RawAttr("x", "1")]
    ensures SetAll(ns, [], raw) == [Attr("xmlns", Some(XMLNS), "u"), Attr("x", None, "1")]
  {
    AttrUriIs(ns, "xmlns");
    AttrUriIs(ns, "x");
    assert AttrUri(ns, "xmlns") == Some(XMLNS);
    assert !IsDeclaration("x") && AttrUri(ns, "x") == None;
    hide AttrUri;
    var first, second := Attr("xmlns", Some(XMLNS), "u"), Attr("x", None, "1");
    assert raw[1..] == [RawAttr("x", "1")] && raw[1..][1..] == [];
    assert SetNamedItem([], first) == [first] && SetNamedItem([first][1..], second) == [second];
    assert SetNamedItem([first], second) == [first] + [second];
    hide SetNamedItem;
    assert SetAll(ns, [], raw) == SetAll(ns, [first], raw[1..]);
    assert SetAll(ns, [first], raw[1..]) == SetAll(ns, [first, second], raw[1..][1..]);
  }

  // ---- a document where they do not agree ----

  const REPEATED := "<p:a xmlns:p=\"1\" xmlns:p=\"2\"/>"

  /** The element is put into the namespace of the first declaration, and its attribute node has the second. */
  lemma RepeatedInDocument(env: Env)
    requires Predefined(env.entities)
    ensures var t := Element("p:a", Some("1"), [Attr("xmlns:p", Some(XMLNS), "2")], []);
      Parse(env, REPEATED) == Some(([t], 0)) && !AllScoped(env, REPEATED, env.base, [t])
  {
    var t := Element("p:a", Some("1"), [Attr("xmlns:p", Some(XMLNS), "2")], []);
    RepeatedParsed(env);
    NotScoped(env, t.attrs);
    assert !TreeScoped(env, REPEATED, env.base, [t][0]);
  }

  lemma {:induction false} RepeatedParsed(env: Env)
    requires Predefined(env.entities)
    ensures Parse(env, REPEATED) == Some(([Element("p:a", Some("1"), [Attr("xmlns:p", Some(XMLNS), "2")], [])], 0))
  {
    var attrs := [Attr("xmlns:p", None, "1"), Attr("xmlns:p", None, "2")];
    PrefixedName();
    ElementName();
    RepeatedPrinted(attrs);
    hide IsQName, PrintOpen;
    ParseAlone(env, "p:a", attrs);
    assert Raw(attrs) == [RawAttr("xmlns:p", "1"), RawAttr("xmlns:p", "2")];
    hide ElementUri, SetAll, Declarations, Raw;
    FirstDeclared(env.base, Raw(attrs));
    SecondSet(env.base + Declarations(Raw(attrs)), Raw(attrs));
  }

  lemma NotScoped(env: Env, attrs: seq<Attr>)
    requires attrs == [Attr("xmlns:p", Some(XMLNS), "2")]
    ensures !TreeScoped(env, REPEATED, env.base, Element("p:a", Some("1"), attrs, []))
  {
    SecondDeclared(attrs);
    hide Declared, AttrsScoped, Tagged;
    assert PrefixEnds("p:a", 1) && "p:a"[..1] == "p";
    assert !StandsFor(env.base + Declared(attrs), "p:a"[..1], Some("1"));
  }

  lemma SecondDeclared(attrs: seq<Attr>)
    requires attrs == [Attr("xmlns:p", Some(XMLNS), "2")]
    ensures Lookup(Declared(attrs), "p") == Some("2")
  {
    PrefixedName();
    assert Raw(attrs) == [RawAttr("xmlns:p", "2")];
    assert DeclarationName("p") == "xmlns:p";
    hide Declarations, IsQName;
    DeclarationsAre(Raw(attrs), "p");
  }

  lemma ElementName()
    ensures IsQName("p:a")
  {
    var s := "p:a";
    assert s[1] == ':' && s[..1] == "p" && s[2..] == "a";
    assert IsNcName("p") && IsNcName("a");
  }

  lemma RepeatedPrinted(attrs: seq<Attr>)
    requires attrs == [Attr("xmlns:p", None, "1"), Attr("xmlns:p", None, "2")]
    ensures PrintOpen("p:a", attrs, true) == REPEATED
  {
    PrintedAttr("xmlns:p", '1');
    PrintedAttr("xmlns:p", '2');
    hide PrintAttr;
    assert attrs[1..] == [attrs[1]] && attrs[1..][1..] == [];
    var first, second := " xmlns:p=\"1\"", " xmlns:p=\"2\"";
    assert PrintAttrs(attrs[1..]) == second + "" == second;
    assert PrintAttrs(attrs) == first + second;
    Glued();
  }

  lemma Glued()
    ensures "<" + ("p:a" + ((" xmlns:p=\"1\"" + " xmlns:p=\"2\"") + "/>")) == REPEATED
  {
  }

  lemma FirstDeclared(base: NsMap, raw: seq<RawAttr>)
    requires raw == [RawAttr("xmlns:p", "1"), RawAttr("xmlns:p", "2")]
    ensures ElementUri(base + Declarations(raw), "p:a") == Some("1")
  {
    PrefixIs("p:a");
    assert PrefixEnds("p:a", 1) && "p:a"[..1] == "p";
    PrefixedName();
    assert DeclarationName("p") == "xmlns:p";
    hide Declarations, IsQName, Prefix;
    DeclarationsAre(raw, "p");
    assert Lookup(Declarations(raw), "p") == Some("1");
  }

  lemma SecondSet(ns: NsMap, raw: seq<RawAttr>)
    requires raw == [RawAttr("xmlns:p", "1"), RawAttr("xmlns:p", "2")]
    ensures SetAll(ns, [], raw) == [Attr("xmlns:p", Some(XMLNS), "2")]
  {
    assert DeclarationName("p") == "xmlns:p";
    DeclaresIs("xmlns:p", "p");
    hide Declares;
    assert AttrUri(ns, "xmlns:p") == Some(XMLNS);
    hide AttrUri;
    var first, second := Attr("xmlns:p", Some(XMLNS), "1"), Attr("xmlns:p", Some(XMLNS), "2");
    assert raw[1..] == [RawAttr("xmlns:p", "2")] && raw[1..][1..] == [];
    assert SetNamedItem([], first) == [first] && SetNamedItem([first], second) == [second];
    hide SetNamedItem;
    assert SetAll(ns, [], raw) == SetAll(ns, [first], raw[1..]);
    assert SetAll(ns, [first], raw[1..]) == SetAll(ns, [second], raw[1..][1..]);
  }
}
