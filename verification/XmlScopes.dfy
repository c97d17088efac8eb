/** Namespace scoping: the maps that open elements hold, and that no declaration leaks out of its element. */
module XmlScopes {
  import opened Common
  import opened XmlText
  import opened XmlTree
  import opened XmlScanner
  import opened XmlParser

  // ---- the namespace of a name (Namespaces in XML 1.0, section 6) ----

  /** `uri` is what the map has for a prefix. */
  predicate StandsFor(ns: NsMap, prefix: string, uri: Option<string>) {
    if prefix in ns then uri == Some(ns[prefix]) else uri == None
  }

  /** The name has a prefix of `k` characters. */
  predicate PrefixEnds(name: string, k: nat) {
    0 < k < |name| && name[k] == ':' && ':' !in name[..k]
  }

  /** An element with a prefix has the namespace of the prefix, one without a prefix the default namespace. */
  predicate ElementInScope(ns: NsMap, name: string, uri: Option<string>) {
    (forall k :: 0 < k < |name| && PrefixEnds(name, k) ==> StandsFor(ns, name[..k], uri))
    && (':' !in name || name[0] == ':' ==> StandsFor(ns, "", uri))
  }

  /** The attribute declares a namespace. */
  predicate IsDeclaration(name: string) {
    name == "xmlns" || (|name| > 5 && name[..6] == "xmlns:")
  }

  /** A declaration is in the namespace of declarations, an attribute with another prefix in that of the prefix, and the
      default namespace does not reach attributes. */
  predicate AttrInScope(ns: NsMap, name: string, uri: Option<string>) {
    if IsDeclaration(name) then uri == Some("http://www.w3.org/2000/xmlns/")
    else
      (forall k :: 0 < k < |name| && PrefixEnds(name, k) ==> StandsFor(ns, name[..k], uri))
      && (':' !in name || name[0] == ':' ==> uri == None)
  }

  predicate AttrsInScope(ns: NsMap, attrs: seq<Attr>) {
    forall i :: 0 <= i < |attrs| ==> AttrInScope(ns, attrs[i].name, attrs[i].uri)
  }

  lemma PrefixIs(name: string)
    ensures forall k: nat :: PrefixEnds(name, k) ==> Prefix(name) == Some(name[..k])
    ensures Prefix(name).None? <==> ':' !in name || name[0] == ':'
  {
    forall k: nat ensures At(name, k, ":") <==> k < |name| && name[k] == ':' {
      AtOne(name, k, ':');
    }
    var at := IndexOf(name, ":", 0);
    forall k: nat | k < |name| && name[k] == ':' ensures at != -1 && at <= k {
      assert At(name, k, ":");
    }
    forall k: nat | PrefixEnds(name, k) ensures at == k {
      assert forall j :: 0 <= j < k ==> name[j] == name[..k][j];
    }
  }

  lemma ElementUriIs(ns: NsMap, name: string)
    ensures ElementInScope(ns, name, ElementUri(ns, name))
  {
    PrefixIs(name);
    hide Prefix, PrefixEnds;
  }

  lemma DeclarationIs(name: string)
    ensures IsDeclaration(name) <==> Declares(name).Some?
  {
    PrefixIs(name);
    if |name| > 5 && name[..6] == "xmlns:" {
      assert name[..5] == name[..6][..5] == "xmlns" && name[5] == name[..6][5];
      assert PrefixEnds(name, 5);
    }
    if Prefix(name) == Some("xmlns") {
      var k := IndexOf(name, ":", 0);
      AtOne(name, k, ':');
      assert k == |name[..k]| == 5;
      assert name[..6] == name[..5] + [name[5]];
    }
  }

  lemma AttrUriIs(ns: NsMap, name: string)
    ensures AttrInScope(ns, name, AttrUri(ns, name))
  {
    PrefixIs(name);
    DeclarationIs(name);
    hide Prefix, PrefixEnds, Declares, IsDeclaration;
  }

  lemma {:induction false} SetInScope(ns: NsMap, attrs: seq<Attr>, a: Attr)
    requires AttrsInScope(ns, attrs) && AttrInScope(ns, a.name, a.uri)
    ensures AttrsInScope(ns, SetNamedItem(attrs, a))
  {
    hide AttrInScope;
    if attrs != [] && attrs[0].name != a.name {
      SetInScope(ns, attrs[1..], a);
    }
  }

  lemma {:induction false} SetAllInScope(ns: NsMap, done: seq<Attr>, raw: seq<RawAttr>)
    requires AttrsInScope(ns, done)
    ensures AttrsInScope(ns, SetAll(ns, done, raw))
    decreases |raw|
  {
    hide AttrsInScope, AttrUri, AttrInScope;
    if raw != [] {
      var a := Attr(raw[0].name, AttrUri(ns, raw[0].name), raw[0].value);
      AttrUriIs(ns, raw[0].name);
      SetInScope(ns, done, a);
      SetAllInScope(ns, SetNamedItem(done, a), raw[1..]);
    }
  }

  // ---- the open elements ----

  /** The default map overridden by the declarations of the open elements, outermost first. */
  function InScope(base: NsMap, open: seq<Open>): NsMap {
    if open == [] then base else InScope(base, open[..|open| - 1]) + open[|open| - 1].declared
  }

  /** The `i`-th open element: what it declares is what its attributes declare, its map overrides everything declared
      around it in order, and its node and attribute nodes have the namespaces that their prefixes have there. */
  ghost predicate EntryScoped(base: NsMap, stack: seq<Open>, path: seq<Frame>, i: nat)
    requires i < |stack| == |path|
  {
    stack[i].declared == Declarations(stack[i].raw)
    && stack[i].ns == InScope(base, stack[..i + 1])
    && path[i].attrs == SetAll(stack[i].ns, [], stack[i].raw)
    && path[i].name == stack[i].name
    && ElementInScope(stack[i].ns, stack[i].name, path[i].uri)
    && AttrsInScope(stack[i].ns, path[i].attrs)
  }

  /** The start tag at `at` has this name and these attributes. */
  predicate TagAt(ent: Entities, src: string, at: nat, name: string, raw: seq<RawAttr>) {
    at < |src| && src[at] == '<'
    && match ScanFrom(ent, src, Begin(at))
       case Scanned(el, _, _) => el.name == name && el.attrs == raw
       case Thrown(_) => false
  }

  /** Some start tag of the source has this name and these attributes. */
  ghost predicate FromTag(ent: Entities, src: string, name: string, raw: seq<RawAttr>) {
    exists at: nat :: TagAt(ent, src, at, name, raw)
  }

  /** The parse stack and the tree under construction hold the same open elements, each from a start tag of the source,
      with the name and the attributes that the tag has, and each with its scope. */
  ghost predicate Scoped(env: Env, src: string, st: State) {
    |st.stack| == |st.b.path|
    && forall i :: 0 <= i < |st.stack| ==>
         FromTag(env.entities, src, st.stack[i].name, st.stack[i].raw) && EntryScoped(env.base, st.stack, st.b.path, i)
  }

  /** The state after `n` passes over `src`. */
  function After(env: Env, src: string, n: nat): Outcome {
    if n == 0 then More(EMPTY)
    else match After(env, src, n - 1)
      case More(st) => Pass(env, src, st)
      case Done(doc, reports) => Done(doc, reports)
  }

  /** Scoping holds after any number of passes over any source, malformed ones included. */
  lemma {:induction false} AlwaysScoped(env: Env, src: string, n: nat)
    ensures After(env, src, n).More? ==> Scoped(env, src, After(env, src, n).st)
  {
    hide Pass, Scoped;
    if n == 0 {
      NothingOpen(env, src);
    } else {
      AlwaysScoped(env, src, n - 1);
      if After(env, src, n - 1).More? && After(env, src, n).More? {
        PassKeepsScopes(env, src, After(env, src, n - 1).st);
      }
    }
  }

  lemma NothingOpen(env: Env, src: string)
    ensures Scoped(env, src, EMPTY)
  {
  }

  lemma PassKeepsScopes(env: Env, src: string, st: State)
    requires Scoped(env, src, st) && Pass(env, src, st).More?
    ensures Scoped(env, src, Pass(env, src, st).st)
  {
    hide Scoped, PassAt, AppendText;
    var at := IndexOf(src, "<", st.start);
    AtOne(src, at, '<');
    TextKeepsScopes(env, src, st, at);
    PassAtKeepsScopes(env, src, at, AppendText(env, src, st, at));
  }

  lemma TextKeepsScopes(env: Env, src: string, st: State, end: nat)
    requires Scoped(env, src, st) && end <= |src|
    ensures Scoped(env, src, AppendText(env, src, st, end))
  {
    hide Scoped, Unescape, UnknownRefs;
    SameOpen(env, src, st, AppendText(env, src, st, end));
  }

  lemma PassAtKeepsScopes(env: Env, src: string, at: nat, st: State)
    requires Scoped(env, src, st) && at < |src| && st.start == at && src[at] == '<'
    ensures Scoped(env, src, PassAt(env, src, at, st))
  {
    hide Scoped, ReadTag, AppendText;
    TagKeepsScopes(env, src, at, st);
    var (next, end) := ReadTag(env, src, at, st);
    if end > at {
      SameOpen(env, src, next, next.(start := end));
    } else {
      SameOpen(env, src, next, next.(start := at));
      TextKeepsScopes(env, src, next.(start := at), at + 1);
    }
  }

  /** Adding children, moving on and reporting leave the open elements alone. */
  lemma SameOpen(env: Env, src: string, st: State, st1: State)
    requires Scoped(env, src, st) && st1.stack == st.stack && |st1.b.path| == |st.b.path|
    requires forall i :: 0 <= i < |st.b.path| ==>
      st1.b.path[i].name == st.b.path[i].name && st1.b.path[i].uri == st.b.path[i].uri
      && st1.b.path[i].attrs == st.b.path[i].attrs
    ensures Scoped(env, src, st1)
  {
    forall i | 0 <= i < |st.stack| ensures EntryScoped(env.base, st1.stack, st1.b.path, i) {
      assert EntryScoped(env.base, st.stack, st.b.path, i);
    }
  }

  lemma TagKeepsScopes(env: Env, src: string, at: nat, st: State)
    requires Scoped(env, src, st) && at < |src| && src[at] == '<'
    ensures Scoped(env, src, ReadTag(env, src, at, st).0)
  {
    hide Scoped, ReadStartTag, ReadEndTag, At;
    if at + 1 < |src| && src[at + 1] == '/' {
      EndTagKeepsScopes(env, src, at, st);
    } else if at + 1 < |src| && (src[at + 1] == '?' || src[at + 1] == '!') {
      SameOpen(env, src, st, ReadTag(env, src, at, st).0);
    } else {
      StartTagKeepsScopes(env, src, at, st);
    }
  }

  lemma EndTagKeepsScopes(env: Env, src: string, at: nat, st: State)
    requires Scoped(env, src, st) && at + 2 <= |src|
    ensures Scoped(env, src, ReadEndTag(env, src, at, st).0)
  {
    hide EndTagName, Scoped, EndElement;
    var (name, end, errors) := EndTagName(src, at);
    SameOpen(env, src, st, Reported(st, errors));
    if st.stack != [] {
      LeaveKeepsScopes(env, src, st, Reported(st, errors));
      LeaveKeepsScopes(env, src, st, Reported(st, errors + 2));
    }
  }

  lemma LeaveKeepsScopes(env: Env, src: string, st: State, st1: State)
    requires Scoped(env, src, st) && st.stack != []
    ensures Scoped(env, src, st1.(stack := st.stack[..|st.stack| - 1], b := EndElement(st.b)))
  {
    hide Declarations, SetAll, ElementInScope, AttrsInScope;
    var n := |st.stack| - 1;
    var b := EndElement(st.b);
    forall i: nat | i < n ensures EntryScoped(env.base, st.stack[..n], b.path, i) {
      assert EntryScoped(env.base, st.stack, st.b.path, i);
      assert st.stack[..n][..i + 1] == st.stack[..i + 1];
    }
  }

  lemma TagFound(ent: Entities, src: string, at: nat, name: string, raw: seq<RawAttr>)
    requires TagAt(ent, src, at, name, raw)
    ensures FromTag(ent, src, name, raw)
  {
  }

  lemma StartTagKeepsScopes(env: Env, src: string, at: nat, st: State)
    requires Scoped(env, src, st) && at < |src| && src[at] == '<'
    ensures Scoped(env, src, ReadStartTag(env, src, at, st).0)
  {
    hide Scoped, ScanFrom, OpenElement, FixSelfClosed, FromTag;
    match ScanFrom(env.entities, src, Begin(at)) {
      case Thrown(reports) => SameOpen(env, src, st, Reported(st, reports + 1));
      case Scanned(el, end, reports) =>
        TagFound(env.entities, src, at, el.name, el.attrs);
        var (unclosed, closeAt) := FixSelfClosed(src, end, el.name, st.closeAt);
        var st1 := Reported(st, reports);
        var st2 := st1.(closeAt := closeAt);
        SameOpen(env, src, st, st1);
        SameOpen(env, src, st, st2);
        SameOpen(env, src, st, Reported(st2, 1));
        OpenKeepsScopes(env, src, st1, el);
        OpenKeepsScopes(env, src, st2, el);
        OpenKeepsScopes(env, src, Reported(st2, 1), el.(closed := true));
    }
  }

  /** A start tag opens its own element, with its own attributes, or none if it is closed. */
  lemma OpenKeepsScopes(env: Env, src: string, st: State, el: StartTag)
    requires Scoped(env, src, st) && FromTag(env.entities, src, el.name, el.attrs)
    ensures Scoped(env, src, OpenElement(env, st, el))
    ensures var stack := OpenElement(env, st, el).stack;
      if el.closed then stack == st.stack
      else |stack| == |st.stack| + 1 && stack[..|st.stack|] == st.stack
           && stack[|st.stack|].name == el.name && stack[|st.stack|].raw == el.attrs
  {
    hide Declarations, SetAll, ElementUri, ElementInScope, AttrsInScope, Scoped, FromTag;
    var declared := Declarations(el.attrs);
    var ns := Scope(env, st) + declared;
    var b := StartElement(st.b, el.name, ElementUri(ns, el.name), SetAll(ns, [], el.attrs));
    if el.closed {
      assert |b.path| == |st.b.path| + 1 && b.path[..|b.path| - 1] == st.b.path;
      SameOpen(env, src, st, st.(b := EndElement(b)));
    } else {
      ElementUriIs(ns, el.name);
      NoAttrInScope(ns);
      SetAllInScope(ns, [], el.attrs);
      EnterKeepsScopes(env, src, st, Open(el.name, el.attrs, ns, declared), b);
    }
  }

  lemma NoAttrInScope(ns: NsMap)
    ensures AttrsInScope(ns, [])
  {
  }

  /** The node of an entry of the stack. */
  predicate FrameOf(entry: Open, frame: Frame) {
    entry.declared == Declarations(entry.raw)
    && frame.name == entry.name && ElementInScope(entry.ns, entry.name, frame.uri)
    && frame.attrs == SetAll(entry.ns, [], entry.raw) && AttrsInScope(entry.ns, frame.attrs)
  }

  lemma EnterKeepsScopes(env: Env, src: string, st: State, entry: Open, b: Builder)
    requires Scoped(env, src, st) && entry.ns == Scope(env, st) + Declarations(entry.raw)
    requires |b.path| == |st.b.path| + 1 && b.path[..|st.b.path|] == st.b.path
    requires FromTag(env.entities, src, entry.name, entry.raw)
    requires FrameOf(entry, b.path[|st.b.path|])
    ensures Scoped(env, src, st.(b := b, stack := st.stack + [entry]))
  {
    hide EntryScoped, FrameOf, FromTag, Scope, Declarations;
    NewestScoped(env, src, st, entry, b);
    forall i: nat | i < |st.stack| ensures EntryScoped(env.base, st.stack + [entry], b.path, i) {
      PathKept(st.b.path, b.path, i);
      StillScoped(env.base, st.stack, entry, st.b.path, b.path, i);
    }
    StackGrown(env, src, st.stack, entry);
  }

  lemma PathKept(path: seq<Frame>, path1: seq<Frame>, i: nat)
    requires i < |path| < |path1| && path1[..|path|] == path
    ensures path1[i] == path[i]
  {
    assert path1[i] == path1[..|path|][i];
  }

  lemma StackGrown(env: Env, src: string, stack: seq<Open>, entry: Open)
    requires FromTag(env.entities, src, entry.name, entry.raw)
    requires forall i :: 0 <= i < |stack| ==> FromTag(env.entities, src, stack[i].name, stack[i].raw)
    ensures forall i :: 0 <= i < |stack + [entry]| ==>
      FromTag(env.entities, src, (stack + [entry])[i].name, (stack + [entry])[i].raw)
  {
    hide FromTag;
  }

  /** What is opened inside an element leaves it as it was. */
  lemma StillScoped(base: NsMap, stack: seq<Open>, entry: Open, path: seq<Frame>, path1: seq<Frame>, i: nat)
    requires i < |stack| == |path| && |path1| == |path| + 1 && path1[i] == path[i]
    requires EntryScoped(base, stack, path, i)
    ensures EntryScoped(base, stack + [entry], path1, i)
  {
    assert (stack + [entry])[..i + 1] == stack[..i + 1];
    hide InScope, SetAll, Declarations, ElementInScope, AttrsInScope;
  }

  lemma NewestScoped(env: Env, src: string, st: State, entry: Open, b: Builder)
    requires Scoped(env, src, st) && entry.ns == Scope(env, st) + Declarations(entry.raw)
    requires |b.path| == |st.b.path| + 1
    requires FrameOf(entry, b.path[|st.b.path|])
    ensures EntryScoped(env.base, st.stack + [entry], b.path, |st.stack|)
  {
    ScopeIs(env, src, st);
    ScopeGrown(env.base, st.stack, entry);
    hide ElementInScope, AttrsInScope, Declarations, SetAll, Scoped, Scope, InScope, FromTag;
    assert st.stack + [entry] == (st.stack + [entry])[..|st.stack| + 1];
  }

  lemma ScopeIs(env: Env, src: string, st: State)
    requires Scoped(env, src, st)
    ensures Scope(env, st) == InScope(env.base, st.stack)
  {
    hide ElementInScope, AttrsInScope, Declarations, SetAll, FromTag, InScope;
    var n := |st.stack|;
    if n > 0 {
      assert EntryScoped(env.base, st.stack, st.b.path, n - 1) && st.stack[..n] == st.stack;
    } else {
      NoneInScope(env.base);
    }
  }

  lemma NoneInScope(base: NsMap)
    ensures InScope(base, []) == base
  {
  }

  lemma ScopeGrown(base: NsMap, stack: seq<Open>, entry: Open)
    ensures InScope(base, stack + [entry]) == InScope(base, stack) + entry.declared
  {
    assert (stack + [entry])[..|stack|] == stack;
  }

  // ---- the maps as shared objects ----

  class MapObject {
    var m: NsMap

    constructor (m: NsMap)
      ensures this.m == m
    {
      this.m := m;
    }
  }

  lemma DeclarationsFrom(attrs: seq<RawAttr>, i: nat)
    requires i < |attrs|
    ensures var rest := Declarations(attrs[i + 1..]);
      Declarations(attrs[i..])
        == match Declares(attrs[i].name) case Some(prefix) => rest[prefix := attrs[i].value] case None => rest
  {
    assert attrs[i..][1..] == attrs[i + 1..];
  }

  /** The loop over the attributes in the sax module's `appendElement`. The map handed in is copied at the first
      declaration found, so it is never written to, and it is handed on as it is when nothing is declared. */
  method DeclareNamespaces(attrs: seq<RawAttr>, current: MapObject) returns (ns: MapObject, declared: NsMap)
    ensures declared == Declarations(attrs)
    ensures ns.m == current.m + declared
    ensures ns == current || fresh(ns)
    ensures ns == current <==> declared == map[]
  {
    ns, declared := current, map[];
    assert Declarations(attrs[|attrs|..]) == map[] && attrs[0..] == attrs;
    hide Declarations, Declares;
    var i := |attrs|;
    while i > 0
      invariant 0 <= i <= |attrs|
      invariant declared == Declarations(attrs[i..])
      invariant ns.m == current.m + declared
      invariant ns == current || fresh(ns)
      invariant ns == current <==> declared == map[]
    {
      i := i - 1;
      DeclarationsFrom(attrs, i);
      match Declares(attrs[i].name) {
        case None =>
        case Some(prefix) =>
          if ns == current {
            ns := new MapObject(current.m);
          }
          ns.m := ns.m[prefix := attrs[i].value];
          declared := declared[prefix := attrs[i].value];
          assert prefix in declared;
      }
    }
  }
}
