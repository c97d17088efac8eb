/** Parsing undoes printing. */
module XmlRoundTrip {
  import opened Common
  import opened XmlText
  import opened XmlTree
  import opened XmlScanner
  import opened XmlParser

  /** Every remembered closing position is the last one in the source. */
  ghost predicate CloseSound(src: string, closeAt: map<string, int>) {
    forall name :: name in closeAt ==> closeAt[name] == LastIndexOf(src, EndTag(name))
  }

  /** The state is one that printed text leads to: no default namespace, sound closing positions. */
  ghost predicate Ready(env: Env, src: string, st: State) {
    Predefined(env.entities) && CloseSound(src, st.closeAt) && "" !in Scope(env, st)
  }

  /** The state after the parser has read `n` characters and added `ts` to the current element. */
  function Grown(st: State, n: nat, ts: seq<Node>): State {
    st.(start := st.start + n, b := AppendAll(st.b, ts))
  }

  lemma GrownTwice(st: State, m: nat, n: nat, ss: seq<Node>, ts: seq<Node>)
    ensures Grown(Grown(st, m, ss), n, ts) == Grown(st, m + n, ss + ts)
  {
    if st.b.path == [] {
      Associate(st.b.doc, ss, ts);
    } else {
      Associate(st.b.path[|st.b.path| - 1].kids, ss, ts);
    }
  }

  lemma GrownNone(st: State)
    ensures Grown(st, 0, []) == st
  {
    if st.b.path != [] {
      var top := st.b.path[|st.b.path| - 1];
      assert top.kids + [] == top.kids;
      assert st.b.path[..|st.b.path| - 1] + [top] == st.b.path;
    } else {
      assert st.b.doc + [] == st.b.doc;
    }
  }

  // ---- one pass per printed piece ----

  /** At a `<` the pass reads a tag. */
  lemma AtTag(env: Env, src: string, st: State)
    requires st.start < |src| && src[st.start] == '<'
    ensures Pass(env, src, st) == More(PassAt(env, src, st.start, st))
  {
    AtOne(src, st.start, '<');
    IndexOfIs(src, "<", st.start, st.start);
  }

  /** Two states whose next pass is the same run on alike. */
  lemma SamePass(env: Env, src: string, st: State, st1: State)
    requires Pass(env, src, st) == Pass(env, src, st1)
    ensures Run(env, src, st) == Run(env, src, st1)
  {
    hide Pass;
  }

  /** Printed text becomes one text node with the characters that were printed. */
  lemma TextRun(env: Env, src: string, st: State, data: string)
    requires Predefined(env.entities) && st.b.rootSeen && data != []
    requires At(src, st.start, Escape(data, false) + "<")
    ensures Run(env, src, st) == Run(env, src, Grown(st, |Escape(data, false)|, [Text(data)]))
  {
    hide Run, PassAt, Unescape, UnknownRefs, Escape, IndexOf;
    var raw := Escape(data, false);
    var q := st.start + |raw|;
    AtSplit(src, st.start, raw, "<");
    AtOne(src, q, '<');
    FirstOf(src, st.start, raw, '<');
    UnescapeEscape(env.entities, data, false);
    assert src[st.start..q] == raw;
    var st1 := Grown(st, |raw|, [Text(data)]);
    assert AppendText(env, src, st, q) == st1;
    AtTag(env, src, st1);
    SamePass(env, src, st, st1);
  }

  /** If the tag at the start is read up to `end`, the run goes on from there. */
  lemma TagRun(env: Env, src: string, st: State, next: State, end: int)
    requires st.start < |src| && src[st.start] == '<'
    requires ReadTag(env, src, st.start, st) == (next, end) && end > st.start
    ensures Run(env, src, st) == Run(env, src, next.(start := end))
  {
    hide ReadTag, Pass;
    AtTag(env, src, st);
  }

  /** The terminator `pat`, as `-->` or `]]>`, is found where the printer put it. */
  lemma TerminatorAt(src: string, from: nat, data: string, pat: string)
    requires |pat| == 3 && pat[0] == pat[1] != pat[2]
    requires IndexOf(data, pat, 0) == -1 && At(src, from, data + pat)
    ensures IndexOf(src, pat, from) == from + |data|
    ensures src[from..from + |data|] == data
  {
    AtSplit(src, from, data, pat);
    forall j: nat | from <= j < from + |data| ensures !At(src, j, pat) {
      NoEarlyTerminator(src, from, data, pat, j);
    }
    IndexOfIs(src, pat, from, from + |data|);
  }

  lemma NoEarlyTerminator(src: string, from: nat, data: string, pat: string, j: nat)
    requires |pat| == 3 && pat[0] == pat[1] != pat[2]
    requires forall k: nat :: !At(data, k, pat)
    requires At(src, from, data) && At(src, from + |data|, pat) && from <= j < from + |data|
    ensures !At(src, j, pat)
  {
    if j + 3 <= from + |data| && At(src, j, pat) {
      AtInside(src, from, data, j - from, pat);
    }
  }

  lemma AtInside(src: string, from: nat, data: string, k: nat, pat: string)
    requires At(src, from, data) && k + |pat| <= |data| && At(src, from + k, pat)
    ensures At(data, k, pat)
  {
    forall i | 0 <= i < |pat| ensures data[k..k + |pat|][i] == pat[i] {
      AtChar(src, from, data, k + i);
      AtChar(src, from + k, pat, i);
    }
  }

  lemma CommentRun(env: Env, src: string, st: State, data: string)
    requires Printable(Comment(data)) && At(src, st.start, Print(Comment(data)))
    ensures Run(env, src, st) == Run(env, src, Grown(st, |Print(Comment(data))|, [Comment(data)]))
  {
    hide Run, IndexOf;
    var at := st.start;
    Associate("<!--", data, "-->");
    AtSplit(src, at, "<!--", data + "-->");
    Opening(src, at, "<!--");
    TerminatorAt(src, at + 4, data, "-->");
    TagRun(env, src, st, st.(b := AppendAll(st.b, [Comment(data)])), at + 4 + |data| + 3);
  }

  lemma CDataRun(env: Env, src: string, st: State, data: string)
    requires Printable(CData(data)) && st.b.rootSeen && At(src, st.start, Print(CData(data)))
    ensures Run(env, src, st) == Run(env, src, Grown(st, |Print(CData(data))|, [CData(data)]))
  {
    var at := st.start;
    Associate("<![CDATA[", data, "]]>");
    hide Run, IndexOf, At, AppendAll;
    AtSplit(src, at, "<![CDATA[", data + "]]>");
    CDataOpening(src, at);
    TerminatorAt(src, at + 9, data, "]]>");
    TagRun(env, src, st, st.(b := AppendAll(st.b, [CData(data)])), at + 9 + |data| + 3);
  }

  lemma CDataOpening(src: string, at: nat)
    requires At(src, at, "<![CDATA[")
    ensures at + 9 <= |src| && src[at] == '<' && src[at + 1] == '!' && src[at + 2] == '[' && src[at + 3] == 'C'
    ensures At(src, at + 3, "CDATA[")
  {
    Opening(src, at, "<![CDATA[");
    assert "<![CDATA[" == "<![" + "CDATA[";
    AtSplit(src, at, "<![", "CDATA[");
  }

  /** The characters of an opening delimiter. */
  lemma Opening(src: string, at: nat, pat: string)
    requires At(src, at, pat) && |pat| >= 4
    ensures src[at] == pat[0] && src[at + 1] == pat[1] && src[at + 2] == pat[2] && src[at + 3] == pat[3]
  {
    AtChar(src, at, pat, 0);
    AtChar(src, at, pat, 1);
    AtChar(src, at, pat, 2);
    AtChar(src, at, pat, 3);
  }

  // ---- elements ----

  /** Setting distinct plain attributes one after the other keeps them all, in order. */
  lemma {:induction false} SetDistinct(ns: NsMap, done: seq<Attr>, rest: seq<Attr>)
    requires DistinctNames(done + rest)
    requires forall i :: 0 <= i < |rest| ==> PlainAttr(rest[i])
    ensures SetAll(ns, done, Raw(rest)) == done + rest
    decreases |rest|
  {
    if rest == [] {
      assert done + rest == done;
    } else {
      var a := rest[0];
      NcNamePrefix(a.name);
      assert forall i :: 0 <= i < |done| ==> done[i].name != a.name by {
        forall i | 0 <= i < |done| ensures done[i].name != a.name {
          assert (done + rest)[i] == done[i] && (done + rest)[|done|] == a;
        }
      }
      SetNew(done, a);
      assert (done + [a]) + rest[1..] == done + rest;
      SetDistinct(ns, done + [a], rest[1..]);
    }
  }

  lemma {:induction false} SetNew(attrs: seq<Attr>, a: Attr)
    requires forall i :: 0 <= i < |attrs| ==> attrs[i].name != a.name
    ensures SetNamedItem(attrs, a) == attrs + [a]
  {
    if attrs != [] {
      SetNew(attrs[1..], a);
      assert [attrs[0]] + (attrs[1..] + [a]) == attrs + [a];
    }
  }

  /** A name without a colon has no prefix. */
  lemma NcNamePrefix(name: string)
    requires IsNcName(name)
    ensures Prefix(name) == None
  {
    var k := IndexOf(name, ":", 0);
    if k > 0 {
      AtOne(name, k, ':');
      assert false;
    }
  }

  lemma {:induction false} PlainDeclareNothing(attrs: seq<Attr>)
    requires forall i :: 0 <= i < |attrs| ==> PlainAttr(attrs[i])
    ensures Declarations(Raw(attrs)) == map[]
  {
    if attrs != [] {
      NcNamePrefix(attrs[0].name);
      PlainDeclareNothing(attrs[1..]);
    }
  }

  /** The builder's entry for a printed element is that element without its children. */
  lemma OpenPlain(env: Env, st: State, name: string, attrs: seq<Attr>, closed: bool)
    requires IsNcName(name) && DistinctNames(attrs) && "" !in Scope(env, st)
    requires forall i :: 0 <= i < |attrs| ==> PlainAttr(attrs[i])
    ensures OpenElement(env, st, StartTag(name, Raw(attrs), closed))
         == var b := st.b.(path := st.b.path + [Frame(name, None, attrs, [])], rootSeen := true);
            if closed then st.(b := EndElement(b))
            else st.(b := b, stack := st.stack + [Open(name, Raw(attrs), Scope(env, st), map[])])
  {
    hide SetAll, Declarations, Prefix, IsNcName, Raw, EndElement, AppendAll, PlainAttr, DistinctNames;
    var ns := Scope(env, st);
    PlainDeclareNothing(attrs);
    assert ns + map[] == ns;
    assert ElementUri(ns, name) == None by { NcNamePrefix(name); }
    assert SetAll(ns, [], Raw(attrs)) == attrs by {
      assert [] + attrs == attrs;
      SetDistinct(ns, [], attrs);
    }
  }

  /** The state inside a printed element, right after its start tag. */
  function Inside(env: Env, st: State, n: nat, closeAt: map<string, int>, name: string, attrs: seq<Attr>): State {
    State(st.start + n, st.stack + [Open(name, Raw(attrs), Scope(env, st), map[])], closeAt,
          Builder(st.b.doc, st.b.path + [Frame(name, None, attrs, [])], true), st.reports)
  }

  function Rooted(st: State): State {
    st.(b := st.b.(rootSeen := true))
  }

  /** What a start tag needs of the character after its `<`. */
  lemma OpenTagChars(src: string, at: nat, name: string, attrs: seq<Attr>, empty: bool)
    requires IsNcName(name) && At(src, at, PrintOpen(name, attrs, empty))
    ensures at + 1 < |src| && src[at] == '<' && src[at + 1] != '/' && src[at + 1] != '?' && src[at + 1] != '!'
  {
    AtChar(src, at, PrintOpen(name, attrs, empty), 0);
    AtChar(src, at, PrintOpen(name, attrs, empty), 1);
    assert PrintOpen(name, attrs, empty)[1] == name[0];
  }

  lemma EmptyElementRun(env: Env, src: string, st: State, name: string, attrs: seq<Attr>)
    requires Ready(env, src, st) && IsNcName(name) && DistinctNames(attrs)
    requires forall i :: 0 <= i < |attrs| ==> PlainAttr(attrs[i])
    requires At(src, st.start, PrintOpen(name, attrs, true))
    ensures Run(env, src, st)
         == Run(env, src, Grown(Rooted(st), |PrintOpen(name, attrs, true)|, [Element(name, None, attrs, [])]))
  {
    hide Run, ScanFrom, PrintOpen, OpenElement, NameChar;
    OpenTagChars(src, st.start, name, attrs, true);
    ScanOpen(env.entities, src, st.start, name, attrs, true);
    OpenPlain(env, st, name, attrs, true);
    var b := st.b.(path := st.b.path + [Frame(name, None, attrs, [])], rootSeen := true);
    assert b.path[..|b.path| - 1] == st.b.path;
    TagRun(env, src, st, st.(b := EndElement(b)), st.start + |PrintOpen(name, attrs, true)|);
  }

  /** A printed start tag is not taken for an unclosed one, because its end tag follows somewhere. */
  lemma NotSelfClosed(src: string, from: nat, name: string, closeAt: map<string, int>, later: nat)
    requires CloseSound(src, closeAt) && from <= later && At(src, later, EndTag(name))
    ensures var (unclosed, c) := FixSelfClosed(src, from, name, closeAt);
            !unclosed && CloseSound(src, c)
  {
    assert LastIndexOf(src, EndTag(name)) >= later;
  }

  lemma OpenRun(env: Env, src: string, st: State, name: string, attrs: seq<Attr>, later: nat)
    returns (closeAt: map<string, int>)
    requires Ready(env, src, st) && IsNcName(name) && DistinctNames(attrs)
    requires forall i :: 0 <= i < |attrs| ==> PlainAttr(attrs[i])
    requires At(src, st.start, PrintOpen(name, attrs, false))
    requires st.start + |PrintOpen(name, attrs, false)| <= later && At(src, later, EndTag(name))
    ensures CloseSound(src, closeAt)
    ensures Run(env, src, st)
         == Run(env, src, Inside(env, st, |PrintOpen(name, attrs, false)|, closeAt, name, attrs))
  {
    hide Run, ScanFrom, PrintOpen, OpenElement, FixSelfClosed, NameChar;
    var n := |PrintOpen(name, attrs, false)|;
    OpenTagChars(src, st.start, name, attrs, false);
    ScanOpen(env.entities, src, st.start, name, attrs, false);
    NotSelfClosed(src, st.start + n - 1, name, st.closeAt, later);
    closeAt := FixSelfClosed(src, st.start + n - 1, name, st.closeAt).1;
    var next := OpenElement(env, st.(closeAt := closeAt), StartTag(name, Raw(attrs), false));
    assert ReadStartTag(env, src, st.start, st) == (next, st.start + n);
    OpenPlain(env, st.(closeAt := closeAt), name, attrs, false);
    TagRun(env, src, st, next, st.start + n);
  }

  /** The end tag of the element that was opened last closes it. */
  lemma CloseRun(env: Env, src: string, st: State, name: string)
    requires st.stack != [] && st.stack[|st.stack| - 1].name == name && IsNcName(name)
    requires At(src, st.start, EndTag(name))
    ensures Run(env, src, st)
         == Run(env, src, st.(start := st.start + |EndTag(name)|, stack := st.stack[..|st.stack| - 1],
                              b := EndElement(st.b)))
  {
    hide Run, EndTagName, IndexOf, NameChar;
    var at := st.start;
    AtSplit(src, at, "</", name + ">");
    AtSplit(src, at + 2, name, ">");
    AtChar(src, at, "</", 0);
    AtChar(src, at, "</", 1);
    EndName(src, at, name);
    TagRun(env, src, st, st.(stack := st.stack[..|st.stack| - 1], b := EndElement(st.b)), at + 2 + |name| + 1);
  }

  lemma EndName(src: string, at: nat, name: string)
    requires IsNcName(name) && At(src, at + 2, name) && At(src, at + 2 + |name|, ">")
    ensures EndTagName(src, at) == (name, at + 2 + |name|, 0)
  {
    PlainName(name);
    AtSplit(src, at + 2, name[..1], name[1..]);
    FirstOf(src, at + 3, name[1..], '>');
    assert src[at + 2..at + 2 + |name|] == name;
    hide IndexOf, At, SpaceBeforeTag, IsNcName;
  }

  lemma PlainName(name: string)
    requires IsNcName(name)
    ensures |name| > 0 && name == name[..1] + name[1..] && '>' !in name[1..] && !SpaceBeforeTag(name)
  {
    assert forall i :: 0 <= i < |name| ==> NameChar(name[i]);
    forall k | 0 <= k < |name[1..]| ensures name[1..][k] != '>' {
      assert NameChar(name[k + 1]);
    }
  }

  // ---- whole trees ----

  /** Reading a printed node that is not text: the state grows by that node and is otherwise the same. */
  lemma {:induction false} NodeRun(env: Env, src: string, st: State, t: Node) returns (closeAt: map<string, int>)
    requires Ready(env, src, st) && Printable(t) && Normal(t) && !t.Text?
    requires st.b.rootSeen || t.Element?
    requires At(src, st.start, Print(t))
    ensures CloseSound(src, closeAt)
    ensures Run(env, src, st) == Run(env, src, Grown(Rooted(st), |Print(t)|, [t]).(closeAt := closeAt))
    decreases t, 1
  {
    hide Run;
    closeAt := st.closeAt;
    match t
    case CData(data) => CDataRun(env, src, st, data);
    case Comment(data) => CommentRun(env, src, st, data);
    case Element(name, _, attrs, kids) =>
      if kids == [] {
        assert Print(t) == PrintOpen(name, attrs, true) + [] == PrintOpen(name, attrs, true);
        EmptyElementRun(env, src, st, name, attrs);
      } else {
        closeAt := ElementRun(env, src, st, t);
      }
  }

  lemma {:induction false} ElementRun(env: Env, src: string, st: State, t: Node) returns (closeAt: map<string, int>)
    requires Ready(env, src, st) && Printable(t) && Normal(t) && t.Element? && t.kids != []
    requires At(src, st.start, Print(t))
    ensures CloseSound(src, closeAt)
    ensures Run(env, src, st) == Run(env, src, Grown(Rooted(st), |Print(t)|, [t]).(closeAt := closeAt))
    decreases t, 0
  {
    hide Run, Print, PrintOpen, PrintAll, EndTag, CloseSound, AppendAll, EndElement;
    var open, inner, end := PrintOpen(t.name, t.attrs, false), PrintAll(t.kids), EndTag(t.name);
    var from := st.start + |open|;
    ElementPieces(src, st.start, t);
    closeAt := OpenRun(env, src, st, t.name, t.attrs, from + |inner|);
    var st1 := Inside(env, st, |open|, closeAt, t.name, t.attrs);
    closeAt := KidsRun(env, src, st1, t.kids);
    var st2 := Grown(st1, |inner|, t.kids).(closeAt := closeAt);
    CloseRun(env, src, st2, t.name);
    LeaveElement(env, st, st1, st2, t);
  }

  lemma ElementPieces(src: string, at: nat, t: Node)
    requires t.Element? && t.kids != [] && At(src, at, Print(t))
    ensures var open, inner, end := PrintOpen(t.name, t.attrs, false), PrintAll(t.kids), EndTag(t.name);
            |Print(t)| == |open| + |inner| + |end|
            && At(src, at, open) && At(src, at + |open|, inner)
            && At(src, at + |open| + |inner|, end) && At(src, at + |open| + |inner|, "<")
  {
    hide PrintOpen, PrintAll;
    var open, inner, end := PrintOpen(t.name, t.attrs, false), PrintAll(t.kids), EndTag(t.name);
    AtSplit(src, at, open, inner + end);
    AtSplit(src, at + |open|, inner, end);
    AtChar(src, at + |open| + |inner|, end, 0);
    AtOne(src, at + |open| + |inner|, '<');
  }

  /** Closing an element after its children were added to it adds the whole element to its parent. */
  lemma LeaveElement(env: Env, st: State, inside: State, full: State, t: Node)
    requires t.Element? && t.uri == None
    requires inside == Inside(env, st, |PrintOpen(t.name, t.attrs, false)|, inside.closeAt, t.name, t.attrs)
    requires full == Grown(inside, |PrintAll(t.kids)|, t.kids).(closeAt := full.closeAt)
    ensures full.b.path != [] && full.stack != [] && full.stack[|full.stack| - 1].name == t.name
    ensures full.stack[..|full.stack| - 1] == st.stack
    ensures EndElement(full.b) == AppendAll(st.b.(rootSeen := true), [t])
  {
    assert [] + t.kids == t.kids;
    assert inside.b.path[..|inside.b.path| - 1] == st.b.path;
    assert full.b.path[..|full.b.path| - 1] == st.b.path;
  }

  /** Reading a printed child list, up to the `<` that follows it. */
  lemma {:induction false} KidsRun(env: Env, src: string, st: State, ts: seq<Node>) returns (closeAt: map<string, int>)
    requires Ready(env, src, st) && AllPrintable(ts) && NormalList(ts) && st.b.rootSeen
    requires At(src, st.start, PrintAll(ts)) && At(src, st.start + |PrintAll(ts)|, "<")
    ensures CloseSound(src, closeAt)
    ensures Run(env, src, st) == Run(env, src, Grown(st, |PrintAll(ts)|, ts).(closeAt := closeAt))
    decreases ts
  {
    hide Run, Print, CloseSound, Grown, At, Printable, Normal, AllPrintable, NormalList, Scope;
    if ts == [] {
      closeAt := st.closeAt;
      GrownNone(st);
    } else {
      var t, rest := ts[0], ts[1..];
      HeadAndTail(ts);
      AtSplit(src, st.start, Print(t), PrintAll(rest));
      NextOpens(src, st.start + |Print(t)|, rest, t);
      closeAt := FirstRun(env, src, st, t);
      var st1 := Grown(st, |Print(t)|, [t]).(closeAt := closeAt);
      GrownReady(env, src, st, |Print(t)|, [t], closeAt);
      closeAt := KidsRun(env, src, st1, rest);
      GrownOn(st, |Print(t)|, |PrintAll(rest)|, [t], rest, st1.closeAt, closeAt);
    }
  }

  lemma HeadAndTail(ts: seq<Node>)
    requires ts != [] && AllPrintable(ts) && NormalList(ts)
    ensures Printable(ts[0]) && Normal(ts[0]) && AllPrintable(ts[1..]) && NormalList(ts[1..]) && [ts[0]] + ts[1..] == ts
  {
    hide Printable, Normal;
  }

  /** What is read later does not depend on what the current element holds. */
  lemma GrownReady(env: Env, src: string, st: State, n: nat, ts: seq<Node>, closeAt: map<string, int>)
    requires Ready(env, src, st) && CloseSound(src, closeAt)
    ensures var st1 := Grown(st, n, ts).(closeAt := closeAt);
      Ready(env, src, st1) && st1.start == st.start + n && (st.b.rootSeen ==> st1.b.rootSeen)
  {
    hide CloseSound;
  }

  lemma GrownOn(st: State, m: nat, n: nat, ss: seq<Node>, ts: seq<Node>, c: map<string, int>, d: map<string, int>)
    ensures Grown(Grown(st, m, ss).(closeAt := c), n, ts).(closeAt := d) == Grown(st, m + n, ss + ts).(closeAt := d)
  {
    GrownTwice(st, m, n, ss, ts);
    hide AppendAll;
  }

  /** Reading the first node of a printed list. */
  lemma {:induction false} FirstRun(env: Env, src: string, st: State, t: Node) returns (closeAt: map<string, int>)
    requires Ready(env, src, st) && Printable(t) && Normal(t) && st.b.rootSeen
    requires At(src, st.start, Print(t)) && (t.Text? ==> At(src, st.start + |Print(t)|, "<"))
    ensures CloseSound(src, closeAt)
    ensures Run(env, src, st) == Run(env, src, Grown(st, |Print(t)|, [t]).(closeAt := closeAt))
    decreases t, 2
  {
    hide Run;
    if t.Text? {
      AtSplit(src, st.start, Print(t), "<");
      TextRun(env, src, st, t.data);
      closeAt := st.closeAt;
    } else {
      closeAt := NodeRun(env, src, st, t);
    }
  }

  /** After a text node comes a `<`: the next node is not text, or the list ends. */
  lemma NextOpens(src: string, at: nat, rest: seq<Node>, t: Node)
    requires AllPrintable(rest) && NormalList([t] + rest)
    requires At(src, at, PrintAll(rest)) && At(src, at + |PrintAll(rest)|, "<")
    ensures t.Text? ==> At(src, at, "<")
  {
    if rest != [] && t.Text? {
      assert ([t] + rest)[0] == t && ([t] + rest)[1] == rest[0];
      assert Print(rest[0])[0] == '<';
      AtChar(src, at, PrintAll(rest), 0);
      AtOne(src, at, '<');
    }
  }

  /** Parsing the printed form of a namespace-free element gives that element with adjacent text nodes merged,
      as the document's only child, and reports nothing. */
  lemma ParsePrint(env: Env, t: Node)
    requires Predefined(env.entities) && "" !in env.base
    requires t.Element? && Printable(t)
    ensures Parse(env, Print(t)) == Some(([Normalize(t)], 0))
  {
    var u, src := Normalize(t), Print(t);
    NormalizeIsNormal(t);
    NormalizeKeeps(t);
    assert src[0..|src|] == src;
    var closeAt := NodeRun(env, src, EMPTY, u);
    var st := Grown(Rooted(EMPTY), |src|, [u]).(closeAt := closeAt);
    assert st.b == Builder([u], [], true);
    assert src[|src|..] == [] && IndexOf(src, "<", |src|) == -1;
    assert Pass(env, src, st) == Done([u] + [], 0);
    assert [u] + [] == [u] && NormalList([u]);
    NormalListFixed([u]);
  }

  /** The parser gives back the very tree that was printed exactly when that tree has no adjacent text nodes. */
  lemma RoundTrip(env: Env, t: Node)
    requires Predefined(env.entities) && "" !in env.base
    requires t.Element? && Printable(t)
    ensures Parse(env, Print(t)) == Some(([t], 0)) <==> Normal(t)
  {
    ParsePrint(env, t);
    NormalizeFixed(t);
  }

  /** Two trees print alike only if they differ in how their text is cut into adjacent nodes. */
  lemma PrintInjective(env: Env, t: Node, u: Node)
    requires Predefined(env.entities) && "" !in env.base
    requires t.Element? && Printable(t) && u.Element? && Printable(u)
    ensures Print(t) == Print(u) <==> Normalize(t) == Normalize(u)
  {
    ParsePrint(env, t);
    ParsePrint(env, u);
    NormalizeKeeps(t);
    NormalizeKeeps(u);
  }
}
