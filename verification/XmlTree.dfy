/** The document tree, its printer and `normalize`. */
module XmlTree {
  import opened Common
  import opened XmlText

  datatype Attr = Attr(name: string, uri: Option<string>, value: string)

  /** `Other` stands for the nodes this model does not look into: processing instructions and document types. */
  datatype Node =
    | Element(name: string, uri: Option<string>, attrs: seq<Attr>, kids: seq<Node>)
    | Text(data: string)
    | CData(data: string)
    | Comment(data: string)
    | Other(data: string)

  // ---- names ----

  predicate NameStartChar(c: char) {
    'A' <= c <= 'Z' || c == '_' || 'a' <= c <= 'z' || '\U{C0}' <= c <= '\U{D6}' || '\U{D8}' <= c <= '\U{F6}'
    || '\U{F8}' <= c <= '\U{2FF}' || '\U{370}' <= c <= '\U{37D}' || '\U{37F}' <= c <= '\U{1FFF}'
    || '\U{200C}' <= c <= '\U{200D}' || '\U{2070}' <= c <= '\U{218F}' || '\U{2C00}' <= c <= '\U{2FEF}'
    || '\U{3001}' <= c <= '\U{D7FF}' || '\U{F900}' <= c <= '\U{FDCF}' || '\U{FDF0}' <= c <= '\U{FFFD}'
  }

  predicate NameChar(c: char) {
    c == '-' || c == '.' || '0' <= c <= '9' || NameStartChar(c) || c == '\U{B7}'
    || '\U{300}' <= c <= '\U{36F}' || '\U{203F}' <= c <= '\U{2040}'
  }

  predicate IsNcName(s: string) {
    s != [] && NameStartChar(s[0]) && forall i :: 0 <= i < |s| ==> NameChar(s[i])
  }

  /** `tagNamePattern`: one name, or two joined by a colon. */
  predicate IsQName(s: string) {
    IsNcName(s) || exists k :: 0 <= k < |s| && s[k] == ':' && IsNcName(s[..k]) && IsNcName(s[k + 1..])
  }

  // ---- the trees the printer and the parser agree on ----

  predicate DistinctNames(attrs: seq<Attr>) {
    forall i, j :: 0 <= i < j < |attrs| ==> attrs[i].name != attrs[j].name
  }

  /** A plain attribute: no colon in its name, and not a namespace declaration. */
  predicate PlainAttr(a: Attr) {
    IsNcName(a.name) && a.name != "xmlns" && a.uri == None
  }

  /** A namespace-free tree whose character data can be written down. */
  predicate Printable(t: Node) {
    match t
    case Element(name, uri, attrs, kids) =>
      IsNcName(name) && uri == None && DistinctNames(attrs)
      && (forall i :: 0 <= i < |attrs| ==> PlainAttr(attrs[i]))
      && (forall i :: 0 <= i < |kids| ==> Printable(kids[i]))
    case Text(data) => data != []
    case CData(data) => data != [] && IndexOf(data, "]]>", 0) == -1
    case Comment(data) => IndexOf(data, "-->", 0) == -1
    case Other(_) => false
  }

  predicate AllPrintable(ts: seq<Node>) {
    forall i :: 0 <= i < |ts| ==> Printable(ts[i])
  }

  // ---- serializeToString ----

  function PrintAttr(a: Attr): string {
    " " + (a.name + ("=\"" + (Escape(a.value, true) + "\"")))
  }

  function PrintAttrs(attrs: seq<Attr>): string {
    if attrs == [] then [] else PrintAttr(attrs[0]) + PrintAttrs(attrs[1..])
  }

  function EndTag(name: string): string {
    "</" + (name + ">")
  }

  function PrintOpen(name: string, attrs: seq<Attr>, empty: bool): string {
    "<" + (name + (PrintAttrs(attrs) + (if empty then "/>" else ">")))
  }

  function Print(t: Node): string
    decreases t, 0
  {
    match t
    case Element(name, _, attrs, kids) =>
      PrintOpen(name, attrs, kids == []) + (if kids == [] then [] else PrintAll(kids) + EndTag(name))
    case Text(data) => Escape(data, false)
    case CData(data) => "<![CDATA[" + data + "]]>"
    case Comment(data) => "<!--" + data + "-->"
    case Other(data) => "??" + data
  }

  function PrintAll(ts: seq<Node>): string
    decreases ts, 1
  {
    if ts == [] then [] else Print(ts[0]) + PrintAll(ts[1..])
  }

  /** An element with one text, written out: the text as it is unless it holds `<` or `&`, quotation marks included. */
  lemma PrintText(name: string, text: string)
    requires '<' !in text && '&' !in text
    ensures Print(Element(name, None, [], [Text(text)])) == "<" + name + ">" + text + "</" + name + ">"
  {
    EscapeFixed(text, false);
    var kids := [Text(text)];
    assert kids[1..] == [] && PrintAll(kids) == text + [] == text;
    hide Print, PrintAll, Escape;
    assert PrintOpen(name, [], false) == "<" + name + ">";
    PrintNested(name, kids);
    assert "<" + name + ">" + (text + EndTag(name)) == "<" + name + ">" + text + "</" + name + ">";
  }

  lemma PrintNested(name: string, kids: seq<Node>)
    requires kids != []
    ensures Print(Element(name, None, [], kids)) == PrintOpen(name, [], false) + (PrintAll(kids) + EndTag(name))
  {
  }

  /** An empty element with one attribute, written out. */
  lemma PrintEmpty(name: string, attr: string, value: string)
    requires '<' !in value && '&' !in value && '"' !in value
    ensures Print(Element(name, None, [Attr(attr, None, value)], []))
      == "<" + name + " " + attr + "=\"" + value + "\"/>"
  {
    EscapeFixed(value, true);
    hide Escape;
    var a := Attr(attr, None, value);
    assert [a][1..] == [] && PrintAttrs([a]) == PrintAttr(a) + [] == PrintAttr(a);
    hide PrintAttrs;
    var quoted := "=\"" + (value + "\"");
    assert PrintOpen(name, [a], true) + [] == "<" + (name + ((" " + (attr + quoted)) + "/>"));
    hide *;
    EmptyGlued(name, attr, value);
  }

  lemma EmptyGlued(name: string, attr: string, value: string)
    ensures "<" + (name + ((" " + (attr + ("=\"" + (value + "\"")))) + "/>"))
      == "<" + name + " " + attr + "=\"" + value + "\"/>"
  {
  }

  /** The printer as it runs: every call pushes its pieces on one shared buffer. */
  method SerializeToString(node: Node, buf: string) returns (out: string)
    ensures out == buf + Print(node)
    decreases node, 0
  {
    match node
    case Element(name, _, attrs, kids) =>
      out := SerializeAttrs(attrs, buf + "<" + name);
      if |kids| > 0 {
        out := out + ">";
        OpenAssociates(buf, name, attrs, ">");
        ghost var open := PrintOpen(name, attrs, false);
        out := SerializeKids(kids, out);
        out := out + EndTag(name);
        Associate(buf + open, PrintAll(kids), EndTag(name));
        Associate(buf, open, PrintAll(kids) + EndTag(name));
      } else {
        out := out + "/>";
        OpenAssociates(buf, name, attrs, "/>");
        assert PrintOpen(name, attrs, true) + [] == PrintOpen(name, attrs, true);
      }
    case Text(data) => out := buf + Escape(data, false);
    case CData(data) => out := buf + ("<![CDATA[" + data + "]]>");
    case Comment(data) => out := buf + ("<!--" + data + "-->");
    case Other(data) => out := buf + ("??" + data);
  }

  lemma OpenAssociates(buf: string, name: string, attrs: seq<Attr>, tail: string)
    ensures buf + "<" + name + PrintAttrs(attrs) + tail == buf + ("<" + (name + (PrintAttrs(attrs) + tail)))
  {
    Associate(buf + "<" + name, PrintAttrs(attrs), tail);
    Associate(buf + "<", name, PrintAttrs(attrs) + tail);
    Associate(buf, "<", name + (PrintAttrs(attrs) + tail));
  }

  lemma Associate<T>(a: seq<T>, b: seq<T>, c: seq<T>)
    ensures (a + b) + c == a + (b + c)
  {
  }

  lemma PrintNone(attrs: seq<Attr>)
    ensures PrintAttrs(attrs[|attrs|..]) == ""
  {
  }

  lemma PrintFirst(attrs: seq<Attr>, i: nat)
    requires i < |attrs|
    ensures PrintAttrs(attrs[i..]) == PrintAttr(attrs[i]) + PrintAttrs(attrs[i + 1..])
  {
    assert attrs[i..][0] == attrs[i] && attrs[i..][1..] == attrs[i + 1..];
  }

  method SerializeAttrs(attrs: seq<Attr>, buf: string) returns (out: string)
    ensures out == buf + PrintAttrs(attrs)
  {
    PrintNone(attrs);
    hide PrintAttrs, PrintAttr;
    assert attrs[0..] == attrs;
    out := buf;
    var i := 0;
    while i < |attrs|
      invariant 0 <= i <= |attrs|
      invariant out + PrintAttrs(attrs[i..]) == buf + PrintAttrs(attrs)
    {
      PrintFirst(attrs, i);
      Associate(out, PrintAttr(attrs[i]), PrintAttrs(attrs[i + 1..]));
      out := out + PrintAttr(attrs[i]);
      i := i + 1;
    }
  }

  method SerializeKids(kids: seq<Node>, buf: string) returns (out: string)
    ensures out == buf + PrintAll(kids)
    decreases kids, 1
  {
    hide Print;
    out := buf;
    var i := 0;
    while i < |kids|
      invariant 0 <= i <= |kids|
      invariant out + PrintAll(kids[i..]) == buf + PrintAll(kids)
    {
      assert kids[i..][1..] == kids[i + 1..];
      out := SerializeToString(kids[i], out);
      i := i + 1;
    }
  }

  // ---- normalize ----

  function Size(t: Node): nat
    decreases t, 0
  {
    if t.Element? then 1 + SizeAll(t.kids) else 1
  }

  function SizeAll(ts: seq<Node>): nat
    decreases ts, 1
  {
    if ts == [] then 0 else Size(ts[0]) + SizeAll(ts[1..])
  }

  /** The first two nodes are text; the second is taken into the first. */
  function Merged(ts: seq<Node>): (r: seq<Node>)
    requires |ts| >= 2 && ts[0].Text? && ts[1].Text?
  {
    [Text(ts[0].data + ts[1].data)] + ts[2..]
  }

  lemma MergeSizes(ts: seq<Node>)
    requires |ts| >= 2 && ts[0].Text? && ts[1].Text?
    ensures Merged(ts)[1..] == ts[2..] == ts[1..][1..]
    ensures SizeAll(Merged(ts)) < SizeAll(ts)
  {
    assert Merged(ts)[1..] == ts[2..] == ts[1..][1..];
    assert SizeAll(ts[1..]) == Size(ts[1]) + SizeAll(ts[2..]);
  }

  /** `normalize`: a text node takes in the text nodes right after it, any other child is normalized itself. */
  function Normalize(t: Node): Node
    decreases Size(t), 0
  {
    if t.Element? then t.(kids := NormalizeList(t.kids)) else t
  }

  function NormalizeList(ts: seq<Node>): (r: seq<Node>)
    decreases SizeAll(ts), 1
  {
    if ts == [] then []
    else if |ts| >= 2 && ts[0].Text? && ts[1].Text? then
      MergeSizes(ts);
      NormalizeList(Merged(ts))
    else [Normalize(ts[0])] + NormalizeList(ts[1..])
  }

  /** No two adjacent text nodes anywhere in the tree. */
  predicate Normal(t: Node)
    decreases t, 0
  {
    t.Element? ==> NormalList(t.kids)
  }

  predicate NormalList(ts: seq<Node>)
    decreases ts, 1
  {
    (forall i :: 0 <= i < |ts| ==> Normal(ts[i]))
    && (forall i :: 0 <= i < |ts| - 1 ==> !(ts[i].Text? && ts[i + 1].Text?))
  }

  /** `getTextContent`: all character data in document order, comments and instructions left out. */
  function TextContent(t: Node): string
    decreases t, 0
  {
    match t
    case Element(_, _, _, kids) => TextContentAll(kids)
    case Text(data) => data
    case CData(data) => data
    case Comment(_) => []
    case Other(_) => []
  }

  function TextContentAll(ts: seq<Node>): string
    decreases ts, 1
  {
    if ts == [] then [] else TextContent(ts[0]) + TextContentAll(ts[1..])
  }

  /** The children that are not text, each normalized, in order. */
  function NonText(ts: seq<Node>): seq<Node> {
    if ts == [] then []
    else (if ts[0].Text? then [] else [ts[0]]) + NonText(ts[1..])
  }

  function NormalizeEach(ts: seq<Node>): (r: seq<Node>)
    ensures |r| == |ts|
    ensures forall i :: 0 <= i < |ts| ==> r[i] == Normalize(ts[i])
  {
    if ts == [] then [] else [Normalize(ts[0])] + NormalizeEach(ts[1..])
  }

  /** Merging two text nodes keeps what is printed, read and kept in place. */
  lemma MergeKeeps(ts: seq<Node>)
    requires |ts| >= 2 && ts[0].Text? && ts[1].Text?
    ensures PrintAll(Merged(ts)) == PrintAll(ts)
    ensures TextContentAll(Merged(ts)) == TextContentAll(ts)
    ensures NonText(Merged(ts)) == NonText(ts)
    ensures AllPrintable(ts) ==> AllPrintable(Merged(ts))
  {
    var a, b, rest := ts[0].data, ts[1].data, ts[2..];
    MergeSizes(ts);
    EscapeConcat(a, b, false);
    Associate(Escape(a, false), Escape(b, false), PrintAll(rest));
    Associate(a, b, TextContentAll(rest));
    assert PrintAll(ts[1..]) == Escape(b, false) + PrintAll(rest);
    assert TextContentAll(ts[1..]) == b + TextContentAll(rest);
    assert NonText(ts[1..]) == NonText(rest);
  }

  /** After `normalize` no two text nodes are adjacent, anywhere in the subtree. */
  lemma {:induction false} NormalizeIsNormal(t: Node)
    ensures Normal(Normalize(t))
    decreases Size(t), 0
  {
    if t.Element? {
      NormalizeListIsNormal(t.kids);
    }
  }

  lemma {:induction false} NormalizeListIsNormal(ts: seq<Node>)
    ensures NormalList(NormalizeList(ts))
    ensures ts != [] ==> NormalizeList(ts) != [] && NormalizeList(ts)[0].Text? == ts[0].Text?
    decreases SizeAll(ts), 1
  {
    if |ts| >= 2 && ts[0].Text? && ts[1].Text? {
      MergeSizes(ts);
      NormalizeListIsNormal(Merged(ts));
    } else if ts != [] {
      NormalizeIsNormal(ts[0]);
      NormalizeListIsNormal(ts[1..]);
    }
  }

  /** `normalize` keeps the text content, the printed form, and the other children in their order. */
  lemma {:induction false} NormalizeKeeps(t: Node)
    ensures TextContent(Normalize(t)) == TextContent(t)
    ensures Print(Normalize(t)) == Print(t)
    ensures Printable(t) ==> Printable(Normalize(t))
    decreases Size(t), 0
  {
    if t.Element? {
      NormalizeListKeeps(t.kids);
      NormalizeListIsNormal(t.kids);
    }
  }

  lemma {:induction false} NormalizeListKeeps(ts: seq<Node>)
    ensures TextContentAll(NormalizeList(ts)) == TextContentAll(ts)
    ensures PrintAll(NormalizeList(ts)) == PrintAll(ts)
    ensures NonText(NormalizeList(ts)) == NormalizeEach(NonText(ts))
    ensures AllPrintable(ts) ==> AllPrintable(NormalizeList(ts))
    decreases SizeAll(ts), 1
  {
    hide Print, TextContent;
    if |ts| >= 2 && ts[0].Text? && ts[1].Text? {
      MergeSizes(ts);
      MergeKeeps(ts);
      NormalizeListKeeps(Merged(ts));
    } else if ts != [] {
      NormalizeKeeps(ts[0]);
      NormalizeListKeeps(ts[1..]);
      var r := NormalizeList(ts);
      assert r[1..] == NormalizeList(ts[1..]);
    }
  }

  /** `normalize` changes nothing exactly on the trees that are already normal. */
  lemma {:induction false} NormalizeFixed(t: Node)
    ensures Normalize(t) == t <==> Normal(t)
    decreases Size(t), 0
  {
    NormalizeIsNormal(t);
    if t.Element? && Normal(t) {
      NormalListFixed(t.kids);
    }
  }

  lemma {:induction false} NormalListFixed(ts: seq<Node>)
    requires NormalList(ts)
    ensures NormalizeList(ts) == ts
    decreases SizeAll(ts), 1
  {
    if ts != [] {
      NormalizeFixed(ts[0]);
      assert NormalList(ts[1..]);
      NormalListFixed(ts[1..]);
    }
  }
}
