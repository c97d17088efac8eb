/** The parser's main loop with its element stack, and the tree builder it drives. */
module XmlParser {
  import opened Common
  import opened XmlText
  import opened XmlTree
  import opened XmlScanner

  type NsMap = map<string, string>

  /** What an instruction or a document type yields: where it ends, and the nodes it adds. */
  datatype Instruction = Instruction(end: int, nodes: seq<Node>)

  /** What the parser is given: the entity table, `toLowerCase`, the default namespaces, and the
      reader of the markup that this model does not look into. */
  datatype Env = Env(entities: Entities, lower: string -> string, base: NsMap, markup: (string, nat) -> Instruction)

  // ---- the tree under construction ----

  datatype Frame = Frame(name: string, uri: Option<string>, attrs: seq<Attr>, kids: seq<Node>)

  /** `path` holds the open elements, outermost first; `rootSeen` says whether there ever was a current element. */
  datatype Builder = Builder(doc: seq<Node>, path: seq<Frame>, rootSeen: bool)

  function AppendAll(b: Builder, ts: seq<Node>): (r: Builder)
    ensures r.rootSeen == b.rootSeen && |r.path| == |b.path|
  {
    if b.path == [] then b.(doc := b.doc + ts)
    else
      var top := b.path[|b.path| - 1];
      b.(path := b.path[..|b.path| - 1] + [top.(kids := top.kids + ts)])
  }

  function StartElement(b: Builder, name: string, uri: Option<string>, attrs: seq<Attr>): Builder {
    b.(path := b.path + [Frame(name, uri, attrs, [])], rootSeen := true)
  }

  function EndElement(b: Builder): Builder {
    if b.path == [] then b
    else
      var top := b.path[|b.path| - 1];
      AppendAll(b.(path := b.path[..|b.path| - 1]), [Element(top.name, top.uri, top.attrs, top.kids)])
  }

  /** Before the first element only white space is kept. */
  function Characters(b: Builder, chars: string, cdata: bool): Builder {
    if chars == [] || (!b.rootSeen && !AllSpace(chars)) then b
    else AppendAll(b, [if cdata then CData(chars) else Text(chars)])
  }

  /** The document's children once every element still open is taken as it is. */
  function CloseAll(b: Builder): seq<Node>
    decreases |b.path|
  {
    if b.path == [] then b.doc else CloseAll(EndElement(b))
  }

  // ---- namespaces ----

  function Prefix(qName: string): Option<string> {
    var k := IndexOf(qName, ":", 0);
    if k > 0 then Some(qName[..k]) else None
  }

  /** The prefix that an attribute declares, if it is a namespace declaration. */
  function Declares(qName: string): Option<string> {
    match Prefix(qName)
    case Some(prefix) => if prefix == "xmlns" then Some(qName[6..]) else None
    case None => if qName == "xmlns" then Some("") else None
  }

  /** `localNSMap`: attributes are visited from the last to the first, so the first declaration of a prefix wins. */
  function Declarations(attrs: seq<RawAttr>): NsMap {
    if attrs == [] then map[]
    else
      var rest := Declarations(attrs[1..]);
      match Declares(attrs[0].name)
      case Some(prefix) => rest[prefix := attrs[0].value]
      case None => rest
  }

  function Lookup(ns: NsMap, prefix: string): Option<string> {
    if prefix in ns then Some(ns[prefix]) else None
  }

  function AttrUri(ns: NsMap, qName: string): Option<string> {
    if Declares(qName).Some? then Some("http://www.w3.org/2000/xmlns/")
    else match Prefix(qName) case Some(prefix) => Lookup(ns, prefix) case None => None
  }

  function ElementUri(ns: NsMap, qName: string): Option<string> {
    Lookup(ns, match Prefix(qName) case Some(prefix) => prefix case None => "")
  }

  /** `setNamedItem`: an attribute replaces, in place, the one of the same name. */
  function SetNamedItem(attrs: seq<Attr>, a: Attr): seq<Attr> {
    if attrs == [] then [a]
    else if attrs[0].name == a.name then [a] + attrs[1..]
    else [attrs[0]] + SetNamedItem(attrs[1..], a)
  }

  /** The attributes of the new element, set one after the other. */
  function SetAll(ns: NsMap, done: seq<Attr>, raw: seq<RawAttr>): seq<Attr>
    decreases |raw|
  {
    if raw == [] then done
    else SetAll(ns, SetNamedItem(done, Attr(raw[0].name, AttrUri(ns, raw[0].name), raw[0].value)), raw[1..])
  }

  // ---- the parser's state ----

  /** An open element: its name and attributes as the scanner read them, the namespaces in scope, and those it declares
      itself. */
  datatype Open = Open(name: string, raw: seq<RawAttr>, ns: NsMap, declared: NsMap)

  /** `stack` is `parseStack` above its bottom entry; `closeAt` is `closeMap`. */
  datatype State = State(start: nat, stack: seq<Open>, closeAt: map<string, int>, b: Builder, reports: nat)

  datatype Outcome = More(st: State) | Done(doc: seq<Node>, reports: nat)

  function Scope(env: Env, st: State): NsMap {
    if st.stack == [] then env.base else st.stack[|st.stack| - 1].ns
  }

  function Reported(st: State, n: nat): State {
    st.(reports := st.reports + n)
  }

  /** `appendText`: the text up to `end`, its references replaced, cut to the length it had in the source. */
  function AppendText(env: Env, src: string, st: State, end: nat): (st1: State)
    requires end <= |src|
    ensures st1.start == if end <= st.start then st.start else end
  {
    if end <= st.start then st
    else
      var raw := src[st.start..end];
      var text := Unescape(env.entities, raw);
      var chars := if |text| > |raw| then text[..|raw|] else text;
      st.(start := end, b := Characters(st.b, chars, false), reports := st.reports + UnknownRefs(env.entities, raw))
  }

  // ---- end tags ----

  function FirstBreak(s: string): (n: nat)
    ensures n <= |s|
  {
    if s == [] || IsSpace(s[0]) || s[0] == '<' then 0 else 1 + FirstBreak(s[1..])
  }

  function LineLength(s: string): (n: nat)
    ensures n <= |s|
  {
    if s == [] || s[0] in {'\n', '\r', '\U{2028}', '\U{2029}'} then 0 else 1 + LineLength(s[1..])
  }

  // The first space or `<` is cut out with the rest of its line.
  function CutName(s: string): string {
    var k := FirstBreak(s);
    if k == |s| then s else s[..k] + s[k + 1 + LineLength(s[k + 1..])..]
  }

  predicate SpaceBeforeTag(s: string) {
    exists i :: 0 <= i < |s| - 1 && IsSpace(s[i]) && s[i + 1] == '<'
  }

  /** The name in an end tag, where the tag ends, and how many errors that took. */
  function EndTagName(src: string, at: nat): (string, int, nat)
    requires at + 2 <= |src|
  {
    var end := IndexOf(src, ">", at + 3);
    if end < 0 then
      var name := CutName(src[at + 2..]);
      (name, at + 1 + |name|, 1)
    else if SpaceBeforeTag(src[at + 2..end]) then
      var name := CutName(src[at + 2..end]);
      (name, at + 1 + |name|, 1)
    else (src[at + 2..end], end, 0)
  }

  /** An end tag closes the current element if the names agree, and fails late if they agree only in lower case.
      `-1` is the end that an exception leaves behind. */
  function ReadEndTag(env: Env, src: string, at: nat, st: State): (State, int)
    requires at + 2 <= |src|
  {
    var (name, end, errors) := EndTagName(src, at);
    var st1 := Reported(st, errors);
    if st.stack == [] then (st1, end + 1)
    else
      var top := st.stack[|st.stack| - 1];
      var closed := st1.(stack := st.stack[..|st.stack| - 1], b := EndElement(st.b));
      if top.name == name then (closed, end + 1)
      else if top.name != "" && env.lower(top.name) == env.lower(name) then (Reported(closed, 2), -1)
      else (st1, end + 1)
  }

  // ---- start tags ----

  function CloseTag(name: string): string {
    "</" + (name + ">")
  }

  /** Where an end tag for `name` was last seen in the whole source, looked up once per name. */
  function LastClose(src: string, name: string, from: nat): int {
    var pos := LastIndexOf(src, CloseTag(name));
    if pos < from then LastIndexOf(src, "</" + name) else pos
  }

  function FixSelfClosed(src: string, from: nat, name: string, closeAt: map<string, int>): (bool, map<string, int>) {
    var known := if name in closeAt then closeAt else closeAt[name := LastClose(src, name, from)];
    (known[name] < from, known)
  }

  /** The sax module's `appendElement`: the namespaces in scope, the new node, and the new stack entry. */
  function OpenElement(env: Env, st: State, el: StartTag): State {
    var declared := Declarations(el.attrs);
    var ns := Scope(env, st) + declared;
    var b := StartElement(st.b, el.name, ElementUri(ns, el.name), SetAll(ns, [], el.attrs));
    if el.closed then st.(b := EndElement(b))
    else st.(b := b, stack := st.stack + [Open(el.name, el.attrs, ns, declared)])
  }

  function ReadStartTag(env: Env, src: string, at: nat, st: State): (State, int) {
    match ScanFrom(env.entities, src, Begin(at))
    case Thrown(reports) => (Reported(st, reports + 1), -1)
    case Scanned(el, end, reports) =>
      var st1 := Reported(st, reports);
      if el.closed then (OpenElement(env, st1, el), end + 1)
      else
        var (unclosed, closeAt) := FixSelfClosed(src, end, el.name, st.closeAt);
        var st2 := st1.(closeAt := closeAt);
        if unclosed then (OpenElement(env, Reported(st2, 1), el.(closed := true)), end + 1)
        else (OpenElement(env, st2, el), end + 1)
  }

  // ---- comments and CDATA ----

  function ReadMarkup(env: Env, src: string, at: nat, st: State): (State, int) {
    var i := env.markup(src, at);
    (st.(b := AppendAll(st.b, i.nodes)), i.end)
  }

  /** `parseDCC` */
  function ReadDcc(env: Env, src: string, at: nat, st: State): (State, int) {
    if at + 2 < |src| && src[at + 2] == '-' then
      if at + 3 < |src| && src[at + 3] == '-' then
        var end := IndexOf(src, "-->", at + 4);
        if end > at then (st.(b := AppendAll(st.b, [Comment(src[at + 4..end])])), end + 3)
        else (Reported(st, 1), -1)
      else (st, -1)
    else if At(src, at + 3, "CDATA[") then
      var end := IndexOf(src, "]]>", at + 9);
      var data := if end < 0 then "" else src[at + 9..end];
      (st.(b := Characters(st.b, data, true)), end + 3)
    else ReadMarkup(env, src, at, st)
  }

  // ---- the main loop ----

  function ReadTag(env: Env, src: string, at: nat, st: State): (State, int)
    requires at < |src|
  {
    if at + 1 < |src| && src[at + 1] == '/' then ReadEndTag(env, src, at, st)
    else if at + 1 < |src| && src[at + 1] == '?' then ReadMarkup(env, src, at, st)
    else if at + 1 < |src| && src[at + 1] == '!' then ReadDcc(env, src, at, st)
    else ReadStartTag(env, src, at, st)
  }

  /** A pass from the `<` it found. When the tag did not lead forward, the text up to and with the `<` is text. */
  function PassAt(env: Env, src: string, at: nat, st: State): (st1: State)
    requires at < |src| && st.start == at
    ensures at < st1.start
  {
    var (next, end) := ReadTag(env, src, at, st);
    if end > at then next.(start := end)
    else AppendText(env, src, next.(start := at), at + 1)
  }

  /** One turn of `while (true)` in `_parse`. */
  function Pass(env: Env, src: string, st: State): (o: Outcome)
    ensures o.More? ==> st.start < o.st.start && st.start < |src|
  {
    var at := IndexOf(src, "<", st.start);
    if at < 0 then
      var rest := if st.start <= |src| then src[st.start..] else [];
      Done(CloseAll(st.b) + (if AllSpace(rest) then [] else [Text(rest)]), st.reports)
    else More(PassAt(env, src, at, AppendText(env, src, st, at)))
  }

  /** The loop from a given state to its end. It ends on every source, well formed or not. */
  function Run(env: Env, src: string, st: State): (o: Outcome)
    ensures o.Done?
    decreases |src| - st.start
  {
    match Pass(env, src, st)
    case More(st1) => Run(env, src, st1)
    case Done(doc, reports) => Done(doc, reports)
  }

  const EMPTY := State(0, [], map[], Builder([], [], false), 0)

  /** `parseFromString`: the document's children and the number of errors and warnings; no document for no source. */
  function Parse(env: Env, src: string): Option<(seq<Node>, nat)> {
    if src == [] then None
    else
      var o := Run(env, src, EMPTY);
      Some((NormalizeList(o.doc), o.reports))
  }

  method ParseFromString(env: Env, src: string) returns (r: Option<(seq<Node>, nat)>)
    ensures r == Parse(env, src)
  {
    if src == [] {
      return None;
    }
    var st := EMPTY;
    while true
      invariant Run(env, src, st) == Run(env, src, EMPTY)
      decreases |src| - st.start
    {
      var o := Pass(env, src, st);
      match o
      case More(next) => st := next;
      case Done(doc, reports) => return Some((NormalizeList(doc), reports));
    }
  }
}
