/** The start-tag state machine. */
module XmlScanner {
  import opened XmlText
  import opened XmlTree

  /** S_TAG, S_ATTR, S_ATTR_SPACE, S_EQ, S_ATTR_NOQUOT_VALUE, S_ATTR_END, S_TAG_SPACE, S_TAG_CLOSE. */
  datatype Phase = InTag | InAttr | AttrSpace | AfterEq | Unquoted | AttrEnd | TagSpace | TagClose

  datatype RawAttr = RawAttr(name: string, value: string)

  datatype StartTag = StartTag(name: string, attrs: seq<RawAttr>, closed: bool)

  /** The scanner's variables; `reports` counts its calls of the error handler. */
  datatype Scan = Scan(p: nat, start: nat, phase: Phase, attrName: string, el: StartTag, reports: nat)

  datatype Scanned = Scanned(el: StartTag, end: nat, reports: nat) | Thrown(reports: nat)

  datatype Next = Continue(sc: Scan) | Stop(result: Scanned) {
    predicate IsFailure() { Stop? }
    function PropagateFailure(): Next requires Stop? { this }
    function Extract(): Scan requires Continue? { sc }
  }

  /** A slice between positions that need not be ordered. */
  function Slice(s: string, a: nat, b: nat): string {
    if a <= b <= |s| then s[a..b] else []
  }

  function Report(sc: Scan): Scan {
    sc.(reports := sc.reports + 1)
  }

  function SetTagName(sc: Scan, name: string): Next {
    if IsQName(name) then Continue(sc.(el := sc.el.(name := name))) else Stop(Thrown(sc.reports))
  }

  function Add(sc: Scan, name: string, value: string): Next {
    if IsQName(name) then Continue(sc.(el := sc.el.(attrs := sc.el.attrs + [RawAttr(name, value)])))
    else Stop(Thrown(sc.reports))
  }

  /** Replaces the references in a value, reporting the unknown ones. */
  function Value(ent: Entities, sc: Scan, raw: string): (Scan, string) {
    (sc.(reports := sc.reports + UnknownRefs(ent, raw)), Unescape(ent, raw))
  }

  /** A turn moves forward, or ends the scan where it is. */
  predicate Moves(sc: Scan, n: Next) {
    match n
    case Continue(sc1) => sc.p < sc1.p
    case Stop(r) => r.Scanned? ==> r.end == sc.p
  }

  function OnEquals(src: string, sc: Scan): (n: Next)
    ensures Moves(sc, n)
  {
    match sc.phase
    case InAttr => Continue(sc.(attrName := Slice(src, sc.start, sc.p), phase := AfterEq, p := sc.p + 1))
    case AttrSpace => Continue(sc.(phase := AfterEq, p := sc.p + 1))
    case _ => Stop(Thrown(sc.reports))
  }

  function OnQuote(ent: Entities, src: string, sc: Scan, c: char): (n: Next)
    ensures Moves(sc, n)
  {
    match sc.phase
    case AfterEq => QuotedValue(ent, src, sc, c)
    case InAttr => QuotedValue(ent, src, Report(sc).(attrName := Slice(src, sc.start, sc.p)), c)
    case Unquoted =>
      var (sc1, value) := Value(ent, sc, Slice(src, sc.start, sc.p));
      var sc2 :- Add(sc1, sc.attrName, value);
      Continue(Report(sc2).(start := sc.p + 1, phase := AttrEnd, p := sc.p + 1))
    case _ => Stop(Thrown(sc.reports))
  }

  function QuotedValue(ent: Entities, src: string, sc: Scan, c: char): (n: Next)
    ensures Moves(sc, n)
  {
    var close := IndexOf(src, [c], sc.p + 1);
    if close > 0 then
      var (sc1, value) := Value(ent, sc, src[sc.p + 1..close]);
      var sc2 :- Add(sc1, sc.attrName, value);
      Continue(sc2.(start := sc.p + 1, phase := AttrEnd, p := close + 1))
    else Stop(Thrown(sc.reports))
  }

  function OnSlash(src: string, sc: Scan): (n: Next)
    ensures Moves(sc, n)
  {
    match sc.phase
    case InTag =>
      var sc1 :- SetTagName(sc, Slice(src, sc.start, sc.p));
      Continue(sc1.(phase := TagClose, el := sc1.el.(closed := true), p := sc.p + 1))
    case AttrEnd => Continue(sc.(phase := TagClose, el := sc.el.(closed := true), p := sc.p + 1))
    case TagSpace => Continue(sc.(phase := TagClose, el := sc.el.(closed := true), p := sc.p + 1))
    case TagClose => Continue(sc.(phase := TagClose, el := sc.el.(closed := true), p := sc.p + 1))
    case AfterEq => Stop(Thrown(sc.reports))
    case _ => Continue(sc.(p := sc.p + 1))
  }

  function OnClose(ent: Entities, src: string, sc: Scan): (n: Next)
    ensures Moves(sc, n)
  {
    match sc.phase
    case InTag =>
      var sc1 :- SetTagName(sc, Slice(src, sc.start, sc.p));
      Stop(Scanned(sc1.el, sc.p, sc1.reports))
    case AfterEq => Stop(Thrown(sc.reports))
    case AttrSpace =>
      var sc1 :- Add(Report(sc), sc.attrName, sc.attrName);
      Stop(Scanned(sc1.el, sc.p, sc1.reports))
    case Unquoted =>
      var (raw, slash) := DropSlash(Slice(src, sc.start, sc.p));
      var (sc1, value) := Value(ent, sc, raw);
      var sc2 :- Add(Report(sc1), sc.attrName, value);
      Stop(Scanned(sc2.el.(closed := sc2.el.closed || slash), sc.p, sc2.reports))
    case InAttr =>
      var (name, slash) := DropSlash(Slice(src, sc.start, sc.p));
      var sc1 :- Add(Report(sc), name, name);
      Stop(Scanned(sc1.el.(closed := sc1.el.closed || slash), sc.p, sc1.reports))
    case _ => Stop(Scanned(sc.el, sc.p, sc.reports))
  }

  function DropSlash(s: string): (string, bool) {
    if s != [] && s[|s| - 1] == '/' then (s[..|s| - 1], true) else (s, false)
  }

  function OnSpace(ent: Entities, src: string, sc: Scan): (n: Next)
    ensures Moves(sc, n)
  {
    match sc.phase
    case InTag =>
      var sc1 :- SetTagName(sc, Slice(src, sc.start, sc.p));
      Continue(sc1.(phase := TagSpace, p := sc.p + 1))
    case InAttr => Continue(sc.(attrName := Slice(src, sc.start, sc.p), phase := AttrSpace, p := sc.p + 1))
    case Unquoted =>
      var (sc1, value) := Value(ent, sc, Slice(src, sc.start, sc.p));
      var sc2 :- Add(Report(sc1), sc.attrName, value);
      Continue(sc2.(phase := TagSpace, p := sc.p + 1))
    case AttrEnd => Continue(sc.(phase := TagSpace, p := sc.p + 1))
    case _ => Continue(sc.(p := sc.p + 1))
  }

  function OnOther(sc: Scan): (n: Next)
    ensures Moves(sc, n)
  {
    match sc.phase
    case AttrSpace =>
      var sc1 :- Add(Report(sc), sc.attrName, sc.attrName);
      Continue(sc1.(start := sc.p, phase := InAttr, p := sc.p + 1))
    case AttrEnd => Continue(Report(sc).(start := sc.p, phase := InAttr, p := sc.p + 1))
    case TagSpace => Continue(sc.(start := sc.p, phase := InAttr, p := sc.p + 1))
    case AfterEq => Continue(sc.(start := sc.p, phase := Unquoted, p := sc.p + 1))
    case TagClose => Stop(Thrown(sc.reports))
    case _ => Continue(sc.(p := sc.p + 1))
  }

  function OnEnd(src: string, sc: Scan): (n: Next)
    ensures n.Stop? && Moves(sc, n)
  {
    if sc.phase == InTag then
      var sc1 :- SetTagName(Report(sc), Slice(src, sc.start, sc.p));
      Stop(Scanned(sc1.el, sc.p, sc1.reports))
    else Stop(Scanned(sc.el, sc.p, sc.reports + 1))
  }

  /** One turn of the scanner's loop; a turn that does not end the scan moves `p` forward. */
  function Turn(ent: Entities, src: string, sc: Scan): (n: Next)
    ensures n.Continue? ==> sc.p < n.sc.p && sc.p < |src|
    ensures n.Stop? && n.result.Scanned? ==> n.result.end == sc.p
  {
    if sc.p >= |src| then OnEnd(src, sc)
    else
      var c := src[sc.p];
      if c == '=' then OnEquals(src, sc)
      else if c == '\'' || c == '"' then OnQuote(ent, src, sc, c)
      else if c == '/' then OnSlash(src, sc)
      else if c == '>' then OnClose(ent, src, sc)
      else if c <= ' ' || c == '\U{80}' then OnSpace(ent, src, sc)
      else OnOther(sc)
  }

  /** The scan from a given state to its end. It ends on every source. */
  function ScanFrom(ent: Entities, src: string, sc: Scan): (r: Scanned)
    ensures r.Scanned? ==> sc.p <= r.end
    decreases |src| - sc.p
  {
    match Turn(ent, src, sc)
    case Continue(sc1) => ScanFrom(ent, src, sc1)
    case Stop(r) => r
  }

  function Begin(pos: nat): Scan {
    Scan(pos + 1, pos + 1, InTag, "", StartTag("", [], false), 0)
  }

  /** `parseElementStartPart` on the tag that opens at `pos`. */
  method ParseElementStartPart(ent: Entities, src: string, pos: nat) returns (r: Scanned)
    ensures r == ScanFrom(ent, src, Begin(pos))
  {
    var sc := Begin(pos);
    while true
      invariant ScanFrom(ent, src, sc) == ScanFrom(ent, src, Begin(pos))
      decreases |src| - sc.p
    {
      var n := Turn(ent, src, sc);
      match n
      case Stop(result) => return result;
      case Continue(next) => sc := next;
    }
  }

  // ---- scanning a start tag, however it is written ----

  lemma Step(ent: Entities, src: string, sc: Scan, next: Scan)
    requires Turn(ent, src, sc) == Continue(next)
    ensures ScanFrom(ent, src, sc) == ScanFrom(ent, src, next)
  {
    hide Turn;
  }

  /** A character of a qualified name. */
  predicate OfName(c: char) {
    NameChar(c) || c == ':'
  }

  lemma QNameChars(name: string)
    requires IsQName(name)
    ensures name != "" && forall i :: 0 <= i < |name| ==> OfName(name[i])
  {
    hide NameChar, NameStartChar;
    if !IsNcName(name) {
      var k :| 0 <= k < |name| && name[k] == ':' && IsNcName(name[..k]) && IsNcName(name[k + 1..]);
      forall i | 0 <= i < |name| ensures OfName(name[i]) {
        assert name[i] == if i < k then name[..k][i] else if i == k then ':' else name[k + 1..][i - k - 1];
      }
    }
  }

  lemma {:induction false} NameRun(ent: Entities, src: string, sc: Scan, to: nat)
    requires sc.phase == InTag || sc.phase == InAttr
    requires sc.p <= to <= |src|
    requires forall i :: sc.p <= i < to ==> OfName(src[i])
    ensures ScanFrom(ent, src, sc) == ScanFrom(ent, src, sc.(p := to))
    decreases |src| - sc.p
  {
    if sc.p < to {
      assert Turn(ent, src, sc) == Continue(sc.(p := sc.p + 1));
      NameRun(ent, src, sc.(p := sc.p + 1), to);
    }
  }

  /** White space as the scanner takes it. */
  predicate Blank(c: char) {
    c <= ' ' || c == '\U{80}'
  }

  predicate AllBlank(s: string) {
    forall i :: 0 <= i < |s| ==> Blank(s[i])
  }

  lemma BlankTurn(ent: Entities, src: string, sc: Scan)
    requires sc.phase in {TagSpace, AttrSpace, AfterEq} && sc.p < |src| && Blank(src[sc.p])
    ensures Turn(ent, src, sc) == Continue(sc.(p := sc.p + 1))
  {
  }

  /** White space is passed over before a name, before `=` and after it. */
  lemma {:induction false} BlankRun(ent: Entities, src: string, sc: Scan, run: string)
    requires sc.phase in {TagSpace, AttrSpace, AfterEq} && At(src, sc.p, run) && AllBlank(run)
    ensures ScanFrom(ent, src, sc) == ScanFrom(ent, src, sc.(p := sc.p + |run|))
    decreases |run|
  {
    hide *;
    if run != [] {
      FirstBlank(src, sc.p, run);
      BlankTurn(ent, src, sc);
      Step(ent, src, sc, sc.(p := sc.p + 1));
      BlankRun(ent, src, sc.(p := sc.p + 1), run[1..]);
    }
  }

  lemma FirstBlank(src: string, p: nat, run: string)
    requires run != "" && AllBlank(run) && At(src, p, run)
    ensures p < |src| && Blank(src[p]) && AllBlank(run[1..]) && At(src, p + 1, run[1..])
  {
    AtChar(src, p, run, 0);
    assert [run[0]] + run[1..] == run;
    AtSplit(src, p, [run[0]], run[1..]);
  }

  /** An attribute as it may be written: white space before its name and around `=`, and either quotation mark. */
  datatype Written = Written(gap: string, name: string, before: string, after: string, quote: char, raw: string) {
    predicate Valid() {
      gap != "" && AllBlank(gap) && IsQName(name) && AllBlank(before) && AllBlank(after)
      && (quote == '"' || quote == '\'') && quote !in raw
    }
  }

  function WrittenValue(w: Written): string {
    w.after + ([w.quote] + (w.raw + [w.quote]))
  }

  function WriteAttr(w: Written): string {
    w.gap + (w.name + (w.before + ("=" + WrittenValue(w))))
  }

  /** The scan state right after a complete quoted attribute. */
  function AfterWritten(ent: Entities, sc: Scan, w: Written): Scan {
    var end := sc.p + |WriteAttr(w)|;
    sc.(p := end, start := end - 1 - |w.raw|, phase := AttrEnd, attrName := w.name,
        el := sc.el.(attrs := sc.el.attrs + [RawAttr(w.name, Unescape(ent, w.raw))]),
        reports := sc.reports + UnknownRefs(ent, w.raw))
  }

  lemma WrittenParts(src: string, p: nat, w: Written)
    requires At(src, p, WriteAttr(w))
    ensures At(src, p, w.gap) && At(src, p + |w.gap|, w.name) && At(src, p + |w.gap| + |w.name|, w.before)
    ensures var eq := p + |w.gap| + |w.name| + |w.before|;
      At(src, eq, "=") && At(src, eq + 1, WrittenValue(w)) && p + |WriteAttr(w)| == eq + 1 + |WrittenValue(w)|
  {
    hide WrittenValue, At;
    var rest := "=" + WrittenValue(w);
    AtSplit(src, p, w.gap, w.name + (w.before + rest));
    AtSplit(src, p + |w.gap|, w.name, w.before + rest);
    AtSplit(src, p + |w.gap| + |w.name|, w.before, rest);
    AtSplit(src, p + |w.gap| + |w.name| + |w.before|, "=", WrittenValue(w));
  }

  /** However it is written, the attribute is read with its name and its value, references replaced. */
  lemma {:induction false} ScanWritten(ent: Entities, src: string, sc: Scan, w: Written)
    requires w.Valid() && sc.phase == AttrEnd && At(src, sc.p, WriteAttr(w))
    ensures ScanFrom(ent, src, sc) == ScanFrom(ent, src, AfterWritten(ent, sc, w))
  {
    hide ScanFrom, IsQName, Unescape, UnknownRefs, WrittenValue, At, WriteAttr, AllBlank;
    WrittenParts(src, sc.p, w);
    ScanGap(ent, src, sc, w);
    var sc1 := sc.(phase := TagSpace, p := sc.p + |w.gap|);
    ScanName(ent, src, sc1, w.name);
    var sc2 := sc1.(phase := InAttr, start := sc1.p, p := sc1.p + |w.name|);
    ScanEquals(ent, src, sc2, w);
    var sc3 := sc2.(phase := AfterEq, attrName := w.name, p := sc2.p + |w.before| + 1);
    ScanQuoted(ent, src, sc3, w);
  }

  lemma {:induction false} ScanGap(ent: Entities, src: string, sc: Scan, w: Written)
    requires w.Valid() && sc.phase == AttrEnd && At(src, sc.p, w.gap)
    ensures ScanFrom(ent, src, sc) == ScanFrom(ent, src, sc.(phase := TagSpace, p := sc.p + |w.gap|))
  {
    hide ScanFrom, IsQName;
    FirstBlank(src, sc.p, w.gap);
    Step(ent, src, sc, sc.(phase := TagSpace, p := sc.p + 1));
    BlankRun(ent, src, sc.(phase := TagSpace, p := sc.p + 1), w.gap[1..]);
  }

  lemma {:induction false} ScanName(ent: Entities, src: string, sc: Scan, name: string)
    requires IsQName(name) && sc.phase == TagSpace && At(src, sc.p, name)
    ensures ScanFrom(ent, src, sc) == ScanFrom(ent, src, sc.(phase := InAttr, start := sc.p, p := sc.p + |name|))
  {
    hide ScanFrom, IsQName, OfName, Turn;
    QNameChars(name);
    forall i | sc.p <= i < sc.p + |name| ensures OfName(src[i]) {
      AtChar(src, sc.p, name, i - sc.p);
    }
    var sc1 := sc.(phase := InAttr, start := sc.p, p := sc.p + 1);
    NameBegins(ent, src, sc);
    Step(ent, src, sc, sc1);
    NameRun(ent, src, sc1, sc.p + |name|);
  }

  lemma NameBegins(ent: Entities, src: string, sc: Scan)
    requires sc.phase == TagSpace && sc.p < |src| && OfName(src[sc.p])
    ensures Turn(ent, src, sc) == Continue(sc.(phase := InAttr, start := sc.p, p := sc.p + 1))
  {
  }

  lemma {:induction false} ScanEquals(ent: Entities, src: string, sc: Scan, w: Written)
    requires w.Valid() && sc.phase == InAttr && sc.start + |w.name| == sc.p && At(src, sc.start, w.name)
    requires At(src, sc.p, w.before) && At(src, sc.p + |w.before|, "=")
    ensures ScanFrom(ent, src, sc)
      == ScanFrom(ent, src, sc.(phase := AfterEq, attrName := w.name, p := sc.p + |w.before| + 1))
  {
    hide ScanFrom, IsQName;
    AtChar(src, sc.p + |w.before|, "=", 0);
    var sc2 := sc.(phase := AfterEq, attrName := w.name, p := sc.p + |w.before| + 1);
    if w.before == "" {
      Step(ent, src, sc, sc2);
    } else {
      FirstBlank(src, sc.p, w.before);
      var sc1 := sc.(phase := AttrSpace, attrName := w.name, p := sc.p + 1);
      Step(ent, src, sc, sc1);
      BlankRun(ent, src, sc1, w.before[1..]);
      Step(ent, src, sc1.(p := sc.p + |w.before|), sc2);
    }
  }

  lemma {:induction false} ScanQuoted(ent: Entities, src: string, sc: Scan, w: Written)
    requires w.Valid() && sc.phase == AfterEq && sc.attrName == w.name && At(src, sc.p, WrittenValue(w))
    ensures var end := sc.p + |WrittenValue(w)|;
      ScanFrom(ent, src, sc)
        == ScanFrom(ent, src, sc.(phase := AttrEnd, p := end, start := end - 1 - |w.raw|,
                                  el := sc.el.(attrs := sc.el.attrs + [RawAttr(w.name, Unescape(ent, w.raw))]),
                                  reports := sc.reports + UnknownRefs(ent, w.raw)))
  {
    hide ScanFrom, IsQName, Unescape, UnknownRefs, At, AllBlank;
    var quoted := [w.quote] + (w.raw + [w.quote]);
    AtSplit(src, sc.p, w.after, quoted);
    BlankRun(ent, src, sc, w.after);
    var sc1 := sc.(p := sc.p + |w.after|);
    QuoteTurn(ent, src, sc1, w);
    Step(ent, src, sc1, AfterQuoted(ent, sc1, w));
  }

  function AfterQuoted(ent: Entities, sc: Scan, w: Written): Scan {
    sc.(phase := AttrEnd, start := sc.p + 1, p := sc.p + 2 + |w.raw|,
        el := sc.el.(attrs := sc.el.attrs + [RawAttr(w.name, Unescape(ent, w.raw))]),
        reports := sc.reports + UnknownRefs(ent, w.raw))
  }

  lemma {:induction false} QuoteTurn(ent: Entities, src: string, sc: Scan, w: Written)
    requires w.Valid() && sc.phase == AfterEq && sc.attrName == w.name
    requires At(src, sc.p, [w.quote] + (w.raw + [w.quote]))
    ensures Turn(ent, src, sc) == Continue(AfterQuoted(ent, sc, w))
  {
    hide IsQName, Unescape, UnknownRefs, IndexOf;
    AtSplit(src, sc.p, [w.quote], w.raw + [w.quote]);
    AtChar(src, sc.p, [w.quote], 0);
    AtSplit(src, sc.p + 1, w.raw, [w.quote]);
    FirstOf(src, sc.p + 1, w.raw, w.quote);
    assert src[sc.p + 1..sc.p + 1 + |w.raw|] == w.raw;
    hide At, AllBlank, QuotedValue;
    assert Turn(ent, src, sc) == QuotedValue(ent, src, sc, w.quote);
    QuotedIs(ent, src, sc, w);
  }

  lemma {:induction false} QuotedIs(ent: Entities, src: string, sc: Scan, w: Written)
    requires IsQName(w.name) && sc.attrName == w.name
    requires sc.p + 1 + |w.raw| <= |src| && src[sc.p + 1..sc.p + 1 + |w.raw|] == w.raw
    requires IndexOf(src, [w.quote], sc.p + 1) == sc.p + 1 + |w.raw|
    ensures QuotedValue(ent, src, sc, w.quote) == Continue(AfterQuoted(ent, sc, w))
  {
    hide IsQName, Unescape, UnknownRefs, IndexOf, At;
    var (sc1, value) := Value(ent, sc, w.raw);
    assert Add(sc1, w.name, value)
      == Continue(sc1.(el := sc.el.(attrs := sc.el.attrs + [RawAttr(w.name, value)])));
    hide Value, Add;
  }

  /** The search for a character skips a stretch that does not hold it. */
  lemma FirstOf(src: string, from: nat, run: string, c: char)
    requires At(src, from, run) && c !in run && At(src, from + |run|, [c])
    ensures IndexOf(src, [c], from) == from + |run|
  {
    forall j: nat | from <= j < from + |run| ensures !At(src, j, [c]) {
      AtChar(src, from, run, j - from);
      AtOne(src, j, c);
    }
    IndexOfIs(src, [c], from, from + |run|);
  }

  function Raw(attrs: seq<Attr>): (r: seq<RawAttr>)
    ensures |r| == |attrs|
    ensures forall i :: 0 <= i < |attrs| ==> r[i] == RawAttr(attrs[i].name, attrs[i].value)
  {
    if attrs == [] then [] else [RawAttr(attrs[0].name, attrs[0].value)] + Raw(attrs[1..])
  }

  lemma ScanTail(ent: Entities, src: string, sc: Scan, empty: bool)
    requires sc.phase == AttrEnd && !sc.el.closed && At(src, sc.p, if empty then "/>" else ">")
    ensures ScanFrom(ent, src, sc)
         == Scanned(sc.el.(closed := empty), sc.p + (if empty then 1 else 0), sc.reports)
  {
    if empty {
      AtChar(src, sc.p, "/>", 0);
      AtChar(src, sc.p, "/>", 1);
      var sc1 := sc.(phase := TagClose, el := sc.el.(closed := true), p := sc.p + 1);
      Step(ent, src, sc, sc1);
      assert Turn(ent, src, sc1) == Stop(Scanned(sc1.el, sc1.p, sc1.reports));
    } else {
      AtChar(src, sc.p, ">", 0);
      assert Turn(ent, src, sc) == Stop(Scanned(sc.el, sc.p, sc.reports));
    }
  }

  /** At the end of the tag name the scanner goes on as it does after an attribute. */
  lemma NameDone(ent: Entities, src: string, sc: Scan, name: string)
    requires sc.phase == InTag && sc.start + |name| == sc.p < |src| && src[sc.start..sc.p] == name && IsQName(name)
    requires Blank(src[sc.p]) || src[sc.p] == '/' || src[sc.p] == '>'
    ensures ScanFrom(ent, src, sc) == ScanFrom(ent, src, sc.(phase := AttrEnd, el := sc.el.(name := name)))
  {
    hide IsQName;
    assert Turn(ent, src, sc) == Turn(ent, src, sc.(phase := AttrEnd, el := sc.el.(name := name)));
  }

  function WriteAttrs(ws: seq<Written>): string {
    if ws == [] then [] else WriteAttr(ws[0]) + WriteAttrs(ws[1..])
  }

  /** What the attributes stand for. */
  function Meant(ent: Entities, ws: seq<Written>): seq<RawAttr> {
    if ws == [] then [] else [RawAttr(ws[0].name, Unescape(ent, ws[0].raw))] + Meant(ent, ws[1..])
  }

  function Unknown(ent: Entities, ws: seq<Written>): nat {
    if ws == [] then 0 else UnknownRefs(ent, ws[0].raw) + Unknown(ent, ws[1..])
  }

  /** The end of a tag, with white space before it. */
  lemma {:induction false} ScanEnd(ent: Entities, src: string, sc: Scan, gap: string, empty: bool)
    requires sc.phase == AttrEnd && !sc.el.closed && AllBlank(gap)
    requires At(src, sc.p, gap + (if empty then "/>" else ">"))
    ensures ScanFrom(ent, src, sc)
      == Scanned(sc.el.(closed := empty), sc.p + |gap| + (if empty then 1 else 0), sc.reports)
  {
    hide ScanFrom;
    var tail := if empty then "/>" else ">";
    AtSplit(src, sc.p, gap, tail);
    if gap == "" {
      ScanTail(ent, src, sc, empty);
    } else {
      FirstBlank(src, sc.p, gap);
      var sc1 := sc.(phase := TagSpace, p := sc.p + 1);
      Step(ent, src, sc, sc1);
      BlankRun(ent, src, sc1, gap[1..]);
      ScanTailSpace(ent, src, sc1.(p := sc.p + |gap|), empty);
    }
  }

  lemma {:induction false} ScanTailSpace(ent: Entities, src: string, sc: Scan, empty: bool)
    requires sc.phase == TagSpace && !sc.el.closed && At(src, sc.p, if empty then "/>" else ">")
    ensures ScanFrom(ent, src, sc) == Scanned(sc.el.(closed := empty), sc.p + (if empty then 1 else 0), sc.reports)
  {
    hide ScanFrom;
    ScanTail(ent, src, sc.(phase := AttrEnd), empty);
    if empty {
      AtChar(src, sc.p, "/>", 0);
      var sc1 := sc.(phase := TagClose, el := sc.el.(closed := true), p := sc.p + 1);
      Step(ent, src, sc, sc1);
      Step(ent, src, sc.(phase := AttrEnd), sc1);
    } else {
      AtChar(src, sc.p, ">", 0);
      Closes(ent, src, sc);
    }
  }

  lemma Closes(ent: Entities, src: string, sc: Scan)
    requires sc.phase == TagSpace && sc.p < |src| && src[sc.p] == '>'
    ensures ScanFrom(ent, src, sc) == Scanned(sc.el, sc.p, sc.reports)
  {
  }

  lemma {:induction false} ScanWrittenAttrs(
    ent: Entities, src: string, sc: Scan, ws: seq<Written>, gap: string, empty: bool)
    requires sc.phase == AttrEnd && !sc.el.closed && AllBlank(gap) && forall i :: 0 <= i < |ws| ==> ws[i].Valid()
    requires At(src, sc.p, WriteAttrs(ws) + (gap + (if empty then "/>" else ">")))
    ensures ScanFrom(ent, src, sc)
      == Scanned(sc.el.(attrs := sc.el.attrs + Meant(ent, ws), closed := empty),
                 sc.p + |WriteAttrs(ws)| + |gap| + (if empty then 1 else 0), sc.reports + Unknown(ent, ws))
    decreases |ws|
  {
    hide WriteAttr, Turn, ScanFrom, IsQName, Unescape, UnknownRefs, AllBlank;
    var tail := gap + (if empty then "/>" else ">");
    if ws == [] {
      assert WriteAttrs(ws) + tail == tail;
      assert sc.el.attrs + Meant(ent, ws) == sc.el.attrs;
      ScanEnd(ent, src, sc, gap, empty);
    } else {
      Associate(WriteAttr(ws[0]), WriteAttrs(ws[1..]), tail);
      AtSplit(src, sc.p, WriteAttr(ws[0]), WriteAttrs(ws[1..]) + tail);
      ScanWritten(ent, src, sc, ws[0]);
      ScanWrittenAttrs(ent, src, AfterWritten(ent, sc, ws[0]), ws[1..], gap, empty);
      Associate(sc.el.attrs, Meant(ent, ws)[..1], Meant(ent, ws[1..]));
    }
  }

  /** Any start tag: the attributes in any quotation marks, any white space around them, around `=` and before the end. */
  lemma {:induction false} ScanTag(
    ent: Entities, src: string, pos: nat, name: string, ws: seq<Written>, gap: string, empty: bool)
    requires IsQName(name) && AllBlank(gap) && forall i :: 0 <= i < |ws| ==> ws[i].Valid()
    requires At(src, pos, "<" + (name + (WriteAttrs(ws) + (gap + (if empty then "/>" else ">")))))
    ensures ScanFrom(ent, src, Begin(pos))
      == Scanned(StartTag(name, Meant(ent, ws), empty),
                 pos + 1 + |name| + |WriteAttrs(ws)| + |gap| + (if empty then 1 else 0), Unknown(ent, ws))
  {
    hide ScanFrom, WriteAttrs, OfName, IsQName;
    var rest := WriteAttrs(ws) + (gap + (if empty then "/>" else ">"));
    var q := pos + 1 + |name|;
    AtSplit(src, pos, "<", name + rest);
    AtSplit(src, pos + 1, name, rest);
    QNameChars(name);
    forall i | pos + 1 <= i < q ensures OfName(src[i]) {
      AtChar(src, pos + 1, name, i - pos - 1);
    }
    NameRun(ent, src, Begin(pos), q);
    AfterTagName(ws, gap, empty);
    AtChar(src, q, rest, 0);
    NameDone(ent, src, Begin(pos).(p := q), name);
    ScanWrittenAttrs(
      ent, src, Begin(pos).(p := q, phase := AttrEnd, el := StartTag(name, [], false)), ws, gap, empty);
    assert [] + Meant(ent, ws) == Meant(ent, ws);
  }

  lemma AfterTagName(ws: seq<Written>, gap: string, empty: bool)
    requires AllBlank(gap) && forall i :: 0 <= i < |ws| ==> ws[i].Valid()
    ensures var rest := WriteAttrs(ws) + (gap + (if empty then "/>" else ">"));
      Blank(rest[0]) || rest[0] == '/' || rest[0] == '>'
  {
    hide IsQName;
    var tail := gap + (if empty then "/>" else ">");
    assert Blank(tail[0]) || tail[0] == '/' || tail[0] == '>';
    if ws != [] {
      assert ws[0].Valid() && WriteAttr(ws[0])[0] == ws[0].gap[0];
    }
  }

  // ---- what is tolerated, with a warning ----

  /** A character that stands for itself in a value without quotation marks. */
  predicate InUnquoted(c: char) {
    !Blank(c) && c !in {'=', '"', '\'', '/', '>'}
  }

  lemma {:induction false} UnquotedRun(ent: Entities, src: string, sc: Scan, to: nat)
    requires sc.phase == Unquoted && sc.p <= to <= |src| && forall i :: sc.p <= i < to ==> InUnquoted(src[i])
    ensures ScanFrom(ent, src, sc) == ScanFrom(ent, src, sc.(p := to))
    decreases |src| - sc.p
  {
    if sc.p < to {
      assert Turn(ent, src, sc) == Continue(sc.(p := sc.p + 1));
      UnquotedRun(ent, src, sc.(p := sc.p + 1), to);
    }
  }

  /** A value without quotation marks ends at white space or at the end of the tag. */
  lemma {:induction false} ScanUnquoted(ent: Entities, src: string, sc: Scan, raw: string)
    requires sc.phase == AfterEq && IsQName(sc.attrName) && raw != "" && forall i :: 0 <= i < |raw| ==> InUnquoted(raw[i])
    requires At(src, sc.p, raw) && sc.p + |raw| < |src|
    ensures var end, el := sc.p + |raw|, sc.el.(attrs := sc.el.attrs + [RawAttr(sc.attrName, Unescape(ent, raw))]);
      var reports := sc.reports + UnknownRefs(ent, raw) + 1;
      && (Blank(src[end]) ==>
            ScanFrom(ent, src, sc)
              == ScanFrom(ent, src, sc.(phase := TagSpace, start := sc.p, p := end + 1, el := el, reports := reports)))
      && (src[end] == '>' ==> ScanFrom(ent, src, sc) == Scanned(el, end, reports))
  {
    hide ScanFrom, IsQName, Unescape, UnknownRefs;
    forall i | sc.p <= i < sc.p + |raw| ensures InUnquoted(src[i]) {
      AtChar(src, sc.p, raw, i - sc.p);
    }
    var sc1 := sc.(phase := Unquoted, start := sc.p, p := sc.p + 1);
    Step(ent, src, sc, sc1);
    UnquotedRun(ent, src, sc1, sc.p + |raw|);
    var sc2 := sc1.(p := sc.p + |raw|);
    assert Slice(src, sc2.start, sc2.p) == raw;
    OneTurn(ent, src, sc2);
  }

  lemma OneTurn(ent: Entities, src: string, sc: Scan)
    ensures match Turn(ent, src, sc)
      case Continue(sc1) => ScanFrom(ent, src, sc) == ScanFrom(ent, src, sc1)
      case Stop(r) => ScanFrom(ent, src, sc) == r
  {
    hide Turn;
  }

  /** An attribute without a value has its name for a value. */
  lemma {:induction false} ScanBare(ent: Entities, src: string, sc: Scan, name: string)
    requires sc.phase == TagSpace && IsQName(name) && At(src, sc.p, name) && sc.p + |name| < |src|
    requires src[sc.p + |name|] == '>'
    ensures ScanFrom(ent, src, sc)
      == Scanned(sc.el.(attrs := sc.el.attrs + [RawAttr(name, name)]), sc.p + |name|, sc.reports + 1)
  {
    hide ScanFrom, IsQName, OfName, NameChar;
    ScanName(ent, src, sc, name);
    QNameChars(name);
    AtChar(src, sc.p, name, |name| - 1);
    NoSlash();
    var sc1 := sc.(phase := InAttr, start := sc.p, p := sc.p + |name|);
    assert Slice(src, sc1.start, sc1.p) == name;
    OneTurn(ent, src, sc1);
  }

  lemma NoSlash()
    ensures !OfName('/')
  {
  }

  // ---- scanning what the printer wrote ----

  /** The printer's way to write attributes. */
  function AsWritten(attrs: seq<Attr>): seq<Written> {
    if attrs == [] then []
    else [Written(" ", attrs[0].name, "", "", '"', Escape(attrs[0].value, true))] + AsWritten(attrs[1..])
  }

  lemma {:induction false} AsWrittenIs(ent: Entities, attrs: seq<Attr>)
    requires Predefined(ent) && forall i :: 0 <= i < |attrs| ==> IsQName(attrs[i].name)
    ensures forall i :: 0 <= i < |AsWritten(attrs)| ==> AsWritten(attrs)[i].Valid()
    ensures WriteAttrs(AsWritten(attrs)) == PrintAttrs(attrs)
    ensures Meant(ent, AsWritten(attrs)) == Raw(attrs) && Unknown(ent, AsWritten(attrs)) == 0
  {
    hide Escape, IsQName, Unescape, UnknownRefs;
    if attrs != [] {
      var a := attrs[0];
      var w := Written(" ", a.name, "", "", '"', Escape(a.value, true));
      assert "" + ("=" + WrittenValue(w)) == "=\"" + (w.raw + "\"") && WriteAttr(w) == PrintAttr(a);
      UnescapeEscape(ent, a.value, true);
      hide WriteAttr, PrintAttr;
      AsWrittenIs(ent, attrs[1..]);
    }
  }

  /** Reading back the attributes and the end of a printed start tag. */
  lemma {:induction false} ScanAttrs(ent: Entities, src: string, sc: Scan, attrs: seq<Attr>, empty: bool)
    requires Predefined(ent) && sc.phase == AttrEnd && !sc.el.closed
    requires forall i :: 0 <= i < |attrs| ==> IsQName(attrs[i].name)
    requires At(src, sc.p, PrintAttrs(attrs) + (if empty then "/>" else ">"))
    ensures ScanFrom(ent, src, sc)
         == Scanned(sc.el.(attrs := sc.el.attrs + Raw(attrs), closed := empty),
                    sc.p + |PrintAttrs(attrs)| + (if empty then 1 else 0), sc.reports)
  {
    hide ScanFrom, PrintAttrs, WriteAttrs, Meant, AsWritten, IsQName;
    AsWrittenIs(ent, attrs);
    var tail := if empty then "/>" else ">";
    assert "" + tail == tail;
    ScanWrittenAttrs(ent, src, sc, AsWritten(attrs), "", empty);
  }

  /** Reading back a printed start tag gives its name, its attributes in order, and whether it was self-closed. */
  lemma {:induction false} ScanOpen(ent: Entities, src: string, pos: nat, name: string, attrs: seq<Attr>, empty: bool)
    requires Predefined(ent) && IsQName(name)
    requires forall i :: 0 <= i < |attrs| ==> IsQName(attrs[i].name)
    requires At(src, pos, PrintOpen(name, attrs, empty))
    ensures ScanFrom(ent, src, Begin(pos))
         == Scanned(StartTag(name, Raw(attrs), empty), pos + |PrintOpen(name, attrs, empty)| - 1, 0)
  {
    hide ScanFrom, PrintAttrs, WriteAttrs, Meant, AsWritten, IsQName;
    AsWrittenIs(ent, attrs);
    var tail := if empty then "/>" else ">";
    assert "" + tail == tail;
    ScanTag(ent, src, pos, name, AsWritten(attrs), "", empty);
  }
}
