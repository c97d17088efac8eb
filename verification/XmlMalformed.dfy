/** What the parser makes of sources that are not well formed. */
module XmlMalformed {
  import opened Common
  import opened XmlText
  import opened XmlTree
  import opened XmlScanner
  import opened XmlParser

  /** Where no tag follows, the rest of the source is a text at the end of the document, unless it is white space. */
  lemma TextAtEnd(env: Env, src: string, st: State)
    requires st.start <= |src| && '<' !in src[st.start..]
    ensures Run(env, src, st)
      == Done(CloseAll(st.b) + (if AllSpace(src[st.start..]) then [] else [Text(src[st.start..])]), st.reports)
  {
    forall k: nat | st.start <= k ensures !At(src, k, "<") {
      AtOne(src, k, '<');
      assert k < |src| ==> src[k] == src[st.start..][k - st.start];
    }
    hide AllSpace, CloseAll;
    assert IndexOf(src, "<", st.start) == -1;
  }

  /** A source without tags is one text, or nothing if it is white space. */
  lemma NoTags(env: Env, src: string)
    requires src != [] && '<' !in src
    ensures Parse(env, src) == Some((if AllSpace(src) then [] else [Text(src)], 0))
  {
    assert src[EMPTY.start..] == src;
    TextAtEnd(env, src, EMPTY);
    hide AllSpace, Run;
    var doc := if AllSpace(src) then [] else [Text(src)];
    assert CloseAll(EMPTY.b) == [] && [] + doc == doc;
    OneText(src);
  }

  lemma OneText(data: string)
    ensures NormalizeList([]) == [] && NormalizeList([Text(data)]) == [Text(data)]
  {
  }

  /** Text is added with its references replaced, but never with more characters than it had in the source; before the
      first element it is dropped unless it is white space. */
  lemma TextKept(env: Env, src: string, st: State, end: nat)
    requires st.start < end <= |src|
    ensures var raw, st1 := src[st.start..end], AppendText(env, src, st, end);
      var all := Unescape(env.entities, raw);
      exists text :: text <= all && (|all| <= |raw| ==> text == all) && (|all| > |raw| ==> |text| == |raw|)
        && st1.b == if text != "" && (st.b.rootSeen || AllSpace(text)) then AppendAll(st.b, [Text(text)]) else st.b
    ensures AppendText(env, src, st, end).reports == st.reports + UnknownRefs(env.entities, src[st.start..end])
  {
    hide Unescape, UnknownRefs, AllSpace;
    var raw := src[st.start..end];
    var all := Unescape(env.entities, raw);
    var text := if |all| > |raw| then all[..|raw|] else all;
    assert text <= all;
  }

  lemma {:induction false} NoReferences(ent: Entities, s: string)
    requires '&' !in s
    ensures Unescape(ent, s) == s && UnknownRefs(ent, s) == 0
  {
    if s != [] {
      NoReferences(ent, s[1..]);
      PlainChar(ent, s[0], s[1..]);
      assert [s[0]] + s[1..] == s;
    }
  }

  /** A `<` from which no tag can be read is text. */
  lemma {:induction false} LooseBracket(env: Env, src: string, at: nat, st: State)
    requires at < |src| && st.start == at && src[at] == '<' && ReadTag(env, src, at, st).1 <= at
    ensures var next, st1 := ReadTag(env, src, at, st).0, PassAt(env, src, at, st);
      st1.start == at + 1 && st1.stack == next.stack && st1.reports == next.reports
      && st1.b == if next.b.rootSeen then AppendAll(next.b, [Text("<")]) else next.b
  {
    var next := ReadTag(env, src, at, st).0;
    assert src[at..at + 1] == "<" && !IsSpace("<"[0]);
    NoReferences(env.entities, "<");
    hide ReadTag;
    assert !AllSpace("<");
  }

  /** A tag that the scanner rejects opens nothing and is reported. */
  lemma RejectedTag(env: Env, src: string, at: nat, st: State)
    requires at < |src| && !(at + 1 < |src| && src[at + 1] in {'/', '?', '!'})
    requires ScanFrom(env.entities, src, Begin(at)).Thrown?
    ensures var (next, end) := ReadTag(env, src, at, st);
      end <= at && next.stack == st.stack && next.b == st.b && next.reports > st.reports
  {
    hide ScanFrom;
  }

  /** An end tag closes the current element exactly if its name is that of the element, or would be in lower case; all
      others leave the open elements as they are. Only the equal name lets the parser go on behind the tag unreported. */
  lemma EndTagCloses(env: Env, src: string, at: nat, st: State, name: string)
    requires At(src, at, CloseTag(name)) && st.stack != [] && '>' !in name && name != "" && !SpaceBeforeTag(name)
    ensures var top, n := st.stack[|st.stack| - 1], |st.stack| - 1;
      var (next, end) := ReadEndTag(env, src, at, st);
      && (next.stack == st.stack[..n] && next.b == EndElement(st.b)
          <==> name == top.name || (top.name != "" && env.lower(name) == env.lower(top.name)))
      && (next.stack == st.stack && next.b == st.b
          <==> name != top.name && (top.name == "" || env.lower(name) != env.lower(top.name)))
      && (end <= at <==> name != top.name && top.name != "" && env.lower(name) == env.lower(top.name))
      && (next.reports == st.reports <==> end > at)
      && (end > at ==> end == at + |CloseTag(name)|)
  {
    EndTagNameIs(src, at, name);
    hide EndTagName, EndElement;
  }

  lemma EndTagNameIs(src: string, at: nat, name: string)
    requires At(src, at, CloseTag(name)) && '>' !in name && name != "" && !SpaceBeforeTag(name)
    ensures EndTagName(src, at) == (name, at + 2 + |name|, 0)
  {
    AtSplit(src, at, "</", name + ">");
    AtSplit(src, at + 2, name, ">");
    InnerName(src, at, name);
    hide SpaceBeforeTag, At, IndexOf;
    assert src[at + 2..at + 2 + |name|] == name;
  }

  lemma InnerName(src: string, at: nat, name: string)
    requires At(src, at + 2, name) && At(src, at + 2 + |name|, ">") && '>' !in name && name != ""
    ensures IndexOf(src, ">", at + 3) == at + 2 + |name| && src[at + 2..at + 2 + |name|] == name
  {
    assert [name[0]] + name[1..] == name;
    AtSplit(src, at + 2, [name[0]], name[1..]);
    FirstOf(src, at + 3, name[1..], '>');
  }

  /** An end tag without `>` is reported; its name ends at the first white space or `<`, with the rest of that line cut
      out. */
  lemma EndTagUnended(src: string, at: nat, name: string, rest: string)
    requires At(src, at, "</" + (name + rest)) && at + 2 + |name + rest| == |src| && '>' !in src[at + 2..]
    requires (forall i :: 0 <= i < |name| ==> !IsSpace(name[i]) && name[i] != '<')
    requires rest == "" || IsSpace(rest[0]) || rest[0] == '<'
    requires forall i :: 0 < i < |rest| ==> rest[i] !in {'\n', '\r', '\U{2028}', '\U{2029}'}
    ensures EndTagName(src, at) == (name, at + 1 + |name|, 1)
  {
    AtSplit(src, at, "</", name + rest);
    assert src[at + 2..] == name + rest;
    forall k: nat | at + 3 <= k ensures !At(src, k, ">") {
      AtOne(src, k, '>');
      assert k < |src| ==> src[k] == src[at + 2..][k - at - 2];
    }
    hide IsSpace;
    CutIs(name, rest);
  }

  /** So is an end tag in which a `<` follows white space before the `>`. */
  lemma EndTagInterrupted(src: string, at: nat, end: nat, name: string, rest: string)
    requires at + 3 <= end < |src| && src[end] == '>' && '>' !in src[at + 3..end] && src[at + 2..end] == name + rest
    requires (forall i :: 0 <= i < |name| ==> !IsSpace(name[i]) && name[i] != '<') && SpaceBeforeTag(name + rest)
    requires rest != "" && (IsSpace(rest[0]) || rest[0] == '<')
    requires forall i :: 0 < i < |rest| ==> rest[i] !in {'\n', '\r', '\U{2028}', '\U{2029}'}
    ensures EndTagName(src, at) == (name, at + 1 + |name|, 1)
  {
    forall k: nat | at + 3 <= k < end ensures !At(src, k, ">") {
      AtOne(src, k, '>');
      assert src[k] == src[at + 3..end][k - at - 3];
    }
    AtOne(src, end, '>');
    IndexOfIs(src, ">", at + 3, end);
    hide IsSpace, SpaceBeforeTag, At;
    CutIs(name, rest);
  }

  lemma CutIs(name: string, rest: string)
    requires (forall i :: 0 <= i < |name| ==> !IsSpace(name[i]) && name[i] != '<')
    requires rest == "" || IsSpace(rest[0]) || rest[0] == '<'
    requires forall i :: 0 < i < |rest| ==> rest[i] !in {'\n', '\r', '\U{2028}', '\U{2029}'}
    ensures CutName(name + rest) == name
  {
    BreakIs(name, rest);
    var s, k := name + rest, |name|;
    assert s[..k] == name;
    if rest == "" {
      assert s == name;
    } else {
      assert s[k + 1..] == rest[1..];
      WholeLine(rest[1..]);
      assert name + "" == name;
    }
  }

  lemma {:induction false} BreakIs(name: string, rest: string)
    requires (forall i :: 0 <= i < |name| ==> !IsSpace(name[i]) && name[i] != '<')
    requires rest == "" || IsSpace(rest[0]) || rest[0] == '<'
    ensures FirstBreak(name + rest) == |name|
  {
    hide IsSpace;
    if name == "" {
      assert name + rest == rest;
    } else {
      assert (name + rest)[1..] == name[1..] + rest;
      BreakIs(name[1..], rest);
    }
  }

  lemma {:induction false} WholeLine(s: string)
    requires forall i :: 0 <= i < |s| ==> s[i] !in {'\n', '\r', '\U{2028}', '\U{2029}'}
    ensures LineLength(s) == |s|
  {
    if s != "" {
      WholeLine(s[1..]);
    }
  }

  /** A start tag for which no end tag is to come is taken as closed: at the first tag of a name, if and only if its end
      tag, complete or not, occurs nowhere from there on. */
  lemma UnclosedExactly(src: string, from: nat, name: string, closeAt: map<string, int>)
    requires name !in closeAt
    ensures FixSelfClosed(src, from, name, closeAt).0 <==> forall k: nat :: from <= k ==> !At(src, k, "</" + name)
  {
    forall k: nat | At(src, k, CloseTag(name)) ensures At(src, k, "</" + name) {
      assert CloseTag(name) == ("</" + name) + ">";
      AtSplit(src, k, "</" + name, ">");
    }
    hide At;
  }

  /** A comment that is not ended adds nothing and is reported. */
  lemma UnclosedComment(env: Env, src: string, at: nat, st: State)
    requires At(src, at, "<!--") && forall k: nat :: at + 4 <= k ==> !At(src, k, "-->")
    ensures ReadTag(env, src, at, st) == (Reported(st, 1), -1)
  {
    AtChar(src, at, "<!--", 1);
    AtChar(src, at, "<!--", 2);
    AtChar(src, at, "<!--", 3);
    hide At;
  }

  /** A CDATA section that is not ended adds nothing, unreported, and leads to the third character of the source. */
  lemma UnclosedCData(env: Env, src: string, at: nat, st: State)
    requires At(src, at, "<![CDATA[") && forall k: nat :: at + 9 <= k ==> !At(src, k, "]]>")
    ensures ReadTag(env, src, at, st) == (st, 2)
  {
    AtChar(src, at, "<![CDATA[", 1);
    AtChar(src, at, "<![CDATA[", 2);
    assert "<![" + "CDATA[" == "<![CDATA[";
    AtSplit(src, at, "<![", "CDATA[");
    hide At;
    assert st == st.(b := Characters(st.b, "", true));
  }

  /** `<!-` without a second dash adds nothing, unreported. */
  lemma OneDash(env: Env, src: string, at: nat, st: State)
    requires At(src, at, "<!-") && !At(src, at, "<!--")
    ensures ReadTag(env, src, at, st) == (st, -1)
  {
    AtChar(src, at, "<!-", 1);
    AtChar(src, at, "<!-", 2);
    assert "<!-" + "-" == "<!--";
    AtSplit(src, at, "<!-", "-");
    AtOne(src, at + 3, '-');
    hide At;
  }

  /** Later tags of the name are judged by what was found at the first one: by the complete end tags if there was one to
      come, by the incomplete ones otherwise. */
  lemma UnclosedLater(src: string, from: nat, later: nat, name: string, closeAt: map<string, int>)
    requires name !in closeAt
    ensures var complete := exists k: nat :: from <= k && At(src, k, CloseTag(name));
      var memory, pattern := FixSelfClosed(src, from, name, closeAt).1, if complete then CloseTag(name) else "</" + name;
      FixSelfClosed(src, later, name, memory) == (forall k: nat :: later <= k ==> !At(src, k, pattern), memory)
  {
    hide At, CloseTag;
    var pos := LastIndexOf(src, CloseTag(name));
    assert pos >= from <==> exists k: nat :: from <= k && At(src, k, CloseTag(name));
  }

  // ---- elements that are still open at the end ----

  /** The open elements from the `k`-th on, each the last child of the one before. */
  function Nested(path: seq<Frame>, k: nat): Node
    requires k < |path|
    decreases |path| - k
  {
    var last := if k + 1 < |path| then [Nested(path, k + 1)] else [];
    Element(path[k].name, path[k].uri, path[k].attrs, path[k].kids + last)
  }

  /** At the end of the source no open element is lost: they stay where they are, with all their children. */
  lemma {:induction false} StillOpen(b: Builder)
    ensures CloseAll(b) == b.doc + (if b.path == [] then [] else [Nested(b.path, 0)])
    decreases |b.path|
  {
    var n := |b.path|;
    if n == 0 {
      assert b.doc + [] == b.doc;
    } else {
      StillOpen(EndElement(b));
      if n > 1 {
        NestedEnd(b.path, EndElement(b).path, 0);
      } else {
        assert b.path[0].kids + [] == b.path[0].kids;
      }
    }
  }

  lemma {:induction false} NestedEnd(path: seq<Frame>, less: seq<Frame>, k: nat)
    requires |less| + 1 == |path| && k < |less|
    requires var n := |less|; var top := path[n];
      less == path[..n - 1] + [path[n - 1].(kids := path[n - 1].kids + [Element(top.name, top.uri, top.attrs, top.kids)])]
    ensures Nested(less, k) == Nested(path, k)
    decreases |path| - k
  {
    var n := |less|;
    if k < n - 1 {
      NestedEnd(path, less, k + 1);
    } else {
      assert path[n].kids + [] == path[n].kids && less[k].kids + [] == less[k].kids;
    }
  }
}
