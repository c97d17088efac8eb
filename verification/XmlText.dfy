/** String searching and the entity escaping used by the XML printer and parser. */
module XmlText {
  import opened Common

  // ---- occurrences ----

  /** `pat` occurs in `s` at position `k`. */
  predicate At(s: string, k: nat, pat: string) {
    k + |pat| <= |s| && s[k..k + |pat|] == pat
  }

  /** `s.indexOf(pat, from)`. */
  function IndexOf(s: string, pat: string, from: nat): (r: int)
    ensures r == -1 || (from <= r && At(s, r, pat))
    ensures forall k: nat :: from <= k && (r == -1 || k < r) ==> !At(s, k, pat)
    decreases |s| - from
  {
    if from + |pat| > |s| then -1
    else if At(s, from, pat) then from
    else IndexOf(s, pat, from + 1)
  }

  /** The greatest occurrence of `pat` that starts before `bound`. */
  function LastBefore(s: string, pat: string, bound: nat): (r: int)
    ensures r == -1 || (0 <= r < bound && At(s, r, pat))
    ensures forall k: nat :: r < k < bound ==> !At(s, k, pat)
  {
    if bound == 0 then -1
    else if At(s, bound - 1, pat) then bound - 1
    else LastBefore(s, pat, bound - 1)
  }

  /** `s.lastIndexOf(pat)`. */
  function LastIndexOf(s: string, pat: string): (r: int)
    ensures r == -1 || (0 <= r && At(s, r, pat))
    ensures forall k: nat :: At(s, k, pat) ==> k <= r
  {
    LastBefore(s, pat, |s| + 1)
  }

  lemma AtSplit(s: string, k: nat, a: string, b: string)
    ensures At(s, k, a + b) <==> At(s, k, a) && At(s, k + |a|, b)
  {
    if At(s, k, a + b) {
      assert s[k..k + |a|] == s[k..k + |a + b|][..|a|] == a;
      assert s[k + |a|..k + |a| + |b|] == s[k..k + |a + b|][|a|..] == b;
    }
    if At(s, k, a) && At(s, k + |a|, b) {
      assert s[k..k + |a + b|] == s[k..k + |a|] + s[k + |a|..k + |a| + |b|];
    }
  }

  lemma AtChar(s: string, k: nat, pat: string, i: nat)
    requires At(s, k, pat) && i < |pat|
    ensures s[k + i] == pat[i]
  {
    assert s[k..k + |pat|][i] == s[k + i];
  }

  /** A one-character pattern occurs exactly where that character stands. */
  lemma AtOne(s: string, k: nat, c: char)
    ensures At(s, k, [c]) <==> k < |s| && s[k] == c
  {
    if k < |s| {
      assert s[k..k + 1] == [s[k]];
    }
  }

  /** The search result is pinned down by one occurrence with none before it. */
  lemma IndexOfIs(s: string, pat: string, from: nat, k: nat)
    requires from <= k && At(s, k, pat)
    requires forall j: nat :: from <= j < k ==> !At(s, j, pat)
    ensures IndexOf(s, pat, from) == k
  {
    var r := IndexOf(s, pat, from);
    assert r != -1 && r <= k;
  }

  // ---- character classes of the regular expressions ----

  /** `\s` */
  predicate IsSpace(c: char) {
    '\t' <= c <= '\r' || c == ' ' || c == '\U{A0}' || c == '\U{1680}' || '\U{2000}' <= c <= '\U{200A}'
    || c == '\U{2028}' || c == '\U{2029}' || c == '\U{202F}' || c == '\U{205F}' || c == '\U{3000}' || c == '\U{FEFF}'
  }

  /** `\w` */
  predicate IsWord(c: char) {
    'a' <= c <= 'z' || 'A' <= c <= 'Z' || '0' <= c <= '9' || c == '_'
  }

  predicate AllSpace(s: string) {
    forall i :: 0 <= i < |s| ==> IsSpace(s[i])
  }

  // ---- escaping ----

  /** The reference name that `_xmlEncoder` gives a character under the pattern `[<&]`, or `[<&"]` when `quoted`;
      empty for a character that is left alone. */
  function RefName(c: char, quoted: bool): (name: string)
    ensures forall i :: 0 <= i < |name| ==> IsWord(name[i])
  {
    if c == '<' then "lt"
    else if c == '&' then "amp"
    else if quoted && c == '"' then "quot"
    else ""
  }

  function EscapeChar(c: char, quoted: bool): (r: string)
    ensures r != "" && '<' !in r && (quoted ==> '"' !in r)
  {
    var name := RefName(c, quoted);
    if name == "" then [c] else "&" + (name + ";")
  }

  function Escape(s: string, quoted: bool): (r: string)
    ensures |s| <= |r|
    ensures '<' !in r
    ensures quoted ==> '"' !in r
  {
    if s == [] then [] else EscapeChar(s[0], quoted) + Escape(s[1..], quoted)
  }

  lemma {:induction false} EscapeConcat(a: string, b: string, quoted: bool)
    ensures Escape(a + b, quoted) == Escape(a, quoted) + Escape(b, quoted)
  {
    if a == [] {
      assert a + b == b;
    } else {
      assert (a + b)[0] == a[0] && (a + b)[1..] == a[1..] + b;
      EscapeConcat(a[1..], b, quoted);
    }
  }

  /** Character by character: the marks that would be read as markup are written as their references, every other
      character as it is, and quotation marks only in attribute values. */
  lemma EscapeOne(c: char, quoted: bool)
    ensures Escape([c], quoted)
      == if c == '<' then "&lt;" else if c == '&' then "&amp;" else if c == '"' && quoted then "&quot;" else [c]
  {
    assert [c][1..] == [] && Escape([], quoted) == [];
    assert Escape([c], quoted) == EscapeChar(c, quoted) + [] == EscapeChar(c, quoted);
  }

  /** A string is written as it is exactly if it has none of these marks. */
  lemma {:induction false} EscapeFixed(s: string, quoted: bool)
    ensures Escape(s, quoted) == s <==> '<' !in s && '&' !in s && !(quoted && '"' in s)
  {
    if s != [] {
      EscapeFixed(s[1..], quoted);
      EscapeOne(s[0], quoted);
      EscapeConcat([s[0]], s[1..], quoted);
      assert [s[0]] + s[1..] == s;
      var first, rest := Escape([s[0]], quoted), Escape(s[1..], quoted);
      assert Escape(s, quoted) == first + rest && |rest| >= |s| - 1;
      hide Escape;
      if first == [s[0]] {
        assert (first + rest)[1..] == rest;
      } else {
        assert |first + rest| > |s|;
      }
    }
  }

  // ---- references: the replacement of  &#?\w+;  ----

  /** What a reference stands for, keyed by the text between `&` and `;`. */
  type Entities = string -> Option<string>

  function WordRun(s: string): (n: nat)
    ensures n <= |s|
  {
    if s != [] && IsWord(s[0]) then 1 + WordRun(s[1..]) else 0
  }

  /** The length of the reference that `s` starts with, or 0 if it starts with none. */
  function RefLen(s: string): (n: nat)
    ensures n == 0 || 3 <= n <= |s|
  {
    if |s| < 3 || s[0] != '&' then 0
    else
      var j := if s[1] == '#' then 2 else 1;
      var k := j + WordRun(s[j..]);
      if k > j && k < |s| && s[k] == ';' then k + 1 else 0
  }

  /** The first `n` characters match the pattern. */
  predicate IsRef(s: string, n: nat) {
    3 <= n <= |s| && s[0] == '&' && s[n - 1] == ';'
    && (s[1] == '#' ==> n > 3)
    && forall i :: (if s[1] == '#' then 2 else 1) <= i < n - 1 ==> IsWord(s[i])
  }

  lemma {:induction false} WordRunIs(s: string)
    ensures forall i :: 0 <= i < WordRun(s) ==> IsWord(s[i])
    ensures WordRun(s) < |s| ==> !IsWord(s[WordRun(s)])
  {
    if s != [] && IsWord(s[0]) {
      WordRunIs(s[1..]);
      assert forall i :: 1 <= i < |s| ==> s[i] == s[1..][i - 1];
    }
  }

  /** The search at a position finds the one match there is. */
  lemma RefLenIs(s: string)
    ensures RefLen(s) > 0 ==> IsRef(s, RefLen(s))
    ensures forall n :: IsRef(s, n) ==> RefLen(s) == n
  {
    if |s| >= 3 {
      var j := if s[1] == '#' then 2 else 1;
      var k := j + WordRun(s[j..]);
      WordRunIs(s[j..]);
      assert forall i :: j <= i < |s| ==> s[i] == s[j..][i - j];
      assert !IsWord(';');
      forall n: nat | IsRef(s, n) ensures n == k + 1 {
        assert forall i :: j <= i < n - 1 ==> IsWord(s[i]);
      }
    }
  }

  /** The replacement of one reference; an unknown one stands for itself. */
  function Replacement(ent: Entities, ref: string): string
    requires |ref| >= 3
  {
    match ent(ref[1..|ref| - 1])
    case Some(text) => text
    case None => ref
  }

  /** Every reference is replaced by what the entity table has for it. */
  function Unescape(ent: Entities, s: string): string {
    if s == [] then []
    else
      var n := RefLen(s);
      if n > 0 then Replacement(ent, s[..n]) + Unescape(ent, s[n..])
      else [s[0]] + Unescape(ent, s[1..])
  }

  /** How many "entity not found" errors that replacement reports. */
  function UnknownRefs(ent: Entities, s: string): nat {
    if s == [] then 0
    else
      var n := RefLen(s);
      if n > 0 then (if ent(s[1..n - 1]) == None then 1 else 0) + UnknownRefs(ent, s[n..])
      else UnknownRefs(ent, s[1..])
  }

  /** A match is replaced by its entry, and stands for itself, with a report, if it has none. */
  lemma UnescapeRef(ent: Entities, ref: string, rest: string)
    requires IsRef(ref, |ref|)
    ensures match ent(ref[1..|ref| - 1])
      case Some(text) => Unescape(ent, ref + rest) == text + Unescape(ent, rest)
                         && UnknownRefs(ent, ref + rest) == UnknownRefs(ent, rest)
      case None => Unescape(ent, ref + rest) == ref + Unescape(ent, rest)
                   && UnknownRefs(ent, ref + rest) == UnknownRefs(ent, rest) + 1
  {
    var s, n := ref + rest, |ref|;
    RefLenIs(s);
    assert IsRef(s, n);
    assert s[..n] == ref && s[n..] == rest && s[1..n - 1] == ref[1..n - 1];
  }

  /** Where no match starts, the character stands for itself. */
  lemma UnescapeOther(ent: Entities, s: string)
    requires s != [] && forall n :: 3 <= n <= |s| ==> !IsRef(s, n)
    ensures Unescape(ent, s) == [s[0]] + Unescape(ent, s[1..]) && UnknownRefs(ent, s) == UnknownRefs(ent, s[1..])
  {
    RefLenIs(s);
  }

  /** The entity table leads back from every name that the printer uses. */
  ghost predicate Predefined(ent: Entities) {
    forall c, quoted :: RefName(c, quoted) != "" ==> ent(RefName(c, quoted)) == Some([c])
  }

  /** Both tables of the source, the XML one and the HTML one, have the three names this needs. */
  lemma StandardTable(ent: Entities)
    requires ent("lt") == Some("<") && ent("amp") == Some("&") && ent("quot") == Some("\"")
    ensures Predefined(ent)
  {
    forall c, quoted | RefName(c, quoted) != "" ensures ent(RefName(c, quoted)) == Some([c]) {
      assert [c] == if c == '<' then "<" else if c == '&' then "&" else "\"";
    }
  }

  /** A reference that the entity table knows is replaced as a whole. */
  lemma KnownRef(ent: Entities, name: string, text: string, rest: string)
    requires name != "" && (forall i :: 0 <= i < |name| ==> IsWord(name[i])) && ent(name) == Some(text)
    ensures Unescape(ent, "&" + (name + ";") + rest) == text + Unescape(ent, rest)
    ensures UnknownRefs(ent, "&" + (name + ";") + rest) == UnknownRefs(ent, rest)
  {
    var ref := "&" + (name + ";");
    assert ref[1] == name[0] && forall i :: 1 <= i <= |name| ==> ref[i] == name[i - 1];
    assert ref[1..|ref| - 1] == name;
    UnescapeRef(ent, ref, rest);
  }

  /** A character other than `&` stands for itself. */
  lemma PlainChar(ent: Entities, c: char, rest: string)
    requires c != '&'
    ensures Unescape(ent, [c] + rest) == [c] + Unescape(ent, rest)
    ensures UnknownRefs(ent, [c] + rest) == UnknownRefs(ent, rest)
  {
    assert RefLen([c] + rest) == 0;
    assert ([c] + rest)[1..] == rest;
  }

  lemma EscapeNothing(ent: Entities, quoted: bool)
    ensures Unescape(ent, Escape([], quoted)) == [] && UnknownRefs(ent, Escape([], quoted)) == 0
  {
  }

  /** Unescaping undoes escaping, with no unknown reference on the way, for every string. */
  lemma {:induction false} UnescapeEscape(ent: Entities, s: string, quoted: bool)
    requires Predefined(ent)
    ensures Unescape(ent, Escape(s, quoted)) == s
    ensures UnknownRefs(ent, Escape(s, quoted)) == 0
  {
    hide Unescape, UnknownRefs;
    if s == [] {
      EscapeNothing(ent, quoted);
    } else {
      var name, rest := RefName(s[0], quoted), Escape(s[1..], quoted);
      UnescapeEscape(ent, s[1..], quoted);
      if name == "" {
        PlainChar(ent, s[0], rest);
      } else {
        KnownRef(ent, name, [s[0]], rest);
      }
      assert [s[0]] + s[1..] == s;
    }
  }
}
