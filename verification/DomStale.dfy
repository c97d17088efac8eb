/** Inserting a node that was removed before. A removed node keeps its parent and sibling pointers, and both insertions
    begin by removing the new child from the parent that it names. */
module DomStale {
  import opened DomTree

  // ---- chains of pointers ----

  /** The values of one pointer field over a world of nodes. */
  type Links = map<DomNode, DomNode?>

  function Next(ns: seq<DomNode>, i: int, otherwise: DomNode?): DomNode? {
    if 0 <= i < |ns| then ns[i] else otherwise
  }

  predicate Points(link: Links, n: DomNode, to: DomNode?) {
    n in link && link[n] == to
  }

  /** `ns` starts a chain that goes on with `end`. */
  ghost predicate Path(link: Links, ns: seq<DomNode>, end: DomNode?) {
    forall i :: 0 <= i < |ns| ==> Points(link, ns[i], Next(ns, i + 1, end))
  }

  /** Following the pointers from `from` passes the nodes `ns` and ends. */
  ghost predicate Chain(link: Links, from: DomNode?, older ns: seq<DomNode>) {
    from == Next(ns, 0, null) && Path(link, ns, null)
  }

  lemma PathTail(link: Links, ns: seq<DomNode>, end: DomNode?, i: nat)
    requires Path(link, ns, end) && i <= |ns|
    ensures Path(link, ns[i..], end)
  {
    hide Points;
    forall k | 0 <= k < |ns| - i ensures Points(link, ns[i..][k], Next(ns[i..], k + 1, end)) {
      assert ns[i..][k] == ns[i + k] && Next(ns[i..], k + 1, end) == Next(ns, i + k + 1, end);
    }
  }

  lemma ChainTail(link: Links, from: DomNode?, ns: seq<DomNode>, i: nat)
    requires Chain(link, from, ns) && i < |ns|
    ensures Chain(link, ns[i], ns[i..])
    ensures ns[i] in link && Chain(link, link[ns[i]], ns[i + 1..])
  {
    PathTail(link, ns, null, i);
    PathTail(link, ns, null, i + 1);
    assert Points(link, ns[i], Next(ns, i + 1, null));
  }

  lemma {:induction false} ChainUnique(link: Links, from: DomNode?, ns: seq<DomNode>, ms: seq<DomNode>)
    requires Chain(link, from, ns) && Chain(link, from, ms)
    ensures ns == ms
    decreases |ns|
  {
    if ns != [] && ms != [] {
      ChainTail(link, from, ns, 0);
      ChainTail(link, from, ms, 0);
      ChainUnique(link, link[ns[0]], ns[1..], ms[1..]);
      assert ns == [ns[0]] + ns[1..] && ms == [ms[0]] + ms[1..];
    }
  }

  /** A chain that ends does not pass a node twice. */
  lemma ChainDistinct(link: Links, from: DomNode?, ns: seq<DomNode>, i: nat, j: nat)
    requires Chain(link, from, ns) && i < j < |ns|
    ensures ns[i] != ns[j]
  {
    if ns[i] == ns[j] {
      ChainTail(link, from, ns, i);
      ChainTail(link, from, ns, j);
      ChainUnique(link, ns[i], ns[i..], ns[j..]);
      assert false;
    }
  }

  lemma {:induction false} AlongPath(link: Links, cs: seq<DomNode>, next: DomNode?, ns: seq<DomNode>)
    requires Path(link, cs, next) && Chain(link, Next(cs, 0, next), ns)
    ensures |cs| <= |ns| && cs == ns[..|cs|] && Chain(link, next, ns[|cs|..])
    decreases |cs|
  {
    if cs == [] {
      assert ns[0..] == ns;
    } else {
      ChainTail(link, cs[0], ns, 0);
      PathTail(link, cs, next, 1);
      assert Points(link, cs[0], Next(cs, 1, next));
      AlongPath(link, cs[1..], next, ns[1..]);
      assert ns[1..][|cs| - 1..] == ns[|cs|..];
      assert cs == [cs[0]] + cs[1..];
    }
  }

  /** A path that comes back to one of its own nodes never ends. */
  lemma NeverEnds(link: Links, cs: seq<DomNode>, j: nat, ns: seq<DomNode>)
    requires j < |cs| && Path(link, cs, cs[j])
    ensures !Chain(link, cs[0], ns)
  {
    if Chain(link, cs[0], ns) {
      AlongPath(link, cs, cs[j], ns);
      PathTail(link, cs, cs[j], j);
      AlongPath(link, cs[j..], cs[j], ns[|cs|..]);
      ChainUnique(link, cs[j], ns[|cs|..], ns[|cs|..][|cs| - j..]);
      assert false;
    }
  }

  // ---- the world as tables of pointers ----

  ghost function Nexts(world: set<DomNode>): Links
    reads world`nextSibling
  {
    map n | n in world :: n.nextSibling
  }

  ghost function Prevs(world: set<DomNode>): Links
    reads world`previousSibling
  {
    map n | n in world :: n.previousSibling
  }

  ghost function Firsts(world: set<DomNode>): Links
    reads world`firstChild
  {
    map n | n in world :: n.firstChild
  }

  ghost function Lasts(world: set<DomNode>): Links
    reads world`lastChild
  {
    map n | n in world :: n.lastChild
  }

  /** All four at once. */
  datatype Pointers = Pointers(nexts: Links, firsts: Links, prevs: Links, lasts: Links)

  ghost function Now(world: set<DomNode>): Pointers
    reads world`firstChild, world`lastChild, world`nextSibling, world`previousSibling
  {
    Pointers(Nexts(world), Firsts(world), Prevs(world), Lasts(world))
  }

  /** After the removal of a node between `previous` and `next` from the parent `cp`. */
  function Cut(s: Pointers, cp: DomNode, previous: DomNode?, next: DomNode?): Pointers {
    Pointers(CutLink(s.nexts, previous, next), CutEnds(s.firsts, cp, previous, next),
             CutLink(s.prevs, next, previous), CutEnds(s.lasts, cp, next, previous))
  }

  /** After linking `c` under `p`, between `pre` and `ref`. */
  function Join(s: Pointers, p: DomNode, c: DomNode, pre: DomNode?, ref: DomNode?): Pointers {
    Pointers(JoinLink(s.nexts, c, pre, ref), JoinEnds(s.firsts, p, c, pre),
             JoinLink(s.prevs, c, ref, pre), JoinEnds(s.lasts, p, c, ref))
  }

  type Lists = map<DomNode, seq<DomNode>>

  ghost function KidsOf(world: set<DomNode>): Lists
    reads world`kids
  {
    map n | n in world :: n.kids
  }

  function Reversed(ns: seq<DomNode>): (r: seq<DomNode>)
    ensures |r| == |ns| && forall i :: 0 <= i < |ns| ==> r[i] == ns[|ns| - 1 - i]
  {
    seq(|ns|, i requires 0 <= i < |ns| => ns[|ns| - 1 - i])
  }

  function Reverses(lists: Lists): Lists {
    map q | q in lists :: Reversed(lists[q])
  }

  /** Every list is the chain from its end, in one direction. */
  ghost predicate AllChains(ends: Links, link: Links, lists: Lists) {
    forall q :: q in lists ==> q in ends && Chain(link, ends[q], lists[q])
  }

  /** No node is at two places. */
  ghost predicate OncePlaced(lists: Lists) {
    forall q, i, r, j :: q in lists && r in lists && 0 <= i < |lists[q]| && 0 <= j < |lists[r]| && (q != r || i != j) ==>
      lists[q][i] != lists[r][j]
  }

  ghost predicate InList(lists: Lists, n: DomNode?) {
    exists q, i :: q in lists && 0 <= i < |lists[q]| && lists[q][i] == n
  }

  // ---- one direction of an insertion ----

  /** The removal: `a` is tied to `b`, or the end of the list of `cp` if there is no `a`. */
  function CutEnds(ends: Links, cp: DomNode, a: DomNode?, b: DomNode?): Links {
    if a == null then ends[cp := b] else ends
  }

  function CutLink(link: Links, a: DomNode?, b: DomNode?): Links {
    if a == null then link else link[a := b]
  }

  /** The linking of `c` between `before` and `after`. */
  function JoinEnds(ends: Links, p: DomNode, c: DomNode, before: DomNode?): Links {
    if before == null then ends[p := c] else ends
  }

  function JoinLink(link: Links, c: DomNode, before: DomNode?, after: DomNode?): Links {
    if before == null then link[c := after] else link[c := after][before := c]
  }

  /** The removal writes where the linking writes again, or what was there already, or to a node in no list. */
  ghost predicate Harmless(ends: Links, link: Links, lists: Lists, p: DomNode, cp: DomNode,
                           a: DomNode?, b: DomNode?, before: DomNode?)
    requires cp in ends && (a != null ==> a in link)
  {
    if a == null then (before == null && cp == p) || ends[cp] == b
    else a == before || link[a] == b || !InList(lists, a)
  }

  lemma Untouched(link: Links, c: DomNode, a: DomNode?, b: DomNode?, before: DomNode?, after: DomNode?,
                  n: DomNode, to: DomNode?)
    requires Points(link, n, to) && n != c && n != before && (n == a ==> to == b)
    ensures Points(JoinLink(CutLink(link, a, b), c, before, after), n, to)
  {
  }

  lemma Joined(link: Links, c: DomNode, a: DomNode?, b: DomNode?, before: DomNode?, after: DomNode?)
    requires c != before
    ensures Points(JoinLink(CutLink(link, a, b), c, before, after), c, after)
    ensures before != null ==> Points(JoinLink(CutLink(link, a, b), c, before, after), before, c)
  {
  }

  /** Where a listed node stands. */
  lemma PlaceOf(ends: Links, link: Links, lists: Lists, q: DomNode, i: nat)
    requires AllChains(ends, link, lists) && q in lists && i < |lists[q]|
    ensures Points(link, lists[q][i], Next(lists[q], i + 1, null)) && InList(lists, lists[q][i])
  {
    hide Points;
  }

  /** A harmless removal changes no listed node but the one before the gap. */
  lemma ListedKeeps(ends: Links, link: Links, lists: Lists, p: DomNode, cp: DomNode, a: DomNode?, b: DomNode?,
                    before: DomNode?, n: DomNode, to: DomNode?)
    requires cp in ends && (a != null ==> a in link) && Harmless(ends, link, lists, p, cp, a, b, before)
    requires InList(lists, n) && Points(link, n, to) && n != before
    ensures n == a ==> to == b
  {
    hide InList;
  }

  lemma OtherStays(ends: Links, link: Links, lists: Lists, p: DomNode, cp: DomNode, c: DomNode, a: DomNode?, b: DomNode?,
                   before: DomNode?, after: DomNode?, q: DomNode)
    requires AllChains(ends, link, lists) && OncePlaced(lists) && q in lists && p in lists && q != p && cp in lists
    requires c in link && !InList(lists, c) && (a != null ==> a in link)
    requires before == null || before in lists[p]
    requires Harmless(ends, link, lists, p, cp, a, b, before)
    ensures q in JoinEnds(CutEnds(ends, cp, a, b), p, c, before)
    ensures Chain(JoinLink(CutLink(link, a, b), c, before, after),
                  JoinEnds(CutEnds(ends, cp, a, b), p, c, before)[q], lists[q])
  {
    var l2, ks := JoinLink(CutLink(link, a, b), c, before, after), lists[q];
    hide JoinLink, CutLink, Points, InList;
    forall i | 0 <= i < |ks| ensures Points(l2, ks[i], Next(ks, i + 1, null)) {
      PlaceOf(ends, link, lists, q, i);
      if before != null {
        var j :| 0 <= j < |lists[p]| && lists[p][j] == before;
        assert lists[q][i] != lists[p][j];
      }
      ListedKeeps(ends, link, lists, p, cp, a, b, before, ks[i], Next(ks, i + 1, null));
      Untouched(link, c, a, b, before, after, ks[i], Next(ks, i + 1, null));
    }
    assert Chain(link, ends[q], ks);
  }

  /** Where the nodes of a list stand once `c` is in it. */
  lemma Grown(left: seq<DomNode>, right: seq<DomNode>, c: DomNode, i: nat)
    requires i < |left| + 1 + |right| && i != |left|
    ensures var ks, j := left + [c] + right, if i < |left| then i else i - 1;
      ks[i] == (left + right)[j] && (i + 1 != |left| ==> Next(ks, i + 1, null) == Next(left + right, j + 1, null))
  {
  }

  lemma OwnGrows(ends: Links, link: Links, lists: Lists, p: DomNode, cp: DomNode, c: DomNode, a: DomNode?, b: DomNode?,
                 left: seq<DomNode>, right: seq<DomNode>)
    requires AllChains(ends, link, lists) && OncePlaced(lists) && p in lists && cp in lists && lists[p] == left + right
    requires c in link && !InList(lists, c) && (a != null ==> a in link)
    requires Harmless(ends, link, lists, p, cp, a, b, Last(left, null))
    ensures Path(JoinLink(CutLink(link, a, b), c, Last(left, null), First(right, null)), left + [c] + right, null)
  {
    var before, after := Last(left, null), First(right, null);
    var l2, ks := JoinLink(CutLink(link, a, b), c, before, after), left + [c] + right;
    BeforeIs(ends, link, lists, p, c, left, right);
    Joined(link, c, a, b, before, after);
    hide JoinLink, CutLink, Points, InList, AllChains, Harmless;
    forall i | 0 <= i < |ks| ensures Points(l2, ks[i], Next(ks, i + 1, null)) {
      if i == |left| {
        assert ks[i] == c && Next(ks, i + 1, null) == after;
      } else if i == |left| - 1 {
        assert ks[i] == left[|left| - 1] && Next(ks, i + 1, null) == c;
      } else {
        var j := if i < |left| then i else i - 1;
        Grown(left, right, c, i);
        PlaceOf(ends, link, lists, p, j);
        assert lists[p][j] != before;
        ListedKeeps(ends, link, lists, p, cp, a, b, before, ks[i], Next(ks, i + 1, null));
        Untouched(link, c, a, b, before, after, ks[i], Next(ks, i + 1, null));
      }
    }
  }

  /** The node before the gap is listed once, and not `c`. */
  lemma BeforeIs(ends: Links, link: Links, lists: Lists, p: DomNode, c: DomNode, left: seq<DomNode>, right: seq<DomNode>)
    requires AllChains(ends, link, lists) && OncePlaced(lists) && p in lists && lists[p] == left + right && !InList(lists, c)
    ensures Last(left, null) != c && (left != [] ==> Last(left, null) == left[|left| - 1])
    ensures forall j :: 0 <= j < |lists[p]| && j != |left| - 1 ==> lists[p][j] != Last(left, null)
    ensures forall j :: 0 <= j < |lists[p]| ==> lists[p][j] != c
  {
    if left != [] {
      PlaceOf(ends, link, lists, p, |left| - 1);
      assert lists[p][|left| - 1] == Last(left, null);
    }
    forall j | 0 <= j < |lists[p]| ensures lists[p][j] != c {
      PlaceOf(ends, link, lists, p, j);
    }
  }

  lemma OwnEnd(ends: Links, link: Links, lists: Lists, p: DomNode, cp: DomNode, c: DomNode, a: DomNode?, b: DomNode?,
               left: seq<DomNode>, right: seq<DomNode>)
    requires AllChains(ends, link, lists) && p in lists && cp in lists && lists[p] == left + right
    requires a != null ==> a in link
    requires Harmless(ends, link, lists, p, cp, a, b, Last(left, null))
    ensures var e2 := JoinEnds(CutEnds(ends, cp, a, b), p, c, Last(left, null));
      p in e2 && e2[p] == Next(left + [c] + right, 0, null)
  {
    assert Chain(link, ends[p], lists[p]);
    hide Path;
    if left != [] {
      assert (left + [c] + right)[0] == left[0] == (left + right)[0];
    }
  }

  /** The other half: a harmful removal leaves a list that is not its chain. */
  lemma HarmAtEnd(ends: Links, link: Links, lists: Lists, p: DomNode, cp: DomNode, c: DomNode, b: DomNode?,
                  left: seq<DomNode>, right: seq<DomNode>)
    requires AllChains(ends, link, lists) && p in lists && cp in lists && lists[p] == left + right
    requires !(Last(left, null) == null && cp == p) && ends[cp] != b
    ensures var e2 := JoinEnds(CutEnds(ends, cp, null, b), p, c, Last(left, null));
      cp in e2 && e2[cp] != Next(lists[p := left + [c] + right][cp], 0, null)
  {
    assert Chain(link, ends[cp], lists[cp]);
    hide Path;
    if cp == p {
      assert (left + [c] + right)[0] == left[0] == (left + right)[0];
    }
  }

  lemma HarmAtNode(ends: Links, link: Links, lists: Lists, p: DomNode, c: DomNode, a: DomNode, b: DomNode?,
                   left: seq<DomNode>, right: seq<DomNode>, q: DomNode, i: nat)
    requires AllChains(ends, link, lists) && OncePlaced(lists) && p in lists && lists[p] == left + right
    requires !InList(lists, c) && q in lists && i < |lists[q]| && lists[q][i] == a
    requires a in link && link[a] != b && a != Last(left, null)
    ensures !Path(JoinLink(CutLink(link, a, b), c, Last(left, null), First(right, null)),
                  lists[p := left + [c] + right][q], null)
  {
    var l2, ks := JoinLink(CutLink(link, a, b), c, Last(left, null), First(right, null)), lists[p := left + [c] + right][q];
    PlaceOf(ends, link, lists, q, i);
    assert a != c && l2[a] == b;
    hide *;
    var j := SamePlace(lists, p, c, left, right, q, i);
    Misled(l2, ks, j, b);
  }

  /** Where a listed node stands once `c` is in the list of `p`; behind it comes what came behind it. */
  lemma SamePlace(lists: Lists, p: DomNode, c: DomNode, left: seq<DomNode>, right: seq<DomNode>, q: DomNode, i: nat)
    returns (j: nat)
    requires p in lists && lists[p] == left + right && q in lists && i < |lists[q]|
    requires lists[q][i] != Last(left, null)
    ensures var ks := lists[p := left + [c] + right][q];
      j < |ks| && ks[j] == lists[q][i] && Next(ks, j + 1, null) == Next(lists[q], i + 1, null)
  {
    j := if q == p && i >= |left| then i + 1 else i;
    if q == p {
      assert i != |left| - 1;
      Grown(left, right, c, j);
    }
  }

  lemma Misled(link: Links, ks: seq<DomNode>, j: nat, b: DomNode?)
    requires j < |ks| && ks[j] in link && link[ks[j]] == b && b != Next(ks, j + 1, null)
    ensures !Path(link, ks, null)
  {
    assert !Points(link, ks[j], Next(ks, j + 1, null));
  }

  /** After the removal and the linking all chains are right exactly if the removal was harmless. */
  lemma OneDirection(ends: Links, link: Links, lists: Lists, p: DomNode, cp: DomNode, c: DomNode, a: DomNode?, b: DomNode?,
                     left: seq<DomNode>, right: seq<DomNode>)
    requires AllChains(ends, link, lists) && OncePlaced(lists) && p in lists && cp in lists && lists[p] == left + right
    requires c in link && !InList(lists, c) && (a != null ==> a in link)
    ensures var before, after := Last(left, null), First(right, null);
      AllChains(JoinEnds(CutEnds(ends, cp, a, b), p, c, before), JoinLink(CutLink(link, a, b), c, before, after),
                lists[p := left + [c] + right])
      <==> Harmless(ends, link, lists, p, cp, a, b, before)
  {
    var before, after := Last(left, null), First(right, null);
    var e2, l2 := JoinEnds(CutEnds(ends, cp, a, b), p, c, before), JoinLink(CutLink(link, a, b), c, before, after);
    var lists2 := lists[p := left + [c] + right];
    assert before != null ==> lists[p][|left| - 1] == before;
    hide OncePlaced, Path, JoinLink, CutLink, JoinEnds, CutEnds;
    if Harmless(ends, link, lists, p, cp, a, b, before) {
      OwnGrows(ends, link, lists, p, cp, c, a, b, left, right);
      OwnEnd(ends, link, lists, p, cp, c, a, b, left, right);
      hide InList, Harmless;
      forall q | q in lists && q != p ensures q in e2 && Chain(l2, e2[q], lists[q]) {
        OtherStays(ends, link, lists, p, cp, c, a, b, before, after, q);
      }
      assert AllChains(e2, l2, lists2);
    } else if a == null {
      HarmAtEnd(ends, link, lists, p, cp, c, b, left, right);
      assert !Chain(l2, e2[cp], lists2[cp]);
    } else {
      var q: DomNode, i: int :| q in lists && 0 <= i < |lists[q]| && lists[q][i] == a;
      HarmAtNode(ends, link, lists, p, c, a, b, left, right, q, i);
      assert q in e2 ==> !Chain(l2, e2[q], lists2[q]);
    }
  }

  // ---- when the removal comes to an end ----

  /** The chain from `from` ends, and does not pass `avoided`. */
  ghost predicate EndsWithout(link: Links, from: DomNode?, avoided: DomNode?) {
    exists ns :: Chain(link, from, ns) && forall i :: 0 <= i < |ns| ==> ns[i] != avoided
  }

  ghost predicate Ends(link: Links, from: DomNode?) {
    exists ns :: Chain(link, from, ns)
  }

  lemma SamePath(link: Links, other: Links, ns: seq<DomNode>, end: DomNode?)
    requires Path(link, ns, end)
    requires forall i :: 0 <= i < |ns| && ns[i] in link ==> ns[i] in other && other[ns[i]] == link[ns[i]]
    ensures Path(other, ns, end)
  {
    forall i | 0 <= i < |ns| ensures Points(other, ns[i], Next(ns, i + 1, end)) {
      assert Points(link, ns[i], Next(ns, i + 1, end));
    }
  }

  /** After the removal the chain of the old parent ends exactly if it does not run through `a`, or the chain from `b`
      ends without passing `a`. */
  lemma RemovalEnds(ends: Links, link: Links, lists: Lists, cp: DomNode, a: DomNode?, b: DomNode?)
    requires AllChains(ends, link, lists) && cp in lists && (a != null ==> a in link)
    ensures Ends(CutLink(link, a, b), CutEnds(ends, cp, a, b)[cp])
      <==> (a != null && a !in lists[cp]) || EndsWithout(link, b, a)
  {
    var l1, from := CutLink(link, a, b), CutEnds(ends, cp, a, b)[cp];
    var ks := lists[cp];
    if a == null {
      assert l1 == link && from == b;
    } else if a !in ks {
      SamePath(link, l1, ks, null);
      assert Chain(l1, from, ks);
    } else {
      var i :| 0 <= i < |ks| && ks[i] == a;
      ThroughCut(link, ks, i, b);
      ThroughCutBack(link, ks, i, b);
    }
  }

  lemma ThroughCut(link: Links, ks: seq<DomNode>, i: nat, b: DomNode?)
    requires Chain(link, Next(ks, 0, null), ks) && i < |ks|
    ensures Ends(link[ks[i] := b], Next(ks, 0, null)) ==> EndsWithout(link, b, ks[i])
  {
    var l1, a := link[ks[i] := b], ks[i];
    if ns :| Chain(l1, Next(ks, 0, null), ns) {
      CutPath(link, ks, i, b);
      AlongPath(l1, ks[..i + 1], b, ns);
      var rest := ns[i + 1..];
      forall k | 0 <= k < |rest| ensures rest[k] != a {
        ChainDistinct(l1, Next(ks, 0, null), ns, i, i + 1 + k);
        assert ns[..i + 1][i] == ks[..i + 1][i];
      }
      SamePath(l1, link, rest, null);
      assert Chain(link, b, rest);
    }
  }

  lemma ThroughCutBack(link: Links, ks: seq<DomNode>, i: nat, b: DomNode?)
    requires Chain(link, Next(ks, 0, null), ks) && i < |ks|
    ensures EndsWithout(link, b, ks[i]) ==> Ends(link[ks[i] := b], Next(ks, 0, null))
  {
    var l1, a := link[ks[i] := b], ks[i];
    if EndsWithout(link, b, a) {
      var ns :| Chain(link, b, ns) && forall k :: 0 <= k < |ns| ==> ns[k] != a;
      CutPath(link, ks, i, b);
      SamePath(link, l1, ns, null);
      PathJoin(l1, ks[..i + 1], ns);
      assert Chain(l1, Next(ks, 0, null), ks[..i + 1] + ns);
    }
  }

  lemma PathJoin(link: Links, ks: seq<DomNode>, ns: seq<DomNode>)
    requires Path(link, ks, Next(ns, 0, null)) && Path(link, ns, null)
    ensures Path(link, ks + ns, null)
  {
    hide Points;
    var all := ks + ns;
    forall i | 0 <= i < |all| ensures Points(link, all[i], Next(all, i + 1, null)) {
      if i < |ks| {
        assert Points(link, ks[i], Next(ks, i + 1, Next(ns, 0, null)));
      } else {
        assert Points(link, ns[i - |ks|], Next(ns, i - |ks| + 1, null));
      }
    }
  }

  /** Up to the node whose pointer was written, the path is the old one. */
  lemma CutPath(link: Links, ks: seq<DomNode>, i: nat, b: DomNode?)
    requires Chain(link, Next(ks, 0, null), ks) && i < |ks|
    ensures Path(link[ks[i] := b], ks[..i + 1], b)
  {
    var l1, cs := link[ks[i] := b], ks[..i + 1];
    forall k | 0 <= k < |cs| ensures Points(l1, cs[k], Next(cs, k + 1, b)) {
      assert Points(link, ks[k], Next(ks, k + 1, null));
      if k < i {
        ChainDistinct(link, Next(ks, 0, null), ks, k, i);
      }
    }
  }

  // ---- the tables of a well-formed world ----

  ghost predicate InsideForwards(world: set<DomNode>)
    reads world`firstChild, world`nextSibling
  {
    forall n :: n in world ==>
      (n.firstChild == null || n.firstChild in world) && (n.nextSibling == null || n.nextSibling in world)
  }

  ghost predicate InsideBackwards(world: set<DomNode>)
    reads world`lastChild, world`previousSibling
  {
    forall n :: n in world ==>
      (n.lastChild == null || n.lastChild in world) && (n.previousSibling == null || n.previousSibling in world)
  }

  /** No pointer leads out of the world. */
  ghost predicate Inside(world: set<DomNode>)
    reads world`firstChild, world`lastChild, world`nextSibling, world`previousSibling
  {
    InsideForwards(world) && InsideBackwards(world)
  }

  ghost predicate Closed(world: set<DomNode>)
    reads world`kids
  {
    forall q, i :: q in world && 0 <= i < |q.kids| ==> q.kids[i] in world
  }

  /** What `Valid` says besides the chains. */
  ghost predicate AllElse(world: set<DomNode>)
    reads world`kids, world`parentNode, world`childNodes
  {
    Closed(world)
    && forall q :: q in world ==>
      Distinct(q.kids) && Parented(q, q.kids) && (q.kind == ElementNode ==> q.childNodes == q.kids)
  }

  lemma ForwardIs(world: set<DomNode>, q: DomNode, ks: seq<DomNode>)
    requires forall i :: 0 <= i < |ks| ==> ks[i] in world
    ensures Forward(q, ks) <==> Chain(Nexts(world), q.firstChild, ks)
  {
    if Forward(q, ks) {
      forall i | 0 <= i < |ks| ensures Points(Nexts(world), ks[i], Next(ks, i + 1, null)) {
      }
    }
    if Chain(Nexts(world), q.firstChild, ks) {
      forall i | 0 <= i < |ks| ensures ks[i].nextSibling == Next(ks, i + 1, null) {
        assert Points(Nexts(world), ks[i], Next(ks, i + 1, null));
      }
    }
  }

  lemma BackwardIs(world: set<DomNode>, q: DomNode, ks: seq<DomNode>)
    requires forall i :: 0 <= i < |ks| ==> ks[i] in world
    ensures Backward(q, ks) <==> Chain(Prevs(world), q.lastChild, Reversed(ks))
  {
    var rs, n := Reversed(ks), |ks|;
    if Backward(q, ks) {
      forall i | 0 <= i < n ensures Points(Prevs(world), rs[i], Next(rs, i + 1, null)) {
        assert rs[i] == ks[n - 1 - i];
      }
    }
    if Chain(Prevs(world), q.lastChild, rs) {
      forall i | 0 <= i < n ensures ks[i].previousSibling == Next(ks, i - 1, null) {
        assert rs[n - 1 - i] == ks[i] && Points(Prevs(world), rs[n - 1 - i], Next(rs, n - i, null));
      }
    }
  }

  ghost predicate AllForward(world: set<DomNode>)
    reads world`kids, world`firstChild, world`nextSibling
  {
    AllChains(Firsts(world), Nexts(world), KidsOf(world))
  }

  ghost predicate AllBackward(world: set<DomNode>)
    reads world`kids, world`lastChild, world`previousSibling
  {
    AllChains(Lasts(world), Prevs(world), Reverses(KidsOf(world)))
  }

  lemma LinkedIs(world: set<DomNode>, q: DomNode)
    requires q in world && Closed(world)
    ensures q.Linked() <==>
      Chain(Nexts(world), q.firstChild, q.kids) && Chain(Prevs(world), q.lastChild, Reversed(q.kids))
      && Distinct(q.kids) && Parented(q, q.kids) && (q.kind == ElementNode ==> q.childNodes == q.kids)
  {
    hide Forward, Backward, Chain, Distinct, Parented;
    ForwardIs(world, q, q.kids);
    BackwardIs(world, q, q.kids);
  }

  lemma ValidIs(world: set<DomNode>)
    ensures Valid(world) <==> AllForward(world) && AllBackward(world) && AllElse(world)
  {
    hide Chain, Distinct, Parented, Forward, Backward;
    ClosedIs(world);
    if Closed(world) {
      forall q | q in world
        ensures q.Linked() <==>
          Chain(Nexts(world), q.firstChild, q.kids) && Chain(Prevs(world), q.lastChild, Reversed(q.kids))
          && Distinct(q.kids) && Parented(q, q.kids) && (q.kind == ElementNode ==> q.childNodes == q.kids)
      {
        LinkedIs(world, q);
      }
      ChainsAre(world);
    }
  }

  lemma ClosedIs(world: set<DomNode>)
    ensures Closed(world) <==> forall q, c :: q in world && c in q.kids ==> c in world
  {
    if Closed(world) {
      forall q, c | q in world && c in q.kids ensures c in world {
        var i :| 0 <= i < |q.kids| && q.kids[i] == c;
      }
    }
  }

  lemma ChainsAre(world: set<DomNode>)
    ensures AllForward(world) <==> forall q :: q in world ==> Chain(Nexts(world), q.firstChild, q.kids)
    ensures AllBackward(world) <==> forall q :: q in world ==> Chain(Prevs(world), q.lastChild, Reversed(q.kids))
  {
    hide Chain, Nexts, Prevs;
    assert forall q :: q in world ==> Firsts(world)[q] == q.firstChild && KidsOf(world)[q] == q.kids;
    assert forall q :: q in world ==> Lasts(world)[q] == q.lastChild && Reverses(KidsOf(world))[q] == Reversed(q.kids);
  }

  lemma ValidApart(world: set<DomNode>)
    requires Valid(world)
    ensures OncePlaced(KidsOf(world)) && OncePlaced(Reverses(KidsOf(world)))
  {
    var lists := KidsOf(world);
    forall q, i, r, j | q in lists && r in lists && 0 <= i < |lists[q]| && 0 <= j < |lists[r]| && (q != r || i != j)
      ensures lists[q][i] != lists[r][j]
    {
      if q == r {
        DistinctKids(world, q);
      } else {
        OneParent(world, q, r);
      }
    }
    var back := Reverses(lists);
    forall q, i, r, j | q in back && r in back && 0 <= i < |back[q]| && 0 <= j < |back[r]| && (q != r || i != j)
      ensures back[q][i] != back[r][j]
    {
      assert lists[q][|lists[q]| - 1 - i] != lists[r][|lists[r]| - 1 - j];
    }
  }

  // ---- the removal ----

  /** Rebuilding the array by following the pointers, which need not come to an end; a loop that never ends is shown by
      the answer. */
  method Rebuild(el: DomNode, ghost world: set<DomNode>) returns (ended: bool)
    requires el in world && Inside(world)
    modifies el`childNodes
    ensures ended <==> Ends(Nexts(world), el.firstChild)
    ensures ended ==> Chain(Nexts(world), el.firstChild, el.childNodes)
  {
    var cs: seq<DomNode> := [];
    var child := el.firstChild;
    ghost var unseen := world;
    while child != null && child !in cs
      invariant (child == null || child in world) && forall i :: 0 <= i < |cs| ==> cs[i] in world
      invariant Path(Nexts(world), cs, child) && el.firstChild == Next(cs, 0, child)
      invariant forall n :: n in world ==> n in unseen || n in cs
      decreases unseen
    {
      ghost var was := cs;
      unseen := unseen - {child};
      cs := cs + [child];
      child := child.nextSibling;
      PathGrows(Nexts(world), was, cs[|was|], child);
    }
    ended := child == null;
    if ended {
      el.childNodes := cs;
      assert Chain(Nexts(world), el.firstChild, cs);
    } else {
      ghost var j :| 0 <= j < |cs| && cs[j] == child;
      forall ns: seq<DomNode> | Chain(Nexts(world), cs[0], ns) ensures false {
        NeverEnds(Nexts(world), cs, j, ns);
      }
    }
  }

  lemma PathGrows(link: Links, cs: seq<DomNode>, n: DomNode, next: DomNode?)
    requires Path(link, cs, n) && Points(link, n, next)
    ensures Path(link, cs + [n], next)
  {
    hide Points;
    var ds := cs + [n];
    forall i | 0 <= i < |ds| ensures Points(link, ds[i], Next(ds, i + 1, next)) {
      if i < |cs| {
        assert Points(link, cs[i], Next(cs, i + 1, n));
      }
    }
  }

  lemma InsideAt(world: set<DomNode>, n: DomNode)
    requires Inside(world) && n in world
    ensures n.nextSibling == null || n.nextSibling in world
    ensures n.previousSibling == null || n.previousSibling in world
    ensures n.firstChild == null || n.firstChild in world
    ensures n.lastChild == null || n.lastChild in world
  {
  }

  method TieForward(cp: DomNode, previous: DomNode?, next: DomNode?, ghost world: set<DomNode>)
    requires InsideForwards(world) && cp in world
    requires (previous == null || previous in world) && (next == null || next in world)
    modifies world`firstChild, world`nextSibling
    ensures InsideForwards(world)
    ensures Nexts(world) == CutLink(old(Nexts(world)), previous, next)
    ensures Firsts(world) == CutEnds(old(Firsts(world)), cp, previous, next)
  {
    if previous != null {
      previous.nextSibling := next;
    } else {
      cp.firstChild := next;
    }
  }

  method TieBackward(cp: DomNode, previous: DomNode?, next: DomNode?, ghost world: set<DomNode>)
    requires InsideBackwards(world) && cp in world
    requires (previous == null || previous in world) && (next == null || next in world)
    modifies world`lastChild, world`previousSibling
    ensures InsideBackwards(world)
    ensures Prevs(world) == CutLink(old(Prevs(world)), next, previous)
    ensures Lasts(world) == CutEnds(old(Lasts(world)), cp, next, previous)
  {
    if next != null {
      next.previousSibling := previous;
    } else {
      cp.lastChild := previous;
    }
  }

  /** The removal of a child from the parent that it names, whether or not it is in a list there. */
  method CutOff(c: DomNode, ghost world: set<DomNode>, ghost lists: Lists, ghost except: set<DomNode>)
    returns (ended: bool)
    requires Inside(world) && c in world && c.parentNode != null && c.parentNode in world
    requires c.parentNode in except && Standing(world, lists, except)
    modifies world`firstChild, world`lastChild, world`nextSibling, world`previousSibling, c.parentNode`childNodes
    ensures Inside(world) && Standing(world, lists, except)
    ensures Now(world) == Cut(old(Now(world)), c.parentNode, old(c.previousSibling), old(c.nextSibling))
    ensures ended <==> c.parentNode.kind == DocumentNode || Ends(Now(world).nexts, c.parentNode.firstChild)
    ensures ended && c.parentNode.kind != DocumentNode ==>
      Chain(Now(world).nexts, c.parentNode.firstChild, c.parentNode.childNodes)
  {
    hide Ends, Chain, CutLink, CutEnds, InsideForwards, InsideBackwards, Standing, Nexts, Prevs, Firsts, Lasts;
    InsideAt(world, c);
    var cp, previous, next := c.parentNode, c.previousSibling, c.nextSibling;
    TieForward(cp, previous, next, world);
    TieBackward(cp, previous, next, world);
    hide Now, Cut;
    ended := true;
    if cp.kind != DocumentNode {
      ended := RebuildStanding(cp, world, lists, except);
    }
  }

  method RebuildStanding(el: DomNode, ghost world: set<DomNode>, ghost lists: Lists, ghost except: set<DomNode>)
    returns (ended: bool)
    requires el in world && Inside(world) && el in except && Standing(world, lists, except)
    modifies el`childNodes
    ensures ended <==> Ends(Now(world).nexts, el.firstChild)
    ensures ended ==> Chain(Now(world).nexts, el.firstChild, el.childNodes)
    ensures Now(world) == old(Now(world)) && Inside(world) && Standing(world, lists, except)
  {
    hide InsideForwards, InsideBackwards, Distinct, Parented, Ends, Chain, Nexts, Prevs, Firsts, Lasts;
    ended := Rebuild(el, world);
  }

  // ---- the insertion ----

  /** The linking of a single node, by whatever the pointers say then. */
  method JoinIn(p: DomNode, c: DomNode, ref: DomNode?, ghost world: set<DomNode>) returns (pre: DomNode?)
    requires Inside(world) && p in world && c in world && (ref == null || ref in world)
    modifies world`firstChild, world`lastChild, world`nextSibling, world`previousSibling, c`parentNode
    ensures Inside(world) && c.parentNode == p && pre == old(Before(p, ref))
    ensures Nexts(world) == JoinLink(old(Nexts(world)), c, pre, ref)
    ensures Firsts(world) == JoinEnds(old(Firsts(world)), p, c, pre)
    ensures Prevs(world) == JoinLink(old(Prevs(world)), c, ref, pre)
    ensures Lasts(world) == JoinEnds(old(Lasts(world)), p, c, ref)
  {
    pre := if ref != null then ref.previousSibling else p.lastChild;
    InsideAt(world, p);
    if ref != null {
      InsideAt(world, ref);
    }
    hide InsideForwards, InsideBackwards, JoinLink, JoinEnds, Nexts, Prevs, Firsts, Lasts;
    JoinForwards(p, c, pre, ref, world);
    JoinBackwards(p, c, pre, ref, world);
  }

  method JoinForwards(p: DomNode, c: DomNode, pre: DomNode?, ref: DomNode?, ghost world: set<DomNode>)
    requires InsideForwards(world) && p in world && c in world
    requires (ref == null || ref in world) && (pre == null || pre in world)
    modifies world`firstChild, world`nextSibling
    ensures InsideForwards(world)
    ensures Nexts(world) == JoinLink(old(Nexts(world)), c, pre, ref)
    ensures Firsts(world) == JoinEnds(old(Firsts(world)), p, c, pre)
    ensures Prevs(world) == old(Prevs(world)) && Lasts(world) == old(Lasts(world))
  {
    PointNext(c, ref, world);
    hide Nexts, Firsts, Prevs, Lasts, InsideForwards;
    TieForward(p, pre, c, world);
  }

  method JoinBackwards(p: DomNode, c: DomNode, pre: DomNode?, ref: DomNode?, ghost world: set<DomNode>)
    requires InsideBackwards(world) && p in world && c in world
    requires (ref == null || ref in world) && (pre == null || pre in world)
    modifies world`lastChild, world`previousSibling, c`parentNode
    ensures InsideBackwards(world) && c.parentNode == p
    ensures Nexts(world) == old(Nexts(world)) && Firsts(world) == old(Firsts(world))
    ensures Prevs(world) == JoinLink(old(Prevs(world)), c, ref, pre)
    ensures Lasts(world) == JoinEnds(old(Lasts(world)), p, c, ref)
  {
    PointBack(p, c, pre, world);
    hide Nexts, Firsts, Prevs, Lasts, InsideBackwards;
    TieBackward(p, c, ref, world);
  }

  method PointNext(c: DomNode, ref: DomNode?, ghost world: set<DomNode>)
    requires InsideForwards(world) && c in world && (ref == null || ref in world)
    modifies world`nextSibling
    ensures InsideForwards(world) && Nexts(world) == old(Nexts(world))[c := ref]
  {
    c.nextSibling := ref;
  }

  method PointBack(p: DomNode, c: DomNode, pre: DomNode?, ghost world: set<DomNode>)
    requires InsideBackwards(world) && c in world && (pre == null || pre in world)
    modifies world`previousSibling, c`parentNode
    ensures InsideBackwards(world) && Prevs(world) == old(Prevs(world))[c := pre]
    ensures Lasts(world) == old(Lasts(world)) && c.parentNode == p
  {
    c.previousSibling := pre;
    c.parentNode := p;
  }

  ghost predicate Listed(world: set<DomNode>, n: DomNode?)
    reads world`kids
  {
    exists q, i :: q in world && 0 <= i < |q.kids| && q.kids[i] == n
  }

  /** The node that should stand before the new child. */
  function Before(p: DomNode, ref: DomNode?): DomNode?
    reads p, ref
  {
    if ref != null then ref.previousSibling else p.lastChild
  }

  /** The pointers kept by a removed node `c` do no harm when it is put in front of `ref` under `p`. With its old
      parent `cp` and its old neighbours: following the pointers under `cp` still ends once the neighbours are tied
      together; the place between them is the place where it goes, as seen from behind, only if it is so from before; and
      each of the two pointers that tie them is overwritten by the insertion, or was so already, or belongs to a node in
      no list. */
  ghost predicate Heals(p: DomNode, c: DomNode, ref: DomNode?, world: set<DomNode>)
    requires c.parentNode != null
    reads world, p, ref, c, c.parentNode, c.previousSibling, c.nextSibling
  {
    var cp, previous, next, before := c.parentNode, c.previousSibling, c.nextSibling, Before(p, ref);
    (cp.kind == DocumentNode || (previous != null && previous !in cp.kids) || EndsWithout(Nexts(world), next, previous))
    && ((if ref != null then next == ref else next == null && cp == p) ==> previous == before)
    && (if previous == null then (before == null && cp == p) || cp.firstChild == next
        else previous == before || previous.nextSibling == next || !Listed(world, previous))
    && (if next == null then (ref == null && cp == p) || cp.lastChild == previous
        else next == ref || next.previousSibling == previous || !Listed(world, next))
  }

  /** The situation before an insertion of a removed node. */
  ghost predicate Situation(p: DomNode, c: DomNode, ref: DomNode?, world: set<DomNode>)
    reads world
  {
    Valid(world) && Inside(world) && p in world && c in world && (ref == null || ref in p.kids)
    && c.parentNode != null && c.parentNode in world && !Listed(world, c)
  }

  /** The tables before, and what `Valid` and the search for the place say about them. */
  datatype Tables = Tables(ends: Links, link: Links, lists: Lists)

  ghost function Forwards(world: set<DomNode>): Tables
    reads world`kids, world`firstChild, world`nextSibling
  {
    Tables(Firsts(world), Nexts(world), KidsOf(world))
  }

  ghost function Backwards(world: set<DomNode>): Tables
    reads world`kids, world`lastChild, world`previousSibling
  {
    Tables(Lasts(world), Prevs(world), Reverses(KidsOf(world)))
  }

  lemma ListedIs(world: set<DomNode>, n: DomNode?)
    ensures Listed(world, n) <==> InList(KidsOf(world), n)
    ensures Listed(world, n) <==> InList(Reverses(KidsOf(world)), n)
  {
    var lists, back := KidsOf(world), Reverses(KidsOf(world));
    if Listed(world, n) {
      var q, i: int :| q in world && 0 <= i < |q.kids| && q.kids[i] == n;
      assert lists[q][i] == n && back[q][|q.kids| - 1 - i] == n;
    }
    if InList(back, n) {
      var q: DomNode, i: int :| q in back && 0 <= i < |back[q]| && back[q][i] == n;
      assert q.kids[|q.kids| - 1 - i] == n;
    }
    if InList(lists, n) {
      var q: DomNode, i: int :| q in lists && 0 <= i < |lists[q]| && lists[q][i] == n;
      assert q.kids[i] == n;
    }
  }

  /** The node in front of the place as the insertion finds it, after the removal. */
  function Found(ends: Links, link: Links, p: DomNode, cp: DomNode, ref: DomNode?, previous: DomNode?, next: DomNode?): DomNode?
    requires p in ends && cp in ends && (ref != null ==> ref in link)
  {
    if ref != null then CutLink(link, next, previous)[ref] else CutEnds(ends, cp, next, previous)[p]
  }

  /** The two sides of the place, in both directions. */
  ghost predicate Gapped(f: Tables, b: Tables, p: DomNode, cp: DomNode, c: DomNode, ref: DomNode?, before: DomNode?,
                         left: seq<DomNode>, right: seq<DomNode>) {
    AllChains(f.ends, f.link, f.lists) && AllChains(b.ends, b.link, b.lists) && OncePlaced(f.lists) && OncePlaced(b.lists)
    && b.lists == Reverses(f.lists) && p in f.lists && cp in f.lists && f.lists[p] == left + right
    && ref == First(right, null) && before == Last(left, null)
    && c in f.link && c in b.link && !InList(f.lists, c) && !InList(b.lists, c)
  }

  lemma ReversedGap(left: seq<DomNode>, right: seq<DomNode>, c: DomNode)
    ensures Reversed(left + right) == Reversed(right) + Reversed(left)
    ensures Reversed(left + [c] + right) == Reversed(right) + [c] + Reversed(left)
    ensures Last(Reversed(right), null) == First(right, null) && First(Reversed(left), null) == Last(left, null)
  {
  }

  /** Seen from behind, the node in front of the place is the right one before the removal. */
  lemma FoundIs(f: Tables, b: Tables, p: DomNode, cp: DomNode, c: DomNode, ref: DomNode?, before: DomNode?,
                left: seq<DomNode>, right: seq<DomNode>, previous: DomNode?, next: DomNode?)
    requires Gapped(f, b, p, cp, c, ref, before, left, right)
    ensures p in b.ends && cp in b.ends && (ref != null ==> ref in b.link && ref != c)
    ensures Found(b.ends, b.link, p, cp, ref, previous, next) == before
      <==> ((if ref != null then next == ref else next == null && cp == p) ==> previous == before)
  {
    var back := b.lists[p];
    assert back == Reversed(left + right);
    assert Chain(b.link, b.ends[p], back) && Chain(b.link, b.ends[cp], b.lists[cp]);
    BackGap(left, right);
    if ref != null {
      PlaceOf(b.ends, b.link, b.lists, p, |right| - 1);
    }
    hide Gapped, AllChains, Path, InList, Reversed, OncePlaced, Reverses;
  }

  /** The gap of a list, seen from behind. */
  lemma BackGap(left: seq<DomNode>, right: seq<DomNode>)
    ensures var back, before := Reversed(left + right), Last(left, null);
      Next(back, |right|, null) == before && (right != [] ==> back[|right| - 1] == right[0])
      && (right == [] ==> Next(back, 0, null) == before)
  {
  }

  /** Linked behind another node than the one it should follow, the new child is not where it should be. */
  lemma Misplaced(f: Tables, b: Tables, p: DomNode, cp: DomNode, c: DomNode, ref: DomNode?, before: DomNode?,
                  left: seq<DomNode>, right: seq<DomNode>, previous: DomNode?, next: DomNode?, found: DomNode?)
    requires Gapped(f, b, p, cp, c, ref, before, left, right) && found != before && ref != c
    ensures !AllChains(JoinEnds(CutEnds(b.ends, cp, next, previous), p, c, ref),
                       JoinLink(CutLink(b.link, next, previous), c, ref, found), Reverses(f.lists[p := left + [c] + right]))
  {
    var e2 := JoinEnds(CutEnds(b.ends, cp, next, previous), p, c, ref);
    var l2 := JoinLink(CutLink(b.link, next, previous), c, ref, found);
    var lists2 := Reverses(f.lists[p := left + [c] + right]);
    ReversedGap(left, right, c);
    var ks := Reversed(right) + [c] + Reversed(left);
    assert lists2[p] == ks && l2[c] == found;
    assert ks[|right|] == c && Next(ks, |right| + 1, null) == before;
    hide JoinLink, CutLink, JoinEnds, CutEnds, Reverses;
    assert !Points(l2, ks[|right|], Next(ks, |right| + 1, null));
    assert !Path(l2, ks, null);
    assert p in e2 ==> !Chain(l2, e2[p], lists2[p]);
  }

  /** The single direction, forwards and backwards. */
  lemma ForwardDirection(f: Tables, b: Tables, p: DomNode, cp: DomNode, c: DomNode, ref: DomNode?, before: DomNode?,
                         left: seq<DomNode>, right: seq<DomNode>, previous: DomNode?, next: DomNode?)
    requires Gapped(f, b, p, cp, c, ref, before, left, right) && (previous != null ==> previous in f.link)
    ensures cp in f.ends
    ensures AllChains(JoinEnds(CutEnds(f.ends, cp, previous, next), p, c, before),
                      JoinLink(CutLink(f.link, previous, next), c, before, ref), f.lists[p := left + [c] + right])
      <==> Harmless(f.ends, f.link, f.lists, p, cp, previous, next, before)
  {
    assert Chain(f.link, f.ends[cp], f.lists[cp]);
    hide OncePlaced, Chain, InList, JoinLink, CutLink, JoinEnds, CutEnds, Reverses;
    OneDirection(f.ends, f.link, f.lists, p, cp, c, previous, next, left, right);
  }

  lemma BackwardDirection(f: Tables, b: Tables, p: DomNode, cp: DomNode, c: DomNode, ref: DomNode?, before: DomNode?,
                          left: seq<DomNode>, right: seq<DomNode>, previous: DomNode?, next: DomNode?)
    requires Gapped(f, b, p, cp, c, ref, before, left, right) && (next != null ==> next in b.link)
    ensures cp in b.ends
    ensures AllChains(JoinEnds(CutEnds(b.ends, cp, next, previous), p, c, ref),
                      JoinLink(CutLink(b.link, next, previous), c, ref, before),
                      Reverses(f.lists[p := left + [c] + right]))
      <==> Harmless(b.ends, b.link, b.lists, p, cp, next, previous, ref)
  {
    ReversedGap(left, right, c);
    ReversesUpdate(f.lists, p, left + [c] + right);
    assert b.lists[p] == Reversed(right) + Reversed(left);
    assert Chain(b.link, b.ends[cp], b.lists[cp]);
    hide OncePlaced, Chain, InList, JoinLink, CutLink, JoinEnds, CutEnds, Reverses, Reversed;
    OneDirection(b.ends, b.link, b.lists, p, cp, c, next, previous, Reversed(right), Reversed(left));
  }

  lemma ReversesUpdate(lists: Lists, p: DomNode, ks: seq<DomNode>)
    ensures Reverses(lists[p := ks]) == Reverses(lists)[p := Reversed(ks)]
    ensures p in lists ==> Reverses(lists)[p] == Reversed(lists[p])
  {
    hide Reversed;
  }

  /** A harmless removal leaves the list of another parent as it was. */
  lemma OldParentKeeps(f: Tables, p: DomNode, cp: DomNode, previous: DomNode?, next: DomNode?, before: DomNode?)
    requires AllChains(f.ends, f.link, f.lists) && OncePlaced(f.lists) && p in f.lists && cp in f.lists && p != cp
    requires (previous != null ==> previous in f.link) && (before == null || before in f.lists[p])
    requires Harmless(f.ends, f.link, f.lists, p, cp, previous, next, before)
    ensures Chain(CutLink(f.link, previous, next), CutEnds(f.ends, cp, previous, next)[cp], f.lists[cp])
  {
    var l1, ks := CutLink(f.link, previous, next), f.lists[cp];
    assert Chain(f.link, f.ends[cp], ks);
    forall i | 0 <= i < |ks| ensures Points(l1, ks[i], Next(ks, i + 1, null)) {
      PlaceOf(f.ends, f.link, f.lists, cp, i);
      if before != null {
        var j :| 0 <= j < |f.lists[p]| && f.lists[p][j] == before;
        assert f.lists[cp][i] != f.lists[p][j];
      }
      ListedKeeps(f.ends, f.link, f.lists, p, cp, previous, next, before, ks[i], Next(ks, i + 1, null));
    }
  }

  /** Reading `Heals` off the tables. */
  lemma HealsIs(p: DomNode, c: DomNode, ref: DomNode?, world: set<DomNode>)
    requires Situation(p, c, ref, world)
    ensures var f, b, cp, previous, next, before :=
        Forwards(world), Backwards(world), c.parentNode, c.previousSibling, c.nextSibling, Before(p, ref);
      cp in f.ends && cp in b.ends && (previous != null ==> previous in f.link) && (next != null ==> next in b.link)
      && (Heals(p, c, ref, world) <==>
        (cp.kind == DocumentNode || Ends(CutLink(f.link, previous, next), CutEnds(f.ends, cp, previous, next)[cp]))
        && ((if ref != null then next == ref else next == null && cp == p) ==> previous == before)
        && Harmless(f.ends, f.link, f.lists, p, cp, previous, next, before)
        && Harmless(b.ends, b.link, b.lists, p, cp, next, previous, ref))
  {
    var cp, previous, next := c.parentNode, c.previousSibling, c.nextSibling;
    InsideAt(world, c);
    ValidIs(world);
    ListedIs(world, previous);
    ListedIs(world, next);
    hide Valid, InList, Listed, Chain, Closed, AllElse;
    RemovalEnds(Firsts(world), Nexts(world), KidsOf(world), cp, previous, next);
    hide Ends, EndsWithout;
  }

  /** The two sides of the place where the new child goes. */
  lemma GapIs(p: DomNode, c: DomNode, ref: DomNode?, world: set<DomNode>) returns (left: seq<DomNode>, right: seq<DomNode>)
    requires Situation(p, c, ref, world)
    ensures Gapped(Forwards(world), Backwards(world), p, c.parentNode, c, ref, Before(p, ref), left, right)
    ensures Inserted(p.kids, ref, [c]) == left + [c] + right && p.kids == left + right
    ensures Distinct(left + [c] + right)
  {
    hide Valid, Listed, Inserted, Distinct, Gapped;
    left, right := SidesOf(p, ref, world);
    NewChild(p, c, ref, world, left, right);
    TablesGapped(p, c, ref, world, left, right);
  }

  lemma SidesOf(p: DomNode, ref: DomNode?, world: set<DomNode>) returns (left: seq<DomNode>, right: seq<DomNode>)
    requires Valid(world) && p in world && (ref == null || ref in p.kids)
    ensures p.kids == left + right && ref == First(right, null) && Before(p, ref) == Last(left, null)
  {
    assert p.Linked();
    var k := |p.kids|;
    if ref != null {
      k :| 0 <= k < |p.kids| && p.kids[k] == ref;
    }
    left, right := p.kids[..k], p.kids[k..];
    assert p.kids == left + right;
    Gap(p, p.kids, k);
  }

  lemma NewChild(p: DomNode, c: DomNode, ref: DomNode?, world: set<DomNode>, left: seq<DomNode>, right: seq<DomNode>)
    requires Valid(world) && p in world && !Listed(world, c) && (ref == null || ref in p.kids)
    requires p.kids == left + right && ref == First(right, null)
    ensures Inserted(p.kids, ref, [c]) == left + [c] + right && Distinct(left + [c] + right)
  {
    DistinctKids(world, p);
    NotHere(world, p, c);
    Alone(c);
    var k := |left|;
    assert p.kids[..k] == left && p.kids[k..] == right;
    hide Valid, Listed, Inserted, Distinct;
    InsertedAtRef(p.kids, ref, [c], k);
    DistinctSplice(p.kids, [c], k);
  }

  lemma TablesGapped(p: DomNode, c: DomNode, ref: DomNode?, world: set<DomNode>, left: seq<DomNode>, right: seq<DomNode>)
    requires Situation(p, c, ref, world) && p.kids == left + right
    requires ref == First(right, null) && Before(p, ref) == Last(left, null)
    ensures Gapped(Forwards(world), Backwards(world), p, c.parentNode, c, ref, Before(p, ref), left, right)
  {
    ValidIs(world);
    ValidApart(world);
    ListedIs(world, c);
    hide Valid, Chain, OncePlaced, InList, Listed, AllElse, Reverses;
  }

  lemma NotHere(world: set<DomNode>, p: DomNode, c: DomNode)
    requires p in world && !Listed(world, c)
    ensures forall i, j :: 0 <= i < |p.kids| && 0 <= j < 1 ==> p.kids[i] != [c][j]
  {
  }

  /** The lists and their parents, and the arrays of all elements but a few. */
  ghost predicate Standing(world: set<DomNode>, lists: Lists, except: set<DomNode>)
    reads world`kids, world`parentNode, world`childNodes
  {
    KidsOf(world) == lists && Closed(world) && (forall q :: q in world ==> Distinct(q.kids) && Parented(q, q.kids))
    && forall q :: q in world && q !in except && q.kind == ElementNode ==> q.childNodes == q.kids
  }

  /** The chains are right exactly if the node was found in its place and both removals were harmless. */
  lemma ChainsRight(world: set<DomNode>, f: Tables, b: Tables, p: DomNode, cp: DomNode, c: DomNode, ref: DomNode?,
                    left: seq<DomNode>, right: seq<DomNode>, previous: DomNode?, next: DomNode?, before: DomNode?,
                    found: DomNode?)
    requires Gapped(f, b, p, cp, c, ref, before, left, right) && ref != c
    requires (previous != null ==> previous in f.link) && (next != null ==> next in b.link)
    requires Now(world) == Join(Cut(Pointers(f.link, f.ends, b.link, b.ends), cp, previous, next), p, c, found, ref)
    requires KidsOf(world) == f.lists[p := left + [c] + right]
    ensures cp in f.ends && cp in b.ends
    ensures AllForward(world) && AllBackward(world) <==>
      found == before && Harmless(f.ends, f.link, f.lists, p, cp, previous, next, before)
      && Harmless(b.ends, b.link, b.lists, p, cp, next, previous, ref)
  {
    ForwardDirection(f, b, p, cp, c, ref, before, left, right, previous, next);
    BackwardDirection(f, b, p, cp, c, ref, before, left, right, previous, next);
    if found != before {
      Misplaced(f, b, p, cp, c, ref, before, left, right, previous, next, found);
    }
    hide Gapped, AllChains, Harmless, JoinLink, CutLink, JoinEnds, CutEnds, Nexts, Firsts, Prevs, Lasts, KidsOf, Reverses;
  }

  /** With the right chains the arrays are right too. */
  lemma ArraysRight(world: set<DomNode>, f: Tables, b: Tables, p: DomNode, cp: DomNode, c: DomNode, ref: DomNode?,
                    left: seq<DomNode>, right: seq<DomNode>, previous: DomNode?, next: DomNode?, before: DomNode?)
    requires Gapped(f, b, p, cp, c, ref, before, left, right) && (previous != null ==> previous in f.link)
    requires cp in f.ends && Harmless(f.ends, f.link, f.lists, p, cp, previous, next, before)
    requires p in world && cp in world && Standing(world, f.lists[p := left + [c] + right], {p, cp})
    requires cp != p && cp.kind == ElementNode ==>
      Chain(CutLink(f.link, previous, next), CutEnds(f.ends, cp, previous, next)[cp], cp.childNodes)
    requires p.kind == ElementNode ==> p.childNodes == p.kids
    ensures AllElse(world)
  {
    if cp != p {
      assert before != null ==> f.lists[p][|left| - 1] == before;
      OldParentKeeps(f, p, cp, previous, next, before);
      assert KidsOf(world)[cp] == f.lists[cp];
      hide Gapped, Harmless, CutLink, CutEnds, Chain, Distinct, Parented;
      if cp.kind == ElementNode {
        ChainUnique(CutLink(f.link, previous, next), CutEnds(f.ends, cp, previous, next)[cp], cp.childNodes, cp.kids);
      }
    }
  }

  lemma ValidStanding(world: set<DomNode>, except: set<DomNode>)
    requires Valid(world)
    ensures Standing(world, KidsOf(world), except)
  {
    hide Distinct, Parented;
    ValidIs(world);
  }

  lemma StandingGrown(world: set<DomNode>, lists: Lists, except: set<DomNode>, p: DomNode, c: DomNode,
                      left: seq<DomNode>, right: seq<DomNode>)
    requires p in world && p in except && c in world && p.kids == left + [c] + right && Distinct(p.kids)
    requires lists.Keys == world && lists[p] == left + right && c.parentNode == p
    requires forall q :: q in world && q != p ==> q.kids == lists[q] && Distinct(q.kids)
    requires forall q, i :: q in world && 0 <= i < |lists[q]| ==> lists[q][i] in world && lists[q][i].parentNode == q
    requires forall q :: q in world && q !in except && q.kind == ElementNode ==> q.childNodes == q.kids
    ensures Standing(world, lists[p := left + [c] + right], except)
  {
    forall i | 0 <= i < |p.kids| ensures p.kids[i] in world && p.kids[i].parentNode == p {
      if i != |left| {
        Grown(left, right, c, i);
        assert p.kids[i] == lists[p][if i < |left| then i else i - 1];
      }
    }
  }

  /** Every node of the lists has the parent whose list it is in. */
  ghost predicate Parents(world: set<DomNode>, lists: Lists)
    reads world`parentNode
  {
    lists.Keys == world
    && forall q, i :: q in world && 0 <= i < |lists[q]| ==> lists[q][i] in world && lists[q][i].parentNode == q
  }

  lemma StandingParents(world: set<DomNode>, lists: Lists, except: set<DomNode>)
    requires Standing(world, lists, except)
    ensures Parents(world, lists) && lists == KidsOf(world)
    ensures forall q :: q in world ==> q.kids == lists[q] && Distinct(q.kids)
    ensures forall q :: q in world && q !in except && q.kind == ElementNode ==> q.childNodes == q.kids
  {
    hide Distinct;
  }

  /** Parents and arrays besides the lists, as they were and as they are. */
  datatype Rest = Rest(lists: Lists, ups: Links, arrays: Lists)

  ghost function RestOf(world: set<DomNode>): Rest
    reads world`kids, world`parentNode, world`childNodes
  {
    Rest(KidsOf(world), map n | n in world :: n.parentNode, map n | n in world :: n.childNodes)
  }

  /** Away from `p` and `c` nothing is changed, as far as lists, parents and arrays go. */
  ghost predicate Elsewise(world: set<DomNode>, r: Rest, p: DomNode, c: DomNode)
    reads world`kids, world`parentNode, world`childNodes
  {
    r.lists.Keys == r.ups.Keys == r.arrays.Keys == world
    && (forall q :: q in world && q != p ==> q.kids == r.lists[q] && q.childNodes == r.arrays[q])
    && forall n :: n in world && n != c ==> n.parentNode == r.ups[n]
  }

  ghost predicate Sound(r: Rest, except: set<DomNode>) {
    r.lists.Keys == r.ups.Keys == r.arrays.Keys
    && forall q :: q in r.lists ==>
      Distinct(r.lists[q]) && (q !in except && q.kind == ElementNode ==> r.arrays[q] == r.lists[q])
      && forall i :: 0 <= i < |r.lists[q]| ==> r.lists[q][i] in r.lists && r.ups[r.lists[q][i]] == q
  }

  lemma RestRead(world: set<DomNode>)
    ensures var r := RestOf(world); r.lists.Keys == r.ups.Keys == r.arrays.Keys == world && r.lists == KidsOf(world)
    ensures forall q :: q in world ==> RestOf(world).lists[q] == q.kids && RestOf(world).arrays[q] == q.childNodes
    ensures forall n :: n in world ==> RestOf(world).ups[n] == n.parentNode
    ensures AllElse(world) ==> Sound(RestOf(world), {})
  {
    hide Distinct;
  }

  lemma StandingIs(world: set<DomNode>, lists: Lists, except: set<DomNode>)
    ensures Standing(world, lists, except) <==> KidsOf(world) == lists && Sound(RestOf(world), except)
  {
    hide Distinct;
    RestRead(world);
  }

  /** A new parent for a node in no list. */
  lemma SoundStill(r: Rest, r1: Rest, c: DomNode, except: set<DomNode>)
    requires Sound(r, except) && r1.lists == r.lists && r1.arrays == r.arrays && r1.ups.Keys == r.ups.Keys
    requires forall n :: n in r.ups && n != c ==> r1.ups[n] == r.ups[n]
    requires forall q, i :: q in r.lists && 0 <= i < |r.lists[q]| ==> r.lists[q][i] != c
    ensures Sound(r1, except)
  {
    hide Distinct;
  }

  method JoinRest(p: DomNode, c: DomNode, ref: DomNode?, ghost world: set<DomNode>) returns (pre: DomNode?)
    requires Inside(world) && p in world && c in world && (ref == null || ref in world)
    modifies world`firstChild, world`lastChild, world`nextSibling, world`previousSibling, c`parentNode
    ensures Inside(world) && pre == old(Before(p, ref)) && Now(world) == Join(old(Now(world)), p, c, pre, ref)
    ensures c.parentNode == p && KidsOf(world) == old(KidsOf(world))
    ensures RestOf(world) == old(RestOf(world)).(ups := old(RestOf(world)).ups[c := p])
  {
    ghost var r := RestOf(world);
    hide InsideForwards, InsideBackwards, JoinLink, JoinEnds, Nexts, Prevs, Firsts, Lasts, KidsOf;
    pre := JoinIn(p, c, ref, world);
  }

  method JoinAdopt(p: DomNode, c: DomNode, ref: DomNode?, ghost world: set<DomNode>, ghost lists: Lists,
                   ghost except: set<DomNode>) returns (pre: DomNode?)
    requires Inside(world) && p in world && c in world && (ref == null || ref in world)
    requires Standing(world, lists, except) && forall q, i :: q in lists && 0 <= i < |lists[q]| ==> lists[q][i] != c
    modifies world`firstChild, world`lastChild, world`nextSibling, world`previousSibling, c`parentNode
    ensures Inside(world) && c.parentNode == p && pre == old(Before(p, ref)) && Standing(world, lists, except)
    ensures Now(world) == Join(old(Now(world)), p, c, pre, ref)
  {
    ghost var r := RestOf(world);
    StandingIs(world, lists, except);
    RestRead(world);
    hide *;
    pre := JoinRest(p, c, ref, world);
    StandingIs(world, lists, except);
    RestRead(world);
    SoundStill(r, RestOf(world), c, except);
  }

  /** The linking after the removal, with the array and the intended list. */
  method LinkUp(p: DomNode, c: DomNode, ref: DomNode?, ghost world: set<DomNode>, ghost except: set<DomNode>,
                ghost lists: Lists, ghost left: seq<DomNode>, ghost right: seq<DomNode>)
    returns (ended: bool, found: DomNode?)
    requires Inside(world) && p in world && c in world && (ref == null || ref in world)
    requires p in except && Standing(world, lists, except) && p in lists && lists[p] == left + right
    requires Distinct(left + [c] + right)
    requires forall q, i :: q in lists && 0 <= i < |lists[q]| ==> lists[q][i] != c
    modifies world`firstChild, world`lastChild, world`nextSibling, world`previousSibling,
             c`parentNode, p`childNodes, p`kids
    ensures Inside(world) && found == old(Before(p, ref)) && Now(world) == Join(old(Now(world)), p, c, found, ref)
    ensures p.kids == left + [c] + right && Standing(world, lists[p := left + [c] + right], except) && c.parentNode == p
    ensures ended <==> Ends(Now(world).nexts, p.firstChild)
    ensures ended ==> Chain(Now(world).nexts, p.firstChild, p.childNodes)
  {
    hide Inside, Distinct, Ends, Chain, Join, Now, Standing;
    found := JoinAdopt(p, c, ref, world, lists, except);
    ended := RebuildStanding(p, world, lists, except);
    Record(p, c, world, lists, except, left, right);
  }

  ghost method Record(p: DomNode, c: DomNode, world: set<DomNode>, lists: Lists, except: set<DomNode>,
                      left: seq<DomNode>, right: seq<DomNode>)
    requires p in world && p in except && c in world && Distinct(left + [c] + right)
    requires Standing(world, lists, except) && p in lists && lists[p] == left + right && c.parentNode == p
    modifies p`kids
    ensures p.kids == left + [c] + right && Standing(world, lists[p := left + [c] + right], except)
  {
    StandingParents(world, lists, except);
    hide Distinct, Standing;
    p.kids := left + [c] + right;
    StandingGrown(world, lists, except, p, c, left, right);
  }

  /** The result is right exactly if the node was found in its place and both removals were harmless. */
  lemma Outcome(world: set<DomNode>, f: Tables, b: Tables, p: DomNode, cp: DomNode, c: DomNode, ref: DomNode?,
                left: seq<DomNode>, right: seq<DomNode>, previous: DomNode?, next: DomNode?, before: DomNode?,
                found: DomNode?, ended: bool)
    requires Gapped(f, b, p, cp, c, ref, before, left, right) && ref != c && p in world && cp in world
    requires (previous != null ==> previous in f.link) && (next != null ==> next in b.link)
    requires Now(world) == Join(Cut(Pointers(f.link, f.ends, b.link, b.ends), cp, previous, next), p, c, found, ref)
    requires Standing(world, f.lists[p := left + [c] + right], {p, cp})
    requires cp in f.ends && cp in b.ends
    requires cp != p && cp.kind == ElementNode ==>
      Chain(CutLink(f.link, previous, next), CutEnds(f.ends, cp, previous, next)[cp], cp.childNodes)
    requires ended <==> Ends(Now(world).nexts, p.firstChild)
    requires ended ==> Chain(Now(world).nexts, p.firstChild, p.childNodes)
    ensures ended && Valid(world) <==>
      found == before && Harmless(f.ends, f.link, f.lists, p, cp, previous, next, before)
      && Harmless(b.ends, b.link, b.lists, p, cp, next, previous, ref)
  {
    StandingParents(world, f.lists[p := left + [c] + right], {p, cp});
    ChainsRight(world, f, b, p, cp, c, ref, left, right, previous, next, before, found);
    ValidIs(world);
    hide Gapped, Join, Cut, Harmless, Standing, CutLink, CutEnds, AllElse, AllBackward, Valid, Distinct, Parents;
    if AllForward(world) && AllBackward(world) {
      OwnChain(world, p);
      if ended {
        hide Chain, Ends;
        ChainUnique(Nexts(world), p.firstChild, p.childNodes, p.kids);
        ArraysRight(world, f, b, p, cp, c, ref, left, right, previous, next, before);
      }
    }
  }

  lemma OwnChain(world: set<DomNode>, p: DomNode)
    requires AllForward(world) && p in world
    ensures Chain(Nexts(world), p.firstChild, p.kids) && Ends(Nexts(world), p.firstChild)
  {
    assert Firsts(world)[p] == p.firstChild && KidsOf(world)[p] == p.kids;
  }

  /** The linking, in terms of the tables. */
  method LinkRight(p: DomNode, c: DomNode, ref: DomNode?, ghost world: set<DomNode>, ghost f: Tables, ghost b: Tables,
                   ghost cp: DomNode, ghost previous: DomNode?, ghost next: DomNode?,
                   ghost left: seq<DomNode>, ghost right: seq<DomNode>, ghost before: DomNode?)
    returns (ended: bool)
    requires cp in f.ends && cp in b.ends && (previous != null ==> previous in f.link) && (next != null ==> next in b.link)
    requires Inside(world) && p in world && c in world && cp in world && (ref == null || ref in world) && ref != c
    requires Gapped(f, b, p, cp, c, ref, before, left, right) && p in f.lists && f.lists[p] == left + right
    requires Distinct(left + [c] + right) && Standing(world, f.lists, {p, cp})
    requires forall q, i :: q in f.lists && 0 <= i < |f.lists[q]| ==> f.lists[q][i] != c
    requires Now(world) == Cut(Pointers(f.link, f.ends, b.link, b.ends), cp, previous, next)
    requires cp != p && cp.kind == ElementNode ==>
      Chain(CutLink(f.link, previous, next), CutEnds(f.ends, cp, previous, next)[cp], cp.childNodes)
    modifies world`firstChild, world`lastChild, world`nextSibling, world`previousSibling,
             c`parentNode, p`childNodes, p`kids
    ensures p.kids == left + [c] + right && c.parentNode == p
    ensures Inside(world) && Now(world) == Join(old(Now(world)), p, c, old(Before(p, ref)), ref)
    ensures ended ==> Chain(Now(world).nexts, p.firstChild, p.childNodes)
    ensures ended <==> Ends(Now(world).nexts, p.firstChild)
    ensures ended && Valid(world) <==>
      old(Before(p, ref)) == before && Harmless(f.ends, f.link, f.lists, p, cp, previous, next, before)
      && Harmless(b.ends, b.link, b.lists, p, cp, next, previous, ref)
  {
    hide Gapped, Harmless, Distinct, Chain, Ends, Valid, Standing, CutLink, CutEnds, Join, Cut, Now, Inside;
    var found;
    ended, found := LinkUp(p, c, ref, world, {p, cp}, f.lists, left, right);
    Outcome(world, f, b, p, cp, c, ref, left, right, previous, next, before, found, ended);
  }

  /** What the removal and the search for the place must come to, so that the linking gives the intended lists. */
  ghost predicate Repaired(f: Tables, b: Tables, p: DomNode, cp: DomNode, ref: DomNode?,
                           previous: DomNode?, next: DomNode?, before: DomNode?)
    requires cp in f.ends && cp in b.ends && (previous != null ==> previous in f.link) && (next != null ==> next in b.link)
    requires p in b.ends && (ref != null ==> ref in b.link)
  {
    (cp.kind == DocumentNode || Ends(CutLink(f.link, previous, next), CutEnds(f.ends, cp, previous, next)[cp]))
    && Found(b.ends, b.link, p, cp, ref, previous, next) == before
    && Harmless(f.ends, f.link, f.lists, p, cp, previous, next, before)
    && Harmless(b.ends, b.link, b.lists, p, cp, next, previous, ref)
  }

  /** All pointers after the removal from `cp` and the linking under `p`. */
  function Edited(s: Pointers, p: DomNode, c: DomNode, ref: DomNode?, cp: DomNode, previous: DomNode?, next: DomNode?)
      : Pointers
    requires p in s.lasts && cp in s.lasts && (ref != null ==> ref in s.prevs)
  {
    Join(Cut(s, cp, previous, next), p, c, Found(s.lasts, s.prevs, p, cp, ref, previous, next), ref)
  }

  /** The two loops that rebuild an array come to an end. */
  ghost predicate Halts(s: Pointers, p: DomNode, c: DomNode, ref: DomNode?, cp: DomNode,
                        previous: DomNode?, next: DomNode?)
    requires p in s.lasts && cp in s.lasts && (ref != null ==> ref in s.prevs) && p in s.firsts && cp in s.firsts
  {
    (cp.kind == DocumentNode || Ends(Cut(s, cp, previous, next).nexts, Cut(s, cp, previous, next).firsts[cp]))
    && Ends(Edited(s, p, c, ref, cp, previous, next).nexts, Edited(s, p, c, ref, cp, previous, next).firsts[p])
  }

  /** The array of `p` follows its pointers, and `c` is under `p`. */
  ghost predicate Left(world: set<DomNode>, p: DomNode, c: DomNode)
    reads world, p, c
  {
    Inside(world) && c.parentNode == p && Chain(Now(world).nexts, p.firstChild, p.childNodes)
  }

  /** The removal and the linking, in terms of the tables. */
  method CutAndLink(p: DomNode, c: DomNode, ref: DomNode?, ghost world: set<DomNode>, ghost f: Tables, ghost b: Tables,
                    ghost left: seq<DomNode>, ghost right: seq<DomNode>, ghost before: DomNode?,
                    ghost cp: DomNode, ghost previous: DomNode?, ghost next: DomNode?)
    returns (ended: bool)
    requires cp in f.ends && cp in b.ends && (previous != null ==> previous in f.link) && (next != null ==> next in b.link)
    requires p in b.ends && (ref != null ==> ref in b.link) && p in f.ends
    requires Inside(world) && p in world && c in world && cp in world && (ref == null || ref in world) && ref != c
    requires cp == c.parentNode && previous == c.previousSibling && next == c.nextSibling
    requires Gapped(f, b, p, cp, c, ref, before, left, right) && p in f.lists && f.lists[p] == left + right
    requires Distinct(left + [c] + right) && Standing(world, f.lists, {p, cp})
    requires forall q, i :: q in f.lists && 0 <= i < |f.lists[q]| ==> f.lists[q][i] != c
    requires Now(world) == Pointers(f.link, f.ends, b.link, b.ends)
    modifies world`firstChild, world`lastChild, world`nextSibling, world`previousSibling,
             cp`childNodes, p`childNodes, c`parentNode, p`kids
    ensures p.kids == left + [c] + right
    ensures ended && Valid(world) <==> Repaired(f, b, p, cp, ref, previous, next, before)
    ensures ended <==> Halts(old(Now(world)), p, c, ref, cp, previous, next)
    ensures ended ==> Left(world, p, c) && Now(world) == Edited(old(Now(world)), p, c, ref, cp, previous, next)
  {
    hide Gapped, Harmless, Distinct, Chain, Ends, Valid, Standing, Found, CutLink, CutEnds, Cut, Now, Inside;
    ended := CutOff(c, world, f.lists, {p, cp});
    FirstIs(world, cp);
    AfterCut(world, Pointers(f.link, f.ends, b.link, b.ends), cp, previous, next, p, ref);
    if ended {
      ended := LinkRight(p, c, ref, world, f, b, cp, previous, next, left, right, before);
      FirstIs(world, p);
    } else {
      p.kids := left + [c] + right;
    }
  }

  /** The pointers after the removal, read off the tables. */
  lemma AfterCut(world: set<DomNode>, s: Pointers, cp: DomNode, previous: DomNode?, next: DomNode?,
                 p: DomNode, ref: DomNode?)
    requires p in world && cp in world && (ref == null || ref in world) && Now(world) == Cut(s, cp, previous, next)
    requires p in s.lasts && cp in s.lasts && (ref != null ==> ref in s.prevs)
    ensures cp in CutEnds(s.firsts, cp, previous, next) && cp.firstChild == CutEnds(s.firsts, cp, previous, next)[cp]
    ensures Now(world).nexts == CutLink(s.nexts, previous, next)
    ensures Before(p, ref) == Found(s.lasts, s.prevs, p, cp, ref, previous, next)
  {
    assert Firsts(world)[cp] == cp.firstChild && Lasts(world)[p] == p.lastChild;
    assert ref != null ==> Prevs(world)[ref] == ref.previousSibling;
  }

  lemma FirstIs(world: set<DomNode>, p: DomNode)
    requires p in world
    ensures p in Now(world).firsts && Now(world).firsts[p] == p.firstChild
  {
  }

  lemma TableKeys(world: set<DomNode>)
    ensures Firsts(world).Keys == world && Now(world).firsts == Firsts(world)
    ensures Lasts(world).Keys == world && Prevs(world).Keys == world
    ensures Now(world).lasts == Lasts(world) && Now(world).prevs == Prevs(world)
  {
  }

  lemma RefInside(p: DomNode, c: DomNode, ref: DomNode?, world: set<DomNode>)
    requires Situation(p, c, ref, world)
    ensures (ref == null || ref in world) && ref != c
    ensures forall q, i :: q in KidsOf(world) && 0 <= i < |KidsOf(world)[q]| ==> KidsOf(world)[q][i] != c
  {
    assert forall q, i :: q in world && 0 <= i < |q.kids| ==> q.kids[i] != c;
  }

  lemma SituationIs(p: DomNode, c: DomNode, ref: DomNode?, world: set<DomNode>)
    requires Situation(p, c, ref, world)
    ensures Valid(world) && Inside(world) && p in world && c in world && c.parentNode in world
  {
  }

  lemma ListsOf(world: set<DomNode>, p: DomNode)
    requires p in world
    ensures Forwards(world).lists == KidsOf(world) && p in KidsOf(world) && KidsOf(world)[p] == p.kids
  {
  }

  lemma HealsRead(p: DomNode, c: DomNode, ref: DomNode?, world: set<DomNode>, f: Tables, b: Tables,
                  left: seq<DomNode>, right: seq<DomNode>)
    requires Situation(p, c, ref, world) && f == Forwards(world) && b == Backwards(world)
    requires Gapped(f, b, p, c.parentNode, c, ref, Before(p, ref), left, right)
    ensures var cp, previous, next, before := c.parentNode, c.previousSibling, c.nextSibling, Before(p, ref);
      cp in f.ends && cp in b.ends && (previous != null ==> previous in f.link) && (next != null ==> next in b.link)
      && p in b.ends && (ref != null ==> ref in b.link)
      && (Heals(p, c, ref, world) <==> Repaired(f, b, p, cp, ref, previous, next, before))
    ensures Now(world) == Pointers(f.link, f.ends, b.link, b.ends)
  {
    HealsIs(p, c, ref, world);
    FoundIs(f, b, p, c.parentNode, c, ref, Before(p, ref), left, right, c.previousSibling, c.nextSibling);
    hide Gapped, Heals, Harmless, Ends, Found, CutLink, CutEnds, Situation, Nexts, Firsts, Prevs, Lasts, KidsOf;
  }

  /** Inserting a removed node: the new child is taken from the parent it names, and linked in at its place. Where the
      source would follow pointers for ever, the answer says so; otherwise these are all the pointers that are left. They
      give exactly the lists that are meant, with the new child in its place and nobody lost, if and only if the kept
      pointers do no harm. When they do not, they can still be the pointers of other, shorter lists. */
  method InsertRemoved(p: DomNode, c: DomNode, ref: DomNode?, ghost world: set<DomNode>) returns (ended: bool)
    requires Situation(p, c, ref, world)
    modifies world`firstChild, world`lastChild, world`previousSibling, world`nextSibling,
             c.parentNode`childNodes, p`childNodes, c`parentNode, p`kids
    ensures p.kids == Inserted(old(p.kids), ref, [c])
    ensures ended && Valid(world) <==> old(Heals(p, c, ref, world))
    ensures ended <==> old(Halts(Now(world), p, c, ref, c.parentNode, c.previousSibling, c.nextSibling))
    ensures ended ==>
      Left(world, p, c)
      && Now(world) == old(Edited(Now(world), p, c, ref, c.parentNode, c.previousSibling, c.nextSibling))
  {
    TableKeys(world);
    hide *;
    ghost var f, b := Forwards(world), Backwards(world);
    ghost var cp, previous, next, before := c.parentNode, c.previousSibling, c.nextSibling, Before(p, ref);
    SituationIs(p, c, ref, world);
    RefInside(p, c, ref, world);
    ghost var left, right := GapIs(p, c, ref, world);
    ListsOf(world, p);
    ValidStanding(world, {p, cp});
    HealsRead(p, c, ref, world, f, b, left, right);
    ended := CutAndLink(p, c, ref, world, f, b, left, right, before, cp, previous, next);
  }

  // ---- appending ----

  /** Appending extends the array as it is after the removal, so under the old parent itself it must be right by then. */
  ghost predicate ArrayKept(p: DomNode, c: DomNode)
    reads p, c, c.previousSibling
  {
    c.parentNode == p ==>
      if c.previousSibling == null then p.firstChild == c.nextSibling
      else c.previousSibling.nextSibling == c.nextSibling || c.previousSibling !in p.kids
  }

  /** After the removal the chain of the old parent is still its list exactly if no pointer of it was changed. */
  lemma ChainKept(ends: Links, link: Links, ks: seq<DomNode>, cp: DomNode, a: DomNode?, b: DomNode?)
    requires cp in ends && Chain(link, ends[cp], ks) && (a != null ==> a in link)
    ensures Chain(CutLink(link, a, b), CutEnds(ends, cp, a, b)[cp], ks)
      <==> if a == null then ends[cp] == b else link[a] == b || a !in ks
  {
    var l1 := CutLink(link, a, b);
    if a != null {
      if link[a] == b || a !in ks {
        SamePath(link, l1, ks, null);
      } else {
        var i :| 0 <= i < |ks| && ks[i] == a;
        assert Points(link, ks[i], Next(ks, i + 1, null));
        assert !Points(l1, ks[i], Next(ks, i + 1, null));
      }
    }
  }

  /** The result is right exactly if, besides, the array `was` was right before it was extended. */
  lemma Appended(world: set<DomNode>, f: Tables, b: Tables, p: DomNode, cp: DomNode, c: DomNode,
                 left: seq<DomNode>, right: seq<DomNode>, previous: DomNode?, next: DomNode?, before: DomNode?, found: DomNode?,
                 was: seq<DomNode>)
    requires Gapped(f, b, p, cp, c, null, before, left, right) && p in world && cp in world && p.kind == ElementNode
    requires (previous != null ==> previous in f.link) && (next != null ==> next in b.link)
    requires Now(world) == Join(Cut(Pointers(f.link, f.ends, b.link, b.ends), cp, previous, next), p, c, found, null)
    requires Standing(world, f.lists[p := left + [c] + right], {p, cp}) && p.childNodes == was + [c]
    requires cp in f.ends && cp in b.ends && (cp != p ==> was == left)
    requires cp == p ==> Chain(CutLink(f.link, previous, next), CutEnds(f.ends, cp, previous, next)[cp], was)
    requires cp != p && cp.kind == ElementNode ==>
      Chain(CutLink(f.link, previous, next), CutEnds(f.ends, cp, previous, next)[cp], cp.childNodes)
    ensures Valid(world) <==>
      found == before && Harmless(f.ends, f.link, f.lists, p, cp, previous, next, before)
      && Harmless(b.ends, b.link, b.lists, p, cp, next, previous, null)
      && (cp == p ==> Chain(CutLink(f.link, previous, next), CutEnds(f.ends, cp, previous, next)[cp], left))
  {
    var link, from := CutLink(f.link, previous, next), CutEnds(f.ends, cp, previous, next)[cp];
    hide *;
    StandingParents(world, f.lists[p := left + [c] + right], {p, cp});
    ChainsRight(world, f, b, p, cp, c, null, left, right, previous, next, before, found);
    ValidIs(world);
    assert right == [];
    ExtendedIs(left, was, c);
    OwnArray(world, p);
    assert p.kids == left + [c] + right;
    if cp == p && Chain(link, from, left) {
      ChainUnique(link, from, was, left);
    }
    if AllForward(world) && AllBackward(world) && was == left {
      ArraysRight(world, f, b, p, cp, c, null, left, right, previous, next, before);
    }
  }

  lemma ExtendedIs(left: seq<DomNode>, was: seq<DomNode>, c: DomNode)
    ensures was + [c] == left + [c] + [] <==> was == left
  {
    assert (was + [c])[..|was|] == was && (left + [c] + [])[..|left|] == left;
  }

  lemma OwnArray(world: set<DomNode>, p: DomNode)
    requires p in world && p.kind == ElementNode
    ensures AllElse(world) ==> p.childNodes == p.kids
  {
    hide Distinct, Parented, Closed;
  }

  method Extend(p: DomNode, c: DomNode, ghost world: set<DomNode>, ghost lists: Lists, ghost except: set<DomNode>)
    requires Standing(world, lists, except) && p in except
    modifies p`childNodes
    ensures Standing(world, lists, except) && p.childNodes == old(p.childNodes) + [c]
    ensures Now(world) == old(Now(world)) && Inside(world) == old(Inside(world))
  {
    hide Distinct, Parented, Closed, KidsOf, Now, Inside;
    p.childNodes := p.childNodes + [c];
  }

  method LinkExtend(p: DomNode, c: DomNode, ghost world: set<DomNode>, ghost except: set<DomNode>,
                    ghost lists: Lists, ghost left: seq<DomNode>, ghost right: seq<DomNode>) returns (found: DomNode?)
    requires Inside(world) && p in world && c in world
    requires p in except && Standing(world, lists, except) && p in lists && lists[p] == left + right
    requires Distinct(left + [c] + right)
    requires forall q, i :: q in lists && 0 <= i < |lists[q]| ==> lists[q][i] != c
    modifies world`firstChild, world`lastChild, world`nextSibling, world`previousSibling,
             c`parentNode, p`childNodes, p`kids
    ensures Inside(world) && c.parentNode == p
    ensures found == old(Before(p, null)) && Now(world) == Join(old(Now(world)), p, c, found, null)
    ensures p.kids == left + [c] + right && Standing(world, lists[p := left + [c] + right], except)
    ensures p.childNodes == old(p.childNodes) + [c]
  {
    hide Inside, Distinct, Join, Now, Standing;
    found := JoinAdopt(p, c, null, world, lists, except);
    Extend(p, c, world, lists, except);
    Record(p, c, world, lists, except, left, right);
  }

  /** The linking at the end, in terms of the tables. */
  method LinkEnd(p: DomNode, c: DomNode, ghost world: set<DomNode>, ghost f: Tables, ghost b: Tables,
                 ghost cp: DomNode, ghost previous: DomNode?, ghost next: DomNode?,
                 ghost left: seq<DomNode>, ghost right: seq<DomNode>, ghost before: DomNode?,
                 ghost was: seq<DomNode>, ghost link: Links, ghost ends: Links)
    requires cp in f.ends && cp in b.ends && (previous != null ==> previous in f.link) && (next != null ==> next in b.link)
    requires Inside(world) && p in world && c in world && cp in world && p.kind == ElementNode
    requires Gapped(f, b, p, cp, c, null, before, left, right) && p in f.lists && f.lists[p] == left + right
    requires Distinct(left + [c] + right) && Standing(world, f.lists, {p, cp})
    requires forall q, i :: q in f.lists && 0 <= i < |f.lists[q]| ==> f.lists[q][i] != c
    requires Now(world) == Cut(Pointers(f.link, f.ends, b.link, b.ends), cp, previous, next)
    requires p.childNodes == was && (cp != p ==> was == left)
    requires link == CutLink(f.link, previous, next) && ends == CutEnds(f.ends, cp, previous, next) && cp in ends
    requires cp == p ==> Chain(link, ends[cp], was)
    requires cp != p && cp.kind == ElementNode ==> Chain(link, ends[cp], cp.childNodes)
    modifies world`firstChild, world`lastChild, world`nextSibling, world`previousSibling,
             c`parentNode, p`childNodes, p`kids
    ensures p.kids == left + [c] + right && Inside(world) && c.parentNode == p
    ensures Now(world) == Join(old(Now(world)), p, c, old(Before(p, null)), null)
    ensures Valid(world) <==>
      old(Before(p, null)) == before && Harmless(f.ends, f.link, f.lists, p, cp, previous, next, before)
      && Harmless(b.ends, b.link, b.lists, p, cp, next, previous, null)
      && (cp == p ==> Chain(link, ends[cp], left))
  {
    hide Gapped, Harmless, Distinct, Chain, Valid, Standing, CutLink, CutEnds, Join, Cut, Now, Inside;
    var pre := LinkExtend(p, c, world, {p, cp}, f.lists, left, right);
    Appended(world, f, b, p, cp, c, left, right, previous, next, before, pre, was);
  }

  /** The removal and the linking at the end, in terms of the tables. */
  method CutAndAppend(p: DomNode, c: DomNode, ghost world: set<DomNode>, ghost f: Tables, ghost b: Tables,
                      ghost left: seq<DomNode>, ghost right: seq<DomNode>, ghost before: DomNode?,
                      ghost cp: DomNode, ghost previous: DomNode?, ghost next: DomNode?)
    returns (ended: bool)
    requires cp in f.ends && cp in b.ends && (previous != null ==> previous in f.link) && (next != null ==> next in b.link)
    requires Inside(world) && p in world && c in world && cp in world && p.kind == ElementNode && p.childNodes == left
    requires cp == c.parentNode && previous == c.previousSibling && next == c.nextSibling
    requires Gapped(f, b, p, cp, c, null, before, left, right) && p in f.lists && f.lists[p] == left + right
    requires Distinct(left + [c] + right) && Standing(world, f.lists, {p, cp})
    requires forall q, i :: q in f.lists && 0 <= i < |f.lists[q]| ==> f.lists[q][i] != c
    requires p in b.ends && Now(world) == Pointers(f.link, f.ends, b.link, b.ends)
    modifies world`firstChild, world`lastChild, world`nextSibling, world`previousSibling,
             cp`childNodes, p`childNodes, c`parentNode, p`kids
    ensures p.kids == left + [c] + right
    ensures ended ==> Inside(world) && c.parentNode == p && Now(world) == Edited(old(Now(world)), p, c, null, cp, previous, next)
    ensures ended && Valid(world) <==>
      Repaired(f, b, p, cp, null, previous, next, before)
      && (cp == p ==> Chain(CutLink(f.link, previous, next), CutEnds(f.ends, cp, previous, next)[cp], left))
  {
    hide Gapped, Harmless, Distinct, Chain, Ends, Valid, Standing, Found, CutLink, CutEnds, Cut, Now, Inside;
    ended := CutOff(c, world, f.lists, {p, cp});
    AfterCut(world, Pointers(f.link, f.ends, b.link, b.ends), cp, previous, next, p, null);
    if ended {
      LinkEnd(p, c, world, f, b, cp, previous, next, left, right, before, p.childNodes,
              CutLink(f.link, previous, next), CutEnds(f.ends, cp, previous, next));
    } else {
      p.kids := left + [c] + right;
    }
  }

  /** Appending a removed node to an element. The condition is again that nobody is lost. */
  method AppendRemoved(p: DomNode, c: DomNode, ghost world: set<DomNode>) returns (ended: bool)
    requires Situation(p, c, null, world) && p.kind == ElementNode
    modifies world`firstChild, world`lastChild, world`previousSibling, world`nextSibling,
             c.parentNode`childNodes, p`childNodes, c`parentNode, p`kids
    ensures p.kids == old(p.kids) + [c]
    ensures ended && Valid(world) <==> old(Heals(p, c, null, world)) && old(ArrayKept(p, c))
    ensures ended ==>
      Inside(world) && c.parentNode == p
      && Now(world) == old(Edited(Now(world), p, c, null, c.parentNode, c.previousSibling, c.nextSibling))
  {
    TableKeys(world);
    hide *;
    ghost var f, b := Forwards(world), Backwards(world);
    ghost var cp, previous, next, before := c.parentNode, c.previousSibling, c.nextSibling, Before(p, null);
    SituationIs(p, c, null, world);
    RefInside(p, c, null, world);
    ghost var left, right := GapIs(p, c, null, world);
    ListsOf(world, p);
    ValidStanding(world, {p, cp});
    HealsRead(p, c, null, world, f, b, left, right);
    AtEnd(p, c, world, f, b, left, right);
    ended := CutAndAppend(p, c, world, f, b, left, right, before, cp, previous, next);
  }

  lemma AtEnd(p: DomNode, c: DomNode, world: set<DomNode>, f: Tables, b: Tables, left: seq<DomNode>, right: seq<DomNode>)
    requires Situation(p, c, null, world) && f == Forwards(world) && b == Backwards(world) && p.kind == ElementNode
    requires Gapped(f, b, p, c.parentNode, c, null, Before(p, null), left, right)
    ensures right == [] && left == p.kids == p.childNodes
    ensures var cp, previous, next := c.parentNode, c.previousSibling, c.nextSibling;
      cp in f.ends && (ArrayKept(p, c) <==>
        (cp == p ==> Chain(CutLink(f.link, previous, next), CutEnds(f.ends, cp, previous, next)[cp], left)))
  {
    assert p.Linked();
    InsideAt(world, c);
    assert f.ends[p] == p.firstChild && f.lists[p] == p.kids;
    assert right == [] && left + right == left;
    assert Chain(f.link, f.ends[p], left);
    hide Gapped, Chain, Valid, Inside, Listed;
    ChainKept(f.ends, f.link, left, p, c.previousSibling, c.nextSibling);
  }

  // ---- one removed node, put in again in three ways ----

  lemma KidInside(world: set<DomNode>, p: DomNode, n: DomNode)
    requires Valid(world) && p in world && n in p.kids
    ensures n in world && (n.nextSibling == null || n.nextSibling in world)
    ensures n.previousSibling == null || n.previousSibling in world
  {
    assert p.Linked();
    var i :| 0 <= i < |p.kids| && p.kids[i] == n;
    assert n.nextSibling == Next(p.kids, i + 1, null) && n.previousSibling == Next(p.kids, i - 1, null);
  }

  lemma EndsInside(world: set<DomNode>, p: DomNode)
    requires Valid(world) && p in world
    ensures (p.firstChild == null || p.firstChild in world) && (p.lastChild == null || p.lastChild in world)
  {
    assert p.Linked();
  }

  lemma OnlyHere(world: set<DomNode>, p: DomNode, child: DomNode)
    requires Valid(world) && p in world && child in p.kids
    ensures child in world && forall q :: q in world && q != p ==> child !in q.kids
    ensures forall n :: n != child ==> (n in Without(p.kids, child) <==> n in p.kids)
    ensures child !in Without(p.kids, child)
  {
    DistinctKids(world, p);
    WithoutGone(p.kids, child);
    forall q | q in world && q != p ensures child !in q.kids {
      OneParent(world, p, q);
    }
  }

  lemma Nowhere(world: set<DomNode>, child: DomNode)
    requires forall q :: q in world ==> child !in q.kids
    ensures !Listed(world, child)
  {
  }

  lemma Elsewhere(world: set<DomNode>, child: DomNode)
    requires !Listed(world, child)
    ensures forall q :: q in world ==> child !in q.kids
  {
    forall q | q in world ensures child !in q.kids {
      assert forall i :: 0 <= i < |q.kids| ==> q.kids[i] != child;
    }
  }

  /** A removal, and what it does not touch. */
  method RemoveOne(p: DomNode, child: DomNode, ghost world: set<DomNode>)
    requires Valid(world) && p in world && child in p.kids
    modifies world`parentNode, world`firstChild, world`lastChild, world`previousSibling, world`nextSibling,
             world`childNodes, world`kids
    ensures Valid(world) && p.kids == Without(old(p.kids), child)
    ensures child.previousSibling == old(child.previousSibling) && child.nextSibling == old(child.nextSibling)
    ensures forall n :: n in world && n !in old(p.kids) ==>
      n.previousSibling == old(n.previousSibling) && n.nextSibling == old(n.nextSibling)
    ensures forall q :: q in world && q != p ==>
      q.kids == old(q.kids) && q.firstChild == old(q.firstChild) && q.lastChild == old(q.lastChild)
    ensures forall n :: n in world ==> n.parentNode == old(n.parentNode)
  {
    KidsInside(world);
    hide Without, Valid;
    RemoveChild(p, child, world);
  }

  method Remove(p: DomNode, child: DomNode, ghost world: set<DomNode>)
    requires Valid(world) && Inside(world) && p in world && child in p.kids
    modifies world`parentNode, world`firstChild, world`lastChild, world`previousSibling, world`nextSibling,
             world`childNodes, world`kids
    ensures Valid(world) && Inside(world) && !Listed(world, child) && p.kids == Without(old(p.kids), child)
    ensures child.previousSibling == old(child.previousSibling) && child.nextSibling == old(child.nextSibling)
    ensures forall n :: n in world && n !in old(p.kids) ==>
      n.previousSibling == old(n.previousSibling) && n.nextSibling == old(n.nextSibling)
    ensures forall q :: q in world && q != p ==> q.kids == old(q.kids)
    ensures forall n :: n in world ==> n.parentNode == old(n.parentNode)
  {
    OnlyHere(world, p, child);
    hide Without, Valid, Listed;
    RemoveOne(p, child, world);
    Nowhere(world, child);
    EndsInside(world, p);
    forall n | n in world
      ensures (n.nextSibling == null || n.nextSibling in world) && (n.previousSibling == null || n.previousSibling in world)
    {
      if n in p.kids {
        KidInside(world, p, n);
      }
    }
  }

  /** Of three children the last two are removed. */
  method RemoveTwo(p: DomNode, a: DomNode, b: DomNode, c: DomNode, ghost world: set<DomNode>)
    requires Valid(world) && Inside(world) && p in world && p.kids == [a, b, c]
    modifies world`parentNode, world`firstChild, world`lastChild, world`previousSibling, world`nextSibling,
             world`childNodes, world`kids
    ensures Valid(world) && Inside(world) && p.kids == [a] && {a, b, c} <= world && a != c
    ensures b.parentNode == p && b.previousSibling == a && b.nextSibling == c && !Listed(world, b)
    ensures c.previousSibling == a && c.nextSibling == null
  {
    ThreeKids(world, p, a, b, c);
    hide *;
    Remove(p, b, world);
    assert b.parentNode == p;
    TwoKids(world, p, a, c);
    Elsewhere(world, b);
    assert b !in p.kids;
    Remove(p, c, world);
    assert b.parentNode == p;
    Nowhere(world, b);
  }

  lemma ThreeKids(world: set<DomNode>, p: DomNode, a: DomNode, b: DomNode, c: DomNode)
    requires Valid(world) && p in world && p.kids == [a, b, c]
    ensures b.previousSibling == a && b.nextSibling == c && b.parentNode == p && {a, b, c} <= world
    ensures a != b && b != c && a != c && a in p.kids && b in p.kids && c in p.kids
    ensures Without([a, b, c], b) == [a, c]
  {
    DistinctKids(world, p);
    assert p.Linked();
    assert p.kids[0] == a && p.kids[1] == b && p.kids[2] == c;
    WithoutAt([a, b, c], 1);
  }

  lemma TwoKids(world: set<DomNode>, p: DomNode, a: DomNode, c: DomNode)
    requires Valid(world) && p in world && p.kids == [a, c]
    ensures c.previousSibling == a && c.nextSibling == null && c in p.kids && Without([a, c], c) == [a]
  {
    DistinctKids(world, p);
    assert p.Linked();
    assert p.kids[0] == a && p.kids[1] == c;
    WithoutAt([a, c], 1);
  }

  /** Put in front of the one that is left, the pointers are not those of the list that is meant: the other removed node
      becomes a sibling again, seen from the front. */
  method PutFirst(p: DomNode, a: DomNode, b: DomNode, c: DomNode, ghost world: set<DomNode>) returns (ended: bool)
    requires Valid(world) && Inside(world) && p in world && p.kids == [a, b, c]
    modifies world`parentNode, world`firstChild, world`lastChild, world`previousSibling, world`nextSibling,
             world`childNodes, world`kids
    ensures p.kids == [b, a] && !(ended && Valid(world))
  {
    hide Inside, Without, Inserted;
    RemoveTwo(p, a, b, c, world);
    NotHealed(p, a, b, c, world);
    Sole(a, b);
    hide *;
    ended := InsertRemoved(p, b, a, world);
  }

  /** Put in at the end by an insertion, all is well. */
  method PutLast(p: DomNode, a: DomNode, b: DomNode, c: DomNode, ghost world: set<DomNode>) returns (ended: bool)
    requires Valid(world) && Inside(world) && p in world && p.kids == [a, b, c]
    modifies world`parentNode, world`firstChild, world`lastChild, world`previousSibling, world`nextSibling,
             world`childNodes, world`kids
    ensures p.kids == [a, b] && ended && Valid(world)
  {
    hide Inside, Without, Inserted;
    RemoveTwo(p, a, b, c, world);
    Healed(p, a, b, c, world);
    Sole(a, b);
    hide *;
    ended := InsertRemoved(p, b, null, world);
  }

  /** Appended to an element, the array keeps what the removal had put there. */
  method PutAppended(p: DomNode, a: DomNode, b: DomNode, c: DomNode, ghost world: set<DomNode>) returns (ended: bool)
    requires Valid(world) && Inside(world) && p in world && p.kids == [a, b, c] && p.kind == ElementNode
    modifies world`parentNode, world`firstChild, world`lastChild, world`previousSibling, world`nextSibling,
             world`childNodes, world`kids
    ensures p.kids == [a, b] && !(ended && Valid(world))
  {
    hide Inside, Without, Inserted;
    RemoveTwo(p, a, b, c, world);
    OnlyKid(world, p, a);
    assert !ArrayKept(p, b);
    hide *;
    ended := AppendRemoved(p, b, world);
  }

  lemma OnlyKid(world: set<DomNode>, p: DomNode, a: DomNode)
    requires Valid(world) && p in world && p.kids == [a]
    ensures a in p.kids && a.previousSibling == null && a.nextSibling == null
    ensures p.firstChild == a && p.lastChild == a && Listed(world, a)
  {
    assert p.Linked() && p.kids[0] == a;
  }

  lemma Sole(a: DomNode, b: DomNode)
    ensures Inserted([a], a, [b]) == [b, a] && Inserted([a], null, [b]) == [a, b]
  {
  }

  lemma NotHealed(p: DomNode, a: DomNode, b: DomNode, c: DomNode, world: set<DomNode>)
    requires Valid(world) && p in world && p.kids == [a] && a != c
    requires b.parentNode == p && b.previousSibling == a && b.nextSibling == c
    ensures !Heals(p, b, a, world)
  {
    OnlyKid(world, p, a);
    hide Valid, Listed, EndsWithout;
  }

  lemma Healed(p: DomNode, a: DomNode, b: DomNode, c: DomNode, world: set<DomNode>)
    requires Valid(world) && p in world && p.kids == [a] && a != c && c in world
    requires b.parentNode == p && b.previousSibling == a && b.nextSibling == c
    requires c.previousSibling == a && c.nextSibling == null
    ensures Heals(p, b, null, world)
  {
    OnlyKid(world, p, a);
    hide Valid, Listed;
    assert Chain(Nexts(world), c, [c]);
  }

  // ---- a child that is lost ----

  /** Both children are removed. */
  method RemoveBoth(p: DomNode, b: DomNode, c: DomNode, ghost world: set<DomNode>)
    requires Valid(world) && Inside(world) && p in world && p.kids == [b, c]
    modifies world`parentNode, world`firstChild, world`lastChild, world`previousSibling, world`nextSibling,
             world`childNodes, world`kids
    ensures Valid(world) && Inside(world) && p.kids == [] && {b, c} <= world && b != c
    ensures b.parentNode == p && b.previousSibling == null && b.nextSibling == c && !Listed(world, b)
    ensures c.parentNode == p && c.previousSibling == null && c.nextSibling == null && !Listed(world, c)
  {
    BothKids(world, p, b, c);
    hide *;
    Remove(p, b, world);
    OnlyKid(world, p, c);
    Elsewhere(world, b);
    assert b !in p.kids;
    Remove(p, c, world);
    Nowhere(world, b);
  }

  lemma BothKids(world: set<DomNode>, p: DomNode, b: DomNode, c: DomNode)
    requires Valid(world) && p in world && p.kids == [b, c]
    ensures b.previousSibling == null && b.nextSibling == c && b.parentNode == p && c.parentNode == p && {b, c} <= world
    ensures b != c && b in p.kids && Without([b, c], b) == [c] && Without([c], c) == []
  {
    DistinctKids(world, p);
    assert p.Linked();
    assert p.kids[0] == b && p.kids[1] == c;
    WithoutAt([b, c], 0);
    WithoutAt([c], 0);
  }

  /** The pointers after a node without a neighbour before it is put at the end of the empty list it was in, */
  lemma AloneEdit(s: Pointers, p: DomNode, c: DomNode, next: DomNode?)
    requires p in s.lasts && (next != null ==> s.lasts[p] == null && next != c)
    ensures Edited(s, p, c, null, p, null, next)
      == Pointers(s.nexts[c := null], s.firsts[p := c], (if next == null then s.prevs else s.prevs[next := null])[c := null],
                  s.lasts[p := c])
  {
    assert s.firsts[p := next][p := c] == s.firsts[p := c];
    assert s.lasts[p := null][p := c] == s.lasts[p := c];
  }

  /** and both loops end. */
  lemma AloneHalts(s: Pointers, p: DomNode, c: DomNode)
    requires p in s.lasts && p in s.firsts
    ensures Halts(s, p, c, null, p, null, null)
  {
    AloneEdit(s, p, c, null);
    hide Edited;
    assert Chain(s.nexts, null, []);
    assert Chain(s.nexts[c := null], c, [c]);
  }

  lemma TablesRead(world: set<DomNode>, n: DomNode)
    requires n in world
    ensures n in Now(world).nexts && n in Now(world).firsts && n in Now(world).prevs && n in Now(world).lasts
    ensures Now(world).nexts[n] == n.nextSibling && Now(world).firsts[n] == n.firstChild
    ensures Now(world).prevs[n] == n.previousSibling && Now(world).lasts[n] == n.lastChild
  {
  }

  /** The first of two removed children is put in again, which heals. */
  method PutBack(p: DomNode, b: DomNode, c: DomNode, ghost world: set<DomNode>)
    requires Valid(world) && Inside(world) && p in world && p.kids == [b, c]
    modifies world`parentNode, world`firstChild, world`lastChild, world`previousSibling, world`nextSibling,
             world`childNodes, world`kids
    ensures Situation(p, c, null, world) && p.kids == [b] && {b, c} <= world && b != c
    ensures b.parentNode == p && c.parentNode == p && c.previousSibling == null && c.nextSibling == null
  {
    hide *;
    RemoveBoth(p, b, c, world);
    BackHeals(world, p, b, c);
    Elsewhere(world, c);
    PutFirstChild(p, b, c, world);
    assert c !in p.kids;
    Nowhere(world, c);
    SituationHolds(p, c, null, world);
  }

  method PutFirstChild(p: DomNode, b: DomNode, c: DomNode, ghost world: set<DomNode>)
    requires Situation(p, b, null, world) && Heals(p, b, null, world) && p.lastChild == null && p.kids == []
    requires p in world && c in world && b != c
    requires b.parentNode == p && b.previousSibling == null && b.nextSibling == c
    requires c.previousSibling == null && c.nextSibling == null
    modifies world`firstChild, world`lastChild, world`previousSibling, world`nextSibling,
             p`childNodes, b`parentNode, p`kids
    ensures Valid(world) && Inside(world) && p.kids == [b] && b.parentNode == p
    ensures c.previousSibling == null && c.nextSibling == null
  {
    ghost var s := Now(world);
    TablesRead(world, c);
    TablesRead(world, p);
    AloneEdit(s, p, b, c);
    InsertedInEmpty(b);
    hide *;
    var ended := InsertRemoved(p, b, null, world);
    LeftIs(world, p, b);
    TablesRead(world, c);
  }

  lemma InsertedInEmpty(b: DomNode)
    ensures Inserted([], null, [b]) == [b]
  {
  }

  lemma LeftIs(world: set<DomNode>, p: DomNode, c: DomNode)
    requires Left(world, p, c)
    ensures Inside(world) && c.parentNode == p && Chain(Now(world).nexts, p.firstChild, p.childNodes)
  {
  }

  lemma SituationHolds(p: DomNode, c: DomNode, ref: DomNode?, world: set<DomNode>)
    requires Valid(world) && Inside(world) && p in world && c in world && (ref == null || ref in p.kids)
    requires c.parentNode != null && c.parentNode in world && !Listed(world, c)
    ensures Situation(p, c, ref, world)
  {
  }

  lemma BackHeals(world: set<DomNode>, p: DomNode, b: DomNode, c: DomNode)
    requires Valid(world) && Inside(world) && p in world && p.kids == [] && {b, c} <= world && b != c
    requires b.parentNode == p && b.previousSibling == null && b.nextSibling == c && !Listed(world, b)
    requires c.previousSibling == null && c.nextSibling == null
    ensures Situation(p, b, null, world) && Heals(p, b, null, world) && p.lastChild == null
  {
    assert p.Linked();
    hide Valid, Inside, Listed;
    assert Chain(Nexts(world), c, [c]);
  }

  /** The lists of a world in which `c` alone is under `p`. */
  lemma AloneChains(ends: Links, link: Links, lists: Lists, p: DomNode, c: DomNode)
    requires AllChains(ends, link, lists) && !InList(lists, c) && p in lists
    ensures AllChains(ends[p := c], link[c := null], lists[p := [c]])
  {
    var e1, l1 := ends[p := c], link[c := null];
    forall q | q in lists ensures q in e1 && Chain(l1, e1[q], lists[p := [c]][q]) {
      if q != p {
        assert Chain(link, ends[q], lists[q]);
        assert forall i :: 0 <= i < |lists[q]| ==> lists[q][i] != c;
        SamePath(link, l1, lists[q], null);
      }
    }
  }

  lemma AloneElse(world: set<DomNode>, r: Rest, p: DomNode, c: DomNode)
    requires Sound(r, {}) && Elsewise(world, r, p, c) && p in world && c in world && !InList(r.lists, c)
    requires p.kids == [c] && c.parentNode == p && p.childNodes == [c]
    ensures AllElse(world)
  {
    assert Distinct([c]);
    hide Distinct;
    forall q, i | q in world && 0 <= i < |q.kids| ensures q.kids[i] in world && q.kids[i].parentNode == q {
      if q != p {
        assert r.lists[q][i] != c;
      }
    }
  }

  lemma AloneLists(world: set<DomNode>, r: Rest, p: DomNode, c: DomNode)
    requires Elsewise(world, r, p, c) && p in world && p.kids == [c]
    ensures KidsOf(world) == r.lists[p := [c]] && Reverses(KidsOf(world)) == Reverses(r.lists)[p := [c]]
  {
    assert Reversed([c]) == [c];
    assert KidsOf(world) == r.lists[p := [c]];
    hide KidsOf, Reversed, Elsewise;
    ReversesUpdate(r.lists, p, [c]);
  }

  /** With `c` alone under `p`, the pointers and arrays are right. */
  lemma AloneValid(world: set<DomNode>, s: Pointers, r: Rest, p: DomNode, c: DomNode)
    requires AllChains(s.firsts, s.nexts, r.lists) && AllChains(s.lasts, s.prevs, Reverses(r.lists))
    requires Sound(r, {}) && Elsewise(world, r, p, c) && p in world && c in world
    requires !InList(r.lists, c) && !InList(Reverses(r.lists), c)
    requires Now(world) == Pointers(s.nexts[c := null], s.firsts[p := c], s.prevs[c := null], s.lasts[p := c])
    requires p.kids == [c] && c.parentNode == p && Chain(Now(world).nexts, p.firstChild, p.childNodes)
    ensures Valid(world) && p.childNodes == [c]
  {
    AloneArray(world, s, p, c);
    hide Chain, Elsewise, Sound, InList, AllElse, Valid;
    AloneElse(world, r, p, c);
    AloneLists(world, r, p, c);
    ListKeys(world, r, p, c);
    AloneChains(s.firsts, s.nexts, r.lists, p, c);
    AloneChains(s.lasts, s.prevs, Reverses(r.lists), p, c);
    ValidIs(world);
  }

  lemma ListKeys(world: set<DomNode>, r: Rest, p: DomNode, c: DomNode)
    requires Elsewise(world, r, p, c) && p in world
    ensures p in r.lists && p in Reverses(r.lists)
  {
  }

  lemma AloneArray(world: set<DomNode>, s: Pointers, p: DomNode, c: DomNode)
    requires Now(world) == Pointers(s.nexts[c := null], s.firsts[p := c], s.prevs[c := null], s.lasts[p := c])
    requires p in world && Chain(Now(world).nexts, p.firstChild, p.childNodes)
    ensures p.childNodes == [c]
  {
    TablesRead(world, p);
    assert Chain(Now(world).nexts, c, [c]);
    ChainUnique(Now(world).nexts, c, p.childNodes, [c]);
  }

  /** The node that was the only child once, and does not know of the one that came after it, is put at the end. */
  method Overwrite(p: DomNode, b: DomNode, c: DomNode, ghost world: set<DomNode>) returns (ended: bool)
    requires Situation(p, c, null, world) && p.kids == [b] && p.kind == ElementNode
    requires c.parentNode == p && c.previousSibling == null && c.nextSibling == null
    modifies world`firstChild, world`lastChild, world`previousSibling, world`nextSibling,
             p`childNodes, c`parentNode, p`kids
    ensures !old(Heals(p, c, null, world))
    ensures ended && Valid(world) && p.kids == [c] && p.childNodes == [c]
  {
    ghost var s, r := Now(world), RestOf(world);
    Behind(p, b, c, world);
    RestRead(world);
    SituationIs(p, c, null, world);
    hide *;
    ended := PutElsewise(p, c, world);
    SetKids(p, c, world, r);
    AloneValid(world, s, r, p, c);
  }

  method PutAlone(p: DomNode, c: DomNode, ghost world: set<DomNode>) returns (ended: bool)
    requires Situation(p, c, null, world) && c.parentNode == p && c.previousSibling == null && c.nextSibling == null
    modifies world`firstChild, world`lastChild, world`previousSibling, world`nextSibling,
             p`childNodes, c`parentNode, p`kids
    ensures ended && c.parentNode == p && Chain(Now(world).nexts, p.firstChild, p.childNodes)
    ensures var s := old(Now(world));
      Now(world) == Pointers(s.nexts[c := null], s.firsts[p := c], s.prevs[c := null], s.lasts[p := c])
  {
    ghost var s := Now(world);
    SituationIs(p, c, null, world);
    TablesRead(world, p);
    AloneEdit(s, p, c, null);
    AloneHalts(s, p, c);
    hide *;
    ended := InsertRemoved(p, c, null, world);
    LeftIs(world, p, c);
  }

  method PutElsewise(p: DomNode, c: DomNode, ghost world: set<DomNode>) returns (ended: bool)
    requires Situation(p, c, null, world) && c.parentNode == p && c.previousSibling == null && c.nextSibling == null
    modifies world`firstChild, world`lastChild, world`previousSibling, world`nextSibling,
             p`childNodes, c`parentNode, p`kids
    ensures ended && c.parentNode == p && Chain(Now(world).nexts, p.firstChild, p.childNodes)
    ensures var s := old(Now(world));
      Now(world) == Pointers(s.nexts[c := null], s.firsts[p := c], s.prevs[c := null], s.lasts[p := c])
    ensures Elsewise(world, old(RestOf(world)), p, c)
  {
    ghost var r := RestOf(world);
    RestRead(world);
    hide *;
    ended := PutAlone(p, c, world);
    assert forall q :: q in world && q != p ==> q.kids == r.lists[q];
    assert forall q :: q in world && q != p ==> q.childNodes == r.arrays[q];
    assert forall n :: n in world && n != c ==> n.parentNode == r.ups[n];
    ElsewiseFrom(world, r, p, c);
  }

  lemma ElsewiseFrom(world: set<DomNode>, r: Rest, p: DomNode, c: DomNode)
    requires r.lists.Keys == r.ups.Keys == r.arrays.Keys == world
    requires forall q :: q in world && q != p ==> q.kids == r.lists[q]
    requires forall q :: q in world && q != p ==> q.childNodes == r.arrays[q]
    requires forall n :: n in world && n != c ==> n.parentNode == r.ups[n]
    ensures Elsewise(world, r, p, c)
  {
  }

  /** The list that the pointers give. */
  ghost method SetKids(p: DomNode, c: DomNode, world: set<DomNode>, r: Rest)
    requires Elsewise(world, r, p, c) && p in world
    modifies p`kids
    ensures p.kids == [c] && Elsewise(world, r, p, c) && Now(world) == old(Now(world))
  {
    p.kids := [c];
  }

  lemma Behind(p: DomNode, b: DomNode, c: DomNode, world: set<DomNode>)
    requires Situation(p, c, null, world) && p.kids == [b]
    requires c.parentNode == p && c.previousSibling == null && c.nextSibling == null
    ensures !Heals(p, c, null, world) && AllElse(world)
    ensures AllChains(Now(world).firsts, Now(world).nexts, KidsOf(world))
    ensures AllChains(Now(world).lasts, Now(world).prevs, Reverses(KidsOf(world)))
    ensures !InList(KidsOf(world), c) && !InList(Reverses(KidsOf(world)), c)
  {
    OnlyKid(world, p, b);
    ValidIs(world);
    ListedIs(world, c);
    hide Valid, Inside, Listed, InList, Chain, EndsWithout, AllElse;
  }

  /** Of two children both are removed and the first is put in again, then the second. The lists and arrays are well
      formed in the end, but the first is in none of them. */
  method LoseChild(p: DomNode, b: DomNode, c: DomNode, ghost world: set<DomNode>) returns (ended: bool)
    requires Valid(world) && Inside(world) && p in world && p.kids == [b, c] && p.kind == ElementNode
    modifies world`parentNode, world`firstChild, world`lastChild, world`previousSibling, world`nextSibling,
             world`childNodes, world`kids
    ensures ended && Valid(world) && p.kids == [c] && p.childNodes == [c] && b.parentNode == p && b != c
  {
    hide *;
    PutBack(p, b, c, world);
    ended := Overwrite(p, b, c, world);
  }

  // ---- a node put in front of itself ----

  /** The chain up to `c`, which then leads to itself. */
  lemma Looping(link: Links, ks: seq<DomNode>, i: nat, previous: DomNode?, next: DomNode?)
    requires Path(link, ks, null) && Distinct(ks) && i < |ks| && previous == Next(ks, i - 1, null)
    ensures Path(JoinLink(CutLink(link, previous, next), ks[i], previous, ks[i]), ks[..i + 1], ks[i])
  {
    var l2, c, cs := JoinLink(CutLink(link, previous, next), ks[i], previous, ks[i]), ks[i], ks[..i + 1];
    forall k | 0 <= k < |cs| ensures Points(l2, cs[k], Next(cs, k + 1, c)) {
      assert Points(link, ks[k], Next(ks, k + 1, null));
      assert k < i ==> ks[k] != c;
      assert k < i - 1 ==> ks[k] != previous;
    }
  }

  lemma LoopNeverEnds(s: Pointers, p: DomNode, ks: seq<DomNode>, i: nat, previous: DomNode?, next: DomNode?)
    requires p in s.firsts && Chain(s.nexts, s.firsts[p], ks) && Distinct(ks) && i < |ks|
    requires previous == Next(ks, i - 1, null)
    ensures var s2 := Join(Cut(s, p, previous, next), p, ks[i], previous, ks[i]);
      p in s2.firsts && !Ends(s2.nexts, s2.firsts[p])
  {
    var s2, cs := Join(Cut(s, p, previous, next), p, ks[i], previous, ks[i]), ks[..i + 1];
    Looping(s.nexts, ks, i, previous, next);
    assert s2.firsts[p] == cs[0];
    hide Path, Join, Cut;
    forall ns: seq<DomNode> | Chain(s2.nexts, cs[0], ns) ensures false {
      NeverEnds(s2.nexts, cs, i, ns);
    }
  }

  lemma PlaceIn(world: set<DomNode>, p: DomNode, c: DomNode) returns (i: nat)
    requires Valid(world) && p in world && c in p.kids
    ensures i < |p.kids| && p.kids[i] == c && c.previousSibling == Next(p.kids, i - 1, null) && c.parentNode == p
    ensures c in world && Distinct(p.kids) && Chain(Now(world).nexts, p.firstChild, p.kids) && c.nextSibling != c
  {
    assert p.Linked();
    i :| 0 <= i < |p.kids| && p.kids[i] == c;
    assert c.nextSibling == Next(p.kids, i + 1, null);
    assert forall k :: 0 <= k < |p.kids| ==> p.kids[k] in world;
    ForwardIs(world, p, p.kids);
  }

  lemma PreviousKept(s: Pointers, p: DomNode, c: DomNode, previous: DomNode?, next: DomNode?)
    requires c in s.prevs && s.prevs[c] == previous && next != c
    ensures c in Cut(s, p, previous, next).prevs && Cut(s, p, previous, next).prevs[c] == previous
  {
  }

  /** `insertBefore(c, c)`: the removal leaves `c` its pointers, `c` is tied to itself, and rebuilding the array of its
      parent never ends. */
  method InsertAtItself(p: DomNode, c: DomNode, ghost world: set<DomNode>) returns (ended: bool)
    requires Valid(world) && Inside(world) && p in world && c in p.kids
    modifies world`firstChild, world`lastChild, world`previousSibling, world`nextSibling, p`childNodes, c`parentNode
    ensures !ended
  {
    ghost var s, ks, previous, next := Now(world), p.kids, c.previousSibling, c.nextSibling;
    ghost var i := PlaceIn(world, p, c);
    TablesRead(world, p);
    TablesRead(world, c);
    LoopNeverEnds(s, p, ks, i, previous, next);
    ValidStanding(world, {p});
    PreviousKept(s, p, c, previous, next);
    hide *;
    ended := CutOff(c, world, KidsOf(world), {p});
    if ended {
      BeforeRead(world, p, c);
      ended := LinkToItself(p, c, world);
    }
  }

  method LinkToItself(p: DomNode, c: DomNode, ghost world: set<DomNode>) returns (ended: bool)
    requires Inside(world) && p in world && c in world
    requires var s2 := Join(Now(world), p, c, Before(p, c), c); p in s2.firsts && !Ends(s2.nexts, s2.firsts[p])
    modifies world`firstChild, world`lastChild, world`previousSibling, world`nextSibling, p`childNodes, c`parentNode
    ensures !ended
  {
    hide *;
    var found := JoinRest(p, c, c, world);
    TablesRead(world, p);
    NextsRead(world);
    ended := Rebuild(p, world);
  }

  lemma BeforeRead(world: set<DomNode>, p: DomNode, c: DomNode)
    requires c in world && p in world
    ensures c in Now(world).prevs && Before(p, c) == Now(world).prevs[c]
  {
  }

  lemma NextsRead(world: set<DomNode>)
    ensures Now(world).nexts == Nexts(world)
  {
  }
}
