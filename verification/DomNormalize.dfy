/** `normalize` on the pointers: neighbouring text nodes are merged in place, everywhere below a node. */
module DomNormalize {
  import opened DomTree
  import opened DomStale
  import opened DomAncestors

  // ---- what a subtree says, read off tables ----

  /** The child lists and the data of a world of nodes. */
  datatype Tree = Tree(lists: Lists, data: map<DomNode, string>)

  ghost function TreeOf(world: set<DomNode>): Tree
    reads world`kids, world`data
  {
    Tree(KidsOf(world), map n | n in world :: n.data)
  }

  /** A number for every node that is smaller for its children. */
  type Ranks = map<DomNode, nat>

  ghost predicate Ranked(lists: Lists, h: Ranks) {
    lists.Keys <= h.Keys
    && forall q, i :: q in lists && 0 <= i < |lists[q]| ==> lists[q][i] in lists && h[lists[q][i]] < h[q]
  }

  ghost predicate WellRanked(t: Tree, h: Ranks) {
    Ranked(t.lists, h) && t.data.Keys == t.lists.Keys
  }

  /** A subtree from left to right: the characters of its text nodes, and where every other node begins and ends. */
  datatype Piece = Character(c: char) | Begin(node: DomNode) | End(node: DomNode)

  function Characters(s: string): seq<Piece> {
    seq(|s|, i requires 0 <= i < |s| => Character(s[i]))
  }

  ghost function Reading(t: Tree, h: Ranks, n: DomNode): seq<Piece>
    requires WellRanked(t, h) && n in t.lists
    decreases h[n], 1, 0
  {
    if n.kind == TextNode then Characters(t.data[n])
    else [Begin(n)] + Readings(t, h, h[n], t.lists[n]) + [End(n)]
  }

  ghost predicate Below(t: Tree, h: Ranks, bound: nat, ks: seq<DomNode>) {
    forall i :: 0 <= i < |ks| ==> ks[i] in t.lists && ks[i] in h && h[ks[i]] < bound
  }

  ghost function Readings(t: Tree, h: Ranks, bound: nat, ks: seq<DomNode>): seq<Piece>
    requires WellRanked(t, h) && Below(t, h, bound, ks)
    decreases bound, 0, |ks|
  {
    if ks == [] then [] else Reading(t, h, ks[0]) + Readings(t, h, bound, ks[1..])
  }

  lemma {:induction false} ReadingsConcat(t: Tree, h: Ranks, bound: nat, ks: seq<DomNode>, ms: seq<DomNode>)
    requires WellRanked(t, h) && Below(t, h, bound, ks) && Below(t, h, bound, ms)
    ensures Below(t, h, bound, ks + ms)
    ensures Readings(t, h, bound, ks + ms) == Readings(t, h, bound, ks) + Readings(t, h, bound, ms)
  {
    if ks == [] {
      assert ks + ms == ms;
    } else {
      hide Reading, WellRanked;
      assert (ks + ms)[0] == ks[0] && (ks + ms)[1..] == ks[1..] + ms;
      ReadingsConcat(t, h, bound, ks[1..], ms);
    }
  }

  // ---- no text next to text ----

  ghost predicate Clean(ks: seq<DomNode>) {
    forall i :: 0 <= i < |ks| - 1 ==> !(ks[i].kind == TextNode && ks[i + 1].kind == TextNode)
  }

  /** No text next to text, neither among the children of `n` nor anywhere below. */
  ghost predicate DeepClean(lists: Lists, h: Ranks, n: DomNode)
    requires Ranked(lists, h) && n in lists
    decreases h[n]
  {
    Clean(lists[n]) && forall i :: 0 <= i < |lists[n]| ==> DeepClean(lists, h, lists[n][i])
  }

  /** What `normalize` below a node of rank `b` may do to the world: lists that are clean stay as they are, and so do
      those of nodes above; every node but the text nodes reads as before. */
  ghost predicate Keeps(t: Tree, t1: Tree, h: Ranks, b: nat) {
    WellRanked(t, h) && WellRanked(t1, h) && t1.lists.Keys == t.lists.Keys
    && (forall q :: q in t.lists && (Clean(t.lists[q]) || h[q] > b) ==> t1.lists[q] == t.lists[q])
    && (forall q :: q in t.lists && q.kind != TextNode ==>
          t1.data[q] == t.data[q] && Reading(t1, h, q) == Reading(t, h, q))
  }

  lemma KeepsMore(t: Tree, t1: Tree, t2: Tree, h: Ranks, b: nat, c: nat)
    requires Keeps(t, t1, h, b) && Keeps(t1, t2, h, c) && c <= b
    ensures Keeps(t, t2, h, b)
  {
    hide Reading, WellRanked;
  }

  lemma {:induction false} DeepCleanKept(t: Tree, t1: Tree, h: Ranks, b: nat, n: DomNode)
    requires Keeps(t, t1, h, b) && n in t.lists && DeepClean(t.lists, h, n)
    ensures DeepClean(t1.lists, h, n)
    decreases h[n]
  {
    assert t1.lists[n] == t.lists[n];
    forall i | 0 <= i < |t.lists[n]| ensures DeepClean(t1.lists, h, t.lists[n][i]) {
      DeepCleanKept(t, t1, h, b, t.lists[n][i]);
    }
  }

  // ---- one merge ----

  /** Among the children of `p` the node after `left + [child]` is gone, and `child` has its text as well. */
  ghost predicate Merged(t: Tree, t1: Tree, p: DomNode, left: seq<DomNode>, child: DomNode, next: DomNode,
                         right: seq<DomNode>) {
    p in t.lists && t.lists[p] == left + [child] + [next] + right && child.kind == next.kind == TextNode
    && child in t.data && next in t.data
    && t1.lists == t.lists[p := left + [child] + right] && t1.data == t.data[child := t.data[child] + t.data[next]]
  }

  lemma MergedRanked(t: Tree, t1: Tree, h: Ranks, p: DomNode, left: seq<DomNode>, child: DomNode, next: DomNode,
                     right: seq<DomNode>)
    requires Merged(t, t1, p, left, child, next, right) && WellRanked(t, h)
    ensures WellRanked(t1, h) && t1.lists.Keys == t.lists.Keys
  {
    var ks, ms := t.lists[p], left + [child] + right;
    forall i | 0 <= i < |ms| ensures ms[i] in t.lists && h[ms[i]] < h[p] {
      assert ms[i] == ks[if i <= |left| then i else i + 1];
    }
    assert child in t.lists;
  }

  /** Away from the merge nothing reads differently. */
  lemma {:induction false} SameReading(t: Tree, t1: Tree, h: Ranks, p: DomNode, left: seq<DomNode>, child: DomNode,
                                       next: DomNode, right: seq<DomNode>, q: DomNode)
    requires Merged(t, t1, p, left, child, next, right) && WellRanked(t, h) && WellRanked(t1, h) && OncePlaced(t.lists)
    requires q in t.lists && q != child
    ensures q in t1.lists && Reading(t1, h, q) == Reading(t, h, q)
    decreases h[q], 1, 0
  {
    if q.kind != TextNode {
      if q == p {
        MergeReads(t, t1, h, p, left, child, next, right);
      } else {
        var ks := t.lists[q];
        forall i | 0 <= i < |ks| ensures ks[i] != child {
          assert t.lists[p][|left|] == child && t.lists[q][i] != t.lists[p][|left|];
        }
        SameReadings(t, t1, h, p, left, child, next, right, h[q], ks);
      }
    }
  }

  lemma {:induction false} SameReadings(t: Tree, t1: Tree, h: Ranks, p: DomNode, left: seq<DomNode>, child: DomNode,
                                        next: DomNode, right: seq<DomNode>, bound: nat, ks: seq<DomNode>)
    requires Merged(t, t1, p, left, child, next, right) && WellRanked(t, h) && WellRanked(t1, h) && OncePlaced(t.lists)
    requires Below(t, h, bound, ks) && forall i :: 0 <= i < |ks| ==> ks[i] != child
    ensures Below(t1, h, bound, ks) && Readings(t1, h, bound, ks) == Readings(t, h, bound, ks)
    decreases bound, 0, |ks|
  {
    if ks != [] {
      SameReading(t, t1, h, p, left, child, next, right, ks[0]);
      SameReadings(t, t1, h, p, left, child, next, right, bound, ks[1..]);
    }
  }

  lemma MergeReads(t: Tree, t1: Tree, h: Ranks, p: DomNode, left: seq<DomNode>, child: DomNode,
                   next: DomNode, right: seq<DomNode>)
    requires Merged(t, t1, p, left, child, next, right) && WellRanked(t, h) && WellRanked(t1, h) && OncePlaced(t.lists)
    ensures Readings(t1, h, h[p], t1.lists[p]) == Readings(t, h, h[p], t.lists[p])
    decreases h[p], 0, |t.lists[p]| + 1
  {
    var b := h[p];
    Sides(t, h, p, left, child, next, right);
    SameReadings(t, t1, h, p, left, child, next, right, b, left);
    SameReadings(t, t1, h, p, left, child, next, right, b, right);
    TwoTexts(t, h, b, left, child, next, right);
    OneText(t1, h, b, left, child, right);
    JoinedText(t.data[child], t.data[next]);
    Associative(Readings(t, h, b, left), Characters(t.data[child]), Characters(t.data[next]), Readings(t, h, b, right));
  }

  lemma Sides(t: Tree, h: Ranks, p: DomNode, left: seq<DomNode>, child: DomNode, next: DomNode, right: seq<DomNode>)
    requires p in t.lists && t.lists[p] == left + [child] + [next] + right && WellRanked(t, h) && OncePlaced(t.lists)
    ensures Below(t, h, h[p], left) && Below(t, h, h[p], right) && Below(t, h, h[p], [child]) && Below(t, h, h[p], [next])
    ensures forall i :: 0 <= i < |left| ==> left[i] != child
    ensures forall i :: 0 <= i < |right| ==> right[i] != child
  {
    var ks := t.lists[p];
    assert ks[|left|] == child && ks[|left| + 1] == next;
    forall i | 0 <= i < |left| ensures left[i] != child && left[i] in t.lists && h[left[i]] < h[p] {
      assert ks[i] == left[i] && ks[i] != ks[|left|];
    }
    forall i | 0 <= i < |right| ensures right[i] != child && right[i] in t.lists && h[right[i]] < h[p] {
      assert ks[|left| + 2 + i] == right[i] && ks[|left| + 2 + i] != ks[|left|];
    }
  }

  lemma TwoTexts(t: Tree, h: Ranks, b: nat, left: seq<DomNode>, child: DomNode, next: DomNode, right: seq<DomNode>)
    requires WellRanked(t, h) && child.kind == next.kind == TextNode && child in t.data && next in t.data
    requires Below(t, h, b, left) && Below(t, h, b, [child]) && Below(t, h, b, [next]) && Below(t, h, b, right)
    ensures Below(t, h, b, left + [child] + [next] + right)
    ensures Readings(t, h, b, left + [child] + [next] + right)
      == Readings(t, h, b, left) + Characters(t.data[child]) + Characters(t.data[next]) + Readings(t, h, b, right)
  {
    TextReading(t, h, b, child);
    TextReading(t, h, b, next);
    hide WellRanked, Below, Readings;
    ReadingsConcat(t, h, b, left, [child]);
    ReadingsConcat(t, h, b, left + [child], [next]);
    ReadingsConcat(t, h, b, left + [child] + [next], right);
  }

  lemma OneText(t: Tree, h: Ranks, b: nat, left: seq<DomNode>, child: DomNode, right: seq<DomNode>)
    requires WellRanked(t, h) && child.kind == TextNode && child in t.data
    requires Below(t, h, b, left) && Below(t, h, b, [child]) && Below(t, h, b, right)
    ensures Below(t, h, b, left + [child] + right)
    ensures Readings(t, h, b, left + [child] + right)
      == Readings(t, h, b, left) + Characters(t.data[child]) + Readings(t, h, b, right)
  {
    TextReading(t, h, b, child);
    hide WellRanked, Below, Readings;
    ReadingsConcat(t, h, b, left, [child]);
    ReadingsConcat(t, h, b, left + [child], right);
  }

  lemma TextReading(t: Tree, h: Ranks, b: nat, n: DomNode)
    requires WellRanked(t, h) && n.kind == TextNode && Below(t, h, b, [n])
    ensures n in t.data && Readings(t, h, b, [n]) == Characters(t.data[n])
  {
    assert [n][0] == n && [n][1..] == [];
    assert Readings(t, h, b, []) == [];
  }

  lemma JoinedText(a: string, b: string)
    ensures Characters(a + b) == Characters(a) + Characters(b)
  {
  }

  lemma Associative<T>(a: seq<T>, b: seq<T>, c: seq<T>, d: seq<T>)
    ensures a + (b + c) + d == a + b + c + d
  {
  }

  lemma MergeKeeps(t: Tree, t1: Tree, h: Ranks, p: DomNode, left: seq<DomNode>, child: DomNode, next: DomNode,
                   right: seq<DomNode>)
    requires Merged(t, t1, p, left, child, next, right) && WellRanked(t, h) && OncePlaced(t.lists)
    ensures Keeps(t, t1, h, h[p])
  {
    MergedRanked(t, t1, h, p, left, child, next, right);
    assert !Clean(t.lists[p]) by {
      assert t.lists[p][|left|] == child && t.lists[p][|left| + 1] == next;
    }
    hide Reading, WellRanked, OncePlaced, Clean;
    forall q | q in t.lists && q.kind != TextNode ensures Reading(t1, h, q) == Reading(t, h, q) {
      SameReading(t, t1, h, p, left, child, next, right, q);
    }
  }

  // ---- the operation ----

  /** The text of `next` goes to `child`, and `next` out of the list. */
  method Merge(p: DomNode, child: DomNode, next: DomNode, ghost world: set<DomNode>, ghost h: Ranks, ghost i: nat)
    requires Valid(world) && p in world && Ranked(KidsOf(world), h) && i + 1 < |p.kids|
    requires child == p.kids[i] && next == p.kids[i + 1] && child.kind == next.kind == TextNode
    modifies world`firstChild, world`lastChild, world`previousSibling, world`nextSibling,
             world`childNodes, world`kids, world`data
    ensures Valid(world) && Keeps(old(TreeOf(world)), TreeOf(world), h, h[p])
    ensures p.kids == old(p.kids[..i + 1] + p.kids[i + 2..])
  {
    ghost var t, left, right := TreeOf(world), p.kids[..i], p.kids[i + 2..];
    TreeIs(world);
    MergePieces(p, world, i);
    ValidApart(world);
    hide *;
    Drop(p, next, world);
    Take(child, next, world);
    MergedIs(t, TreeOf(world), p, left, child, next, right);
    MergeKeeps(t, TreeOf(world), h, p, left, child, next, right);
    TreeIs(world);
  }

  method RemoveText(p: DomNode, child: DomNode, ghost world: set<DomNode>)
    requires Valid(world) && p in world && child in p.kids
    modifies world`firstChild, world`lastChild, world`previousSibling, world`nextSibling,
             world`childNodes, world`kids
    ensures Valid(world) && p.kids == Without(old(p.kids), child)
    ensures forall q :: q in world && q != p ==> q.kids == old(q.kids)
    ensures forall q :: q in world ==> q.data == old(q.data)
  {
    OwnKidsInside(world, p);
    hide *;
    RemoveChild(p, child, world);
  }

  method Drop(p: DomNode, child: DomNode, ghost world: set<DomNode>)
    requires Valid(world) && p in world && child in p.kids
    modifies world`firstChild, world`lastChild, world`previousSibling, world`nextSibling,
             world`childNodes, world`kids
    ensures Valid(world)
    ensures TreeOf(world) == Tree(old(TreeOf(world)).lists[p := Without(old(p.kids), child)], old(TreeOf(world)).data)
  {
    ghost var t := TreeOf(world);
    TreeIs(world);
    hide *;
    RemoveText(p, child, world);
    SameTree(world, t, p);
  }

  lemma OwnKidsInside(world: set<DomNode>, p: DomNode)
    requires Valid(world) && p in world
    ensures forall c :: c in p.kids ==> c in world
  {
  }

  lemma SameTree(world: set<DomNode>, t: Tree, p: DomNode)
    requires t.lists.Keys == t.data.Keys == world && p in world
    requires forall q :: q in world && q != p ==> q.kids == t.lists[q]
    requires forall q :: q in world ==> q.data == t.data[q]
    ensures TreeOf(world) == Tree(t.lists[p := p.kids], t.data)
  {
  }

  method Take(child: DomNode, next: DomNode, ghost world: set<DomNode>)
    requires Valid(world) && child in world && next in world
    modifies child`data
    ensures Valid(world) && next in old(TreeOf(world)).data && child in old(TreeOf(world)).data
    ensures var t := old(TreeOf(world)); TreeOf(world) == Tree(t.lists, t.data[child := t.data[child] + t.data[next]])
  {
    hide Distinct, Forward, Backward, Parented;
    child.data := child.data + next.data;
  }

  lemma TreeIs(world: set<DomNode>)
    ensures TreeOf(world).lists == KidsOf(world) && TreeOf(world).lists.Keys == TreeOf(world).data.Keys == world
    ensures forall n :: n in world ==> TreeOf(world).lists[n] == n.kids && TreeOf(world).data[n] == n.data
    ensures forall h :: WellRanked(TreeOf(world), h) <==> Ranked(KidsOf(world), h)
  {
    hide Ranked;
  }

  lemma MergedIs(t: Tree, t1: Tree, p: DomNode, left: seq<DomNode>, child: DomNode, next: DomNode, right: seq<DomNode>)
    requires p in t.lists && child in t.data && next in t.data && child.kind == next.kind == TextNode
    requires t.lists[p] == left + [child] + [next] + right
    requires t1 == Tree(t.lists[p := left + [child] + right], t.data[child := t.data[child] + t.data[next]])
    ensures Merged(t, t1, p, left, child, next, right)
  {
  }

  lemma MergePieces(p: DomNode, world: set<DomNode>, i: nat)
    requires Valid(world) && p in world && i + 1 < |p.kids|
    ensures p.kids == p.kids[..i] + [p.kids[i]] + [p.kids[i + 1]] + p.kids[i + 2..]
    ensures Without(p.kids, p.kids[i + 1]) == p.kids[..i + 1] + p.kids[i + 2..]
    ensures p.kids[..i + 1] == p.kids[..i] + [p.kids[i]]
    ensures p.kids[i + 1] in p.kids && p.kids[i] in world && p.kids[i + 1] in world
  {
    DistinctKids(world, p);
    WithoutAt(p.kids, i + 1);
  }

  /** The first `i` children of `p` are done. */
  ghost predicate CleanUpTo(lists: Lists, h: Ranks, p: DomNode, i: nat)
    requires Ranked(lists, h) && p in lists
  {
    i <= |lists[p]| && (forall j :: 0 <= j < i ==> DeepClean(lists, h, lists[p][j]))
    && forall j :: 0 <= j < i && j + 1 < |lists[p]| ==> !(lists[p][j].kind == TextNode && lists[p][j + 1].kind == TextNode)
  }

  lemma NextDone(t: Tree, t1: Tree, h: Ranks, p: DomNode, i: nat)
    requires WellRanked(t, h) && p in t.lists && CleanUpTo(t.lists, h, p, i) && i < |t.lists[p]|
    requires t.lists[p][i] in h && Keeps(t, t1, h, h[t.lists[p][i]]) && DeepClean(t1.lists, h, t.lists[p][i])
    requires i + 1 < |t.lists[p]| ==> !(t.lists[p][i].kind == TextNode && t.lists[p][i + 1].kind == TextNode)
    ensures t1.lists[p] == t.lists[p] && CleanUpTo(t1.lists, h, p, i + 1)
  {
    hide DeepClean, Clean, Reading;
    forall j | 0 <= j < i ensures DeepClean(t1.lists, h, t.lists[p][j]) {
      DeepCleanKept(t, t1, h, h[t.lists[p][i]], t.lists[p][j]);
    }
  }

  lemma MergeDone(t: Tree, t1: Tree, h: Ranks, p: DomNode, i: nat)
    requires WellRanked(t, h) && p in t.lists && CleanUpTo(t.lists, h, p, i) && i + 1 < |t.lists[p]|
    requires Keeps(t, t1, h, h[p]) && t1.lists[p] == t.lists[p][..i + 1] + t.lists[p][i + 2..]
    ensures CleanUpTo(t1.lists, h, p, i)
  {
    hide DeepClean, Clean, Reading;
    forall j | 0 <= j < i ensures DeepClean(t1.lists, h, t.lists[p][j]) {
      DeepCleanKept(t, t1, h, h[p], t.lists[p][j]);
    }
    assert forall j :: 0 <= j <= i ==> t1.lists[p][j] == t.lists[p][j];
  }

  lemma AllDone(lists: Lists, h: Ranks, p: DomNode)
    requires Ranked(lists, h) && p in lists && CleanUpTo(lists, h, p, |lists[p]|)
    ensures DeepClean(lists, h, p)
  {
  }

  lemma KeepsAll(t: Tree, h: Ranks, b: nat)
    requires WellRanked(t, h)
    ensures Keeps(t, t, h, b)
  {
    hide Reading;
  }

  lemma KeepsRanks(t: Tree, t1: Tree, h: Ranks, b: nat)
    requires Keeps(t, t1, h, b)
    ensures WellRanked(t, h) && WellRanked(t1, h) && t1.lists.Keys == t.lists.Keys
    ensures forall q :: q in t.lists && h[q] > b ==> t1.lists[q] == t.lists[q]
  {
    hide WellRanked, Reading;
  }

  /** The invariant of the loop. */
  ghost predicate Turning(world: set<DomNode>, start: Tree, h: Ranks, p: DomNode, i: nat, child: DomNode?)
    reads world
  {
    Valid(world) && p in world && Ranked(KidsOf(world), h) && Keeps(start, TreeOf(world), h, h[p])
    && CleanUpTo(KidsOf(world), h, p, i) && child == Next(p.kids, i, null)
  }

  lemma FirstTurn(world: set<DomNode>, h: Ranks, p: DomNode)
    requires Valid(world) && p in world && Ranked(KidsOf(world), h)
    ensures Turning(world, TreeOf(world), h, p, 0, p.firstChild)
  {
    hide Keeps;
    TreeIs(world);
    KeepsAll(TreeOf(world), h, h[p]);
    assert p.Linked();
  }

  /** What a turn finds. */
  lemma AtTurn(world: set<DomNode>, start: Tree, h: Ranks, p: DomNode, i: nat, child: DomNode?)
    requires Turning(world, start, h, p, i, child) && child != null
    ensures Valid(world) && p in world && Ranked(KidsOf(world), h) && i < |p.kids| && child == p.kids[i]
    ensures child in world && child in h && p in h && h[child] < h[p]
    ensures child.nextSibling == Next(p.kids, i + 1, null)
    ensures child.nextSibling != null ==> i + 1 < |p.kids| && child.nextSibling == p.kids[i + 1]
  {
    hide Keeps, CleanUpTo;
    assert p.Linked();
    assert KidsOf(world)[p][i] == child;
  }

  lemma LastTurn(world: set<DomNode>, start: Tree, h: Ranks, p: DomNode, i: nat)
    requires Turning(world, start, h, p, i, null)
    ensures Valid(world) && Ranked(KidsOf(world), h) && p in h && Keeps(start, TreeOf(world), h, h[p])
    ensures p in world && DeepClean(KidsOf(world), h, p)
  {
    hide Keeps, Valid;
    assert i == |KidsOf(world)[p]|;
    AllDone(KidsOf(world), h, p);
  }

  lemma MergeTurn(world: set<DomNode>, start: Tree, t: Tree, h: Ranks, p: DomNode, i: nat, child: DomNode)
    requires Valid(world) && p in world && p in h && WellRanked(t, h) && t.lists.Keys == world
    requires Keeps(start, t, h, h[p]) && CleanUpTo(t.lists, h, p, i) && i + 1 < |t.lists[p]| && child == t.lists[p][i]
    requires Keeps(t, TreeOf(world), h, h[p]) && p.kids == t.lists[p][..i + 1] + t.lists[p][i + 2..]
    ensures Turning(world, start, h, p, i, child)
  {
    TreeIs(world);
    assert p.kids[i] == child;
    KeepsRanks(t, TreeOf(world), h, h[p]);
    hide Keeps, CleanUpTo, Valid, Ranked;
    MergeDone(t, TreeOf(world), h, p, i);
    KeepsMore(start, t, TreeOf(world), h, h[p], h[p]);
  }

  lemma StepTurn(world: set<DomNode>, start: Tree, t: Tree, h: Ranks, p: DomNode, i: nat, child: DomNode, next: DomNode?)
    requires Valid(world) && p in world && p in h && WellRanked(t, h) && t.lists.Keys == world
    requires Keeps(start, t, h, h[p]) && CleanUpTo(t.lists, h, p, i) && i < |t.lists[p]| && child == t.lists[p][i]
    requires child in h && Keeps(t, TreeOf(world), h, h[child]) && Ranked(KidsOf(world), h)
    requires child in world && DeepClean(KidsOf(world), h, child) && next == Next(t.lists[p], i + 1, null)
    requires next == null || !(next.kind == TextNode && child.kind == TextNode)
    ensures Turning(world, start, h, p, i + 1, next)
  {
    TreeIs(world);
    RankOf(t.lists, h, p, i);
    hide Keeps, CleanUpTo, Valid, Ranked, DeepClean;
    NextDone(t, TreeOf(world), h, p, i);
    KeepsMore(start, t, TreeOf(world), h, h[p], h[child]);
  }

  lemma RankOf(lists: Lists, h: Ranks, p: DomNode, i: nat)
    requires Ranked(lists, h) && p in lists && i < |lists[p]|
    ensures lists[p][i] in lists && h[lists[p][i]] < h[p]
  {
  }

  lemma TurnTree(world: set<DomNode>, start: Tree, h: Ranks, p: DomNode, i: nat, child: DomNode?)
    requires Turning(world, start, h, p, i, child)
    ensures WellRanked(TreeOf(world), h) && TreeOf(world).lists.Keys == world && p in world && p in h
    ensures TreeOf(world).lists[p] == p.kids && CleanUpTo(TreeOf(world).lists, h, p, i)
    ensures Keeps(start, TreeOf(world), h, h[p])
  {
    hide Keeps, CleanUpTo, Valid;
    TreeIs(world);
  }

  /** `normalize`: it ends, leaves well-formed lists and no text next to text below `p`, and nothing else is changed:
      every node but the text nodes reads as it did. The ranks say that there are no cycles. */
  method Normalize(p: DomNode, ghost world: set<DomNode>, ghost h: Ranks)
    requires Valid(world) && p in world && Ranked(KidsOf(world), h)
    modifies world`firstChild, world`lastChild, world`previousSibling, world`nextSibling,
             world`childNodes, world`kids, world`data
    ensures Valid(world) && Keeps(old(TreeOf(world)), TreeOf(world), h, h[p])
    ensures Ranked(KidsOf(world), h) && DeepClean(KidsOf(world), h, p)
    decreases h[p]
  {
    ghost var start := TreeOf(world);
    hide *;
    FirstTurn(world, h, p);
    var child := p.firstChild;
    ghost var i := 0;
    while child != null
      invariant Turning(world, start, h, p, i, child)
      decreases |p.kids| - i
    {
      AtTurn(world, start, h, p, i, child);
      TurnTree(world, start, h, p, i, child);
      ghost var t := TreeOf(world);
      var next := child.nextSibling;
      if next != null && next.kind == TextNode && child.kind == TextNode {
        Merge(p, child, next, world, h, i);
        MergeTurn(world, start, t, h, p, i, child);
      } else {
        Normalize(child, world, h);
        StepTurn(world, start, t, h, p, i, child, next);
        TurnTree(world, start, h, p, i + 1, next);
        KeepsRanks(t, TreeOf(world), h, h[child]);
        child, i := next, i + 1;
      }
    }
    LastTurn(world, start, h, p, i);
  }

  // ---- ranks ----

  lemma {:induction false} WithinWorld(ns: seq<DomNode>, world: set<DomNode>)
    requires Distinct(ns) && forall i :: 0 <= i < |ns| ==> ns[i] in world
    ensures |ns| <= |world|
    decreases |ns|
  {
    if ns != [] {
      var last := |ns| - 1;
      forall i | 0 <= i < last ensures ns[..last][i] in world - {ns[last]} {
        assert ns[i] != ns[last];
      }
      WithinWorld(ns[..last], world - {ns[last]});
    }
  }

  lemma ChainWithin(link: Links, n: DomNode, ns: seq<DomNode>)
    requires Chain(link, n, ns)
    ensures |ns| <= |link.Keys|
  {
    forall i, j | 0 <= i < j < |ns| ensures ns[i] != ns[j] {
      ChainDistinct(link, n, ns, i, j);
    }
    forall i | 0 <= i < |ns| ensures ns[i] in link.Keys {
      assert Points(link, ns[i], Next(ns, i + 1, null));
    }
    hide Chain;
    WithinWorld(ns, link.Keys);
  }

  /** The nodes from `n` up. */
  ghost function Depth(link: Links, n: DomNode): (d: nat)
    requires Ends(link, n)
    ensures forall ns :: Chain(link, n, ns) ==> |ns| == d
  {
    var ns :| Chain(link, n, ns);
    assert forall ms :: Chain(link, n, ms) ==> |ms| == |ns| by {
      forall ms: seq<DomNode> | Chain(link, n, ms) ensures |ms| == |ns| {
        ChainUnique(link, n, ns, ms);
      }
    }
    |ns|
  }

  lemma DeeperByOne(link: Links, c: DomNode, q: DomNode)
    requires c in link && link[c] == q && Ends(link, q) && Ends(link, c)
    ensures Depth(link, c) == Depth(link, q) + 1 && Depth(link, c) <= |link.Keys|
  {
    hide Depth;
    var ns :| Chain(link, q, ns);
    assert Chain(link, c, [c] + ns) by {
      PathJoin(link, [c], ns);
    }
    ChainWithin(link, c, [c] + ns);
  }

  lemma DepthWithin(link: Links, n: DomNode)
    requires Ends(link, n)
    ensures Depth(link, n) <= |link.Keys|
  {
    var ns :| Chain(link, n, ns);
    ChainWithin(link, n, ns);
  }

  /** How far below it a node could be. */
  ghost function Height(world: set<DomNode>, n: DomNode): nat
    requires Acyclic(world) && n in world
    reads world`parentNode
  {
    DepthWithin(Ups(world), n);
    assert Ups(world).Keys == world;
    |world| - Depth(Ups(world), n)
  }

  lemma KidLower(world: set<DomNode>, q: DomNode, i: nat)
    requires Valid(world) && Acyclic(world) && q in world && i < |q.kids|
    ensures q.kids[i] in world && Height(world, q.kids[i]) < Height(world, q)
  {
    assert q.Linked();
    assert q.kids[i] in world && q.kids[i].parentNode == q;
    hide Depth, Ends, Valid;
    DeeperByOne(Ups(world), q.kids[i], q);
  }

  /** Where no node is its own ancestor such numbers exist. */
  lemma AcyclicRanks(world: set<DomNode>) returns (h: Ranks)
    requires Valid(world) && Acyclic(world)
    ensures Ranked(KidsOf(world), h)
  {
    hide Height, Valid, Acyclic;
    h := map n | n in world :: Height(world, n);
    forall q, i | q in world && 0 <= i < |q.kids| ensures q.kids[i] in world && h[q.kids[i]] < h[q] {
      KidLower(world, q, i);
    }
  }
}
