/** The child lists of a document tree: two chains of sibling pointers and a mirror array, edited in place. */
module DomTree {
  datatype Kind = ElementNode | DocumentNode | FragmentNode | TextNode | LeafNode

  class DomNode {
    const kind: Kind
    var parentNode: DomNode?
    var firstChild: DomNode?
    var lastChild: DomNode?
    var previousSibling: DomNode?
    var nextSibling: DomNode?
    var childNodes: seq<DomNode>
    var data: string
    ghost var kids: seq<DomNode>

    constructor (kind: Kind)
      ensures this.kind == kind && parentNode == null && kids == [] && Linked()
    {
      this.kind := kind;
      parentNode, firstChild, lastChild, previousSibling, nextSibling := null, null, null, null, null;
      childNodes, kids, data := [], [], "";
    }

    /** The pointers and, for an element, the array agree on the list of children `kids`. */
    ghost predicate Linked()
      reads `kids, `firstChild, `lastChild, `childNodes, kids`parentNode, kids`previousSibling, kids`nextSibling
    {
      Distinct(kids) && Forward(this, kids) && Backward(this, kids) && Parented(this, kids)
      && (kind == ElementNode ==> childNodes == kids)
    }
  }

  function First(ks: seq<DomNode>, otherwise: DomNode?): DomNode? {
    if ks == [] then otherwise else ks[0]
  }

  function Last(ks: seq<DomNode>, otherwise: DomNode?): DomNode? {
    if ks == [] then otherwise else ks[|ks| - 1]
  }

  ghost predicate Distinct(ks: seq<DomNode>) {
    forall i, j :: 0 <= i < j < |ks| ==> ks[i] != ks[j]
  }

  /** Each node but the last points forward to the one after it. */
  ghost predicate ForwardRun(ks: seq<DomNode>)
    reads ks`nextSibling
  {
    forall i :: 0 <= i < |ks| - 1 ==> ks[i].nextSibling == ks[i + 1]
  }

  ghost predicate BackwardRun(ks: seq<DomNode>)
    reads ks`previousSibling
  {
    forall i :: 0 < i < |ks| ==> ks[i].previousSibling == ks[i - 1]
  }

  /** The four half chains: a forward one that starts at `firstChild`, a forward one that ends,
      a backward one that ends, and a backward one that starts at `lastChild`. */
  ghost predicate ForwardHead(p: DomNode, ks: seq<DomNode>)
    reads p`firstChild, ks`nextSibling
  {
    ForwardRun(ks) && (ks != [] ==> p.firstChild == ks[0])
  }

  ghost predicate ForwardTail(ks: seq<DomNode>)
    reads ks`nextSibling
  {
    ForwardRun(ks) && (ks != [] ==> ks[|ks| - 1].nextSibling == null)
  }

  ghost predicate BackwardTail(ks: seq<DomNode>)
    reads ks`previousSibling
  {
    BackwardRun(ks) && (ks != [] ==> ks[0].previousSibling == null)
  }

  ghost predicate BackwardHead(p: DomNode, ks: seq<DomNode>)
    reads p`lastChild, ks`previousSibling
  {
    BackwardRun(ks) && (ks != [] ==> p.lastChild == ks[|ks| - 1])
  }

  /** The chain from `firstChild` along `nextSibling` is `ks`. */
  ghost predicate Forward(p: DomNode, ks: seq<DomNode>)
    reads p`firstChild, ks`nextSibling
  {
    p.firstChild == First(ks, null) && ForwardTail(ks)
  }

  /** The chain from `lastChild` along `previousSibling` is `ks` from its end. */
  ghost predicate Backward(p: DomNode, ks: seq<DomNode>)
    reads p`lastChild, ks`previousSibling
  {
    p.lastChild == Last(ks, null) && BackwardTail(ks)
  }

  ghost predicate Parented(p: DomNode, ks: seq<DomNode>)
    reads ks`parentNode
  {
    forall i :: 0 <= i < |ks| ==> ks[i].parentNode == p
  }

  // ---- joining two stretches of a chain ----

  /** The forward chains of two stretches of children, of which `left` ends in `previous` and `right` starts with
      `next`, become one; without a `previous` it starts at the parent. */
  method JoinForward(p: DomNode, previous: DomNode?, next: DomNode?, ghost left: seq<DomNode>, ghost right: seq<DomNode>)
    requires previous == Last(left, null) && next == First(right, null) && Distinct(left + right)
    requires ForwardHead(p, left) && ForwardTail(right)
    modifies p`firstChild, left`nextSibling
    ensures Forward(p, left + right)
  {
    if previous != null {
      assert previous == (left + right)[|left| - 1];
      previous.nextSibling := next;
    } else {
      p.firstChild := next;
    }
  }

  method JoinBackward(p: DomNode, previous: DomNode?, next: DomNode?, ghost left: seq<DomNode>, ghost right: seq<DomNode>)
    requires previous == Last(left, null) && next == First(right, null) && Distinct(left + right)
    requires BackwardTail(left) && BackwardHead(p, right)
    modifies p`lastChild, right`previousSibling
    ensures Backward(p, left + right)
  {
    if next != null {
      assert next == (left + right)[|left|];
      next.previousSibling := previous;
    } else {
      p.lastChild := previous;
    }
  }

  // ---- the abstract edits ----

  /** `x` is taken out. */
  function Without(s: seq<DomNode>, x: DomNode): seq<DomNode> {
    if s == [] then [] else if s[0] == x then s[1..] else [s[0]] + Without(s[1..], x)
  }

  lemma {:induction false} WithoutAt(s: seq<DomNode>, k: nat)
    requires k < |s| && Distinct(s)
    ensures Without(s, s[k]) == s[..k] + s[k + 1..]
  {
    if k > 0 {
      assert s[0] != s[k] && s[1..][k - 1] == s[k];
      WithoutAt(s[1..], k - 1);
      assert s[1..][..k - 1] == s[1..k] && [s[0]] + s[1..k] == s[..k];
      assert s[1..][k..] == s[k + 1..];
      assert [s[0]] + (s[1..k] + s[k + 1..]) == s[..k] + s[k + 1..];
    }
  }

  /** The rebuilding branch of `_onUpdateChild`. */
  method Refresh(el: DomNode)
    requires Forward(el, el.kids)
    modifies el`childNodes
    ensures el.childNodes == el.kids
  {
    var cs: seq<DomNode> := [];
    var child := el.firstChild;
    while child != null
      invariant |cs| <= |el.kids| && cs == el.kids[..|cs|]
      invariant child == if |cs| < |el.kids| then el.kids[|cs|] else null
      decreases |el.kids| - |cs|
    {
      cs := cs + [child];
      child := child.nextSibling;
    }
    el.childNodes := cs;
  }

  /** What a chain is on the two sides of its `k`-th node. */
  lemma Cut(p: DomNode, ks: seq<DomNode>, k: nat)
    requires k < |ks| && Distinct(ks) && Forward(p, ks) && Backward(p, ks)
    ensures ks[k].previousSibling == Last(ks[..k], null) && ks[k].nextSibling == First(ks[k + 1..], null)
    ensures ForwardHead(p, ks[..k]) && ForwardTail(ks[k + 1..])
    ensures BackwardTail(ks[..k]) && BackwardHead(p, ks[k + 1..])
  {
  }

  lemma CutRest(p: DomNode, ks: seq<DomNode>, k: nat)
    requires k < |ks| && Distinct(ks) && Parented(p, ks)
    ensures Distinct(ks[..k] + ks[k + 1..]) && Parented(p, ks[..k] + ks[k + 1..])
    ensures Without(ks, ks[k]) == ks[..k] + ks[k + 1..]
  {
    WithoutAt(ks, k);
    hide Without;
    var rest := ks[..k] + ks[k + 1..];
    forall i, j | 0 <= i < j < |rest| ensures rest[i] != rest[j] {
      RestAt(ks, k, i);
      RestAt(ks, k, j);
    }
    forall i | 0 <= i < |rest| ensures rest[i].parentNode == p {
      RestAt(ks, k, i);
    }
  }

  lemma RestAt(ks: seq<DomNode>, k: nat, i: nat)
    requires k < |ks| && i < |ks| - 1
    ensures (ks[..k] + ks[k + 1..])[i] == ks[if i < k then i else i + 1]
  {
  }

  lemma Apart(ks: seq<DomNode>, k: nat)
    requires k < |ks| && Distinct(ks)
    ensures ks[k] !in ks[..k] && ks[k] !in ks[k + 1..]
  {
  }

  /** The pointer statements of `_removeChild`. */
  method CutOut(p: DomNode, child: DomNode, ghost left: seq<DomNode>, ghost right: seq<DomNode>)
    requires child.previousSibling == Last(left, null) && child.nextSibling == First(right, null)
    requires Distinct(left + right) && child !in left && child !in right
    requires ForwardHead(p, left) && ForwardTail(right) && BackwardTail(left) && BackwardHead(p, right)
    modifies p`firstChild, p`lastChild, left`nextSibling, right`previousSibling
    ensures Forward(p, left + right) && Backward(p, left + right)
    ensures child.previousSibling == old(child.previousSibling) && child.nextSibling == old(child.nextSibling)
  {
    hide Forward, Backward, Distinct, First, Last, ForwardHead, ForwardTail, BackwardHead, BackwardTail;
    var previous := child.previousSibling;
    var next := child.nextSibling;
    JoinForward(p, previous, next, left, right);
    JoinBackward(p, previous, next, left, right);
  }

  /** `_removeChild`. The pointers of the removed child are left as they were. */
  method Unlink(p: DomNode, child: DomNode)
    requires p.Linked() && child in p.kids
    modifies p`firstChild, p`lastChild, p`childNodes, p`kids, p.kids`previousSibling, p.kids`nextSibling
    ensures p.Linked() && p.kids == Without(old(p.kids), child)
    ensures child.previousSibling == old(child.previousSibling) && child.nextSibling == old(child.nextSibling)
  {
    hide Forward, Backward, Parented, Distinct, Without, First, Last,
         ForwardHead, ForwardTail, BackwardHead, BackwardTail;
    ghost var ks := p.kids;
    ghost var k :| 0 <= k < |ks| && ks[k] == child;
    Cut(p, ks, k);
    CutRest(p, ks, k);
    Apart(ks, k);
    CutOut(p, child, ks[..k], ks[k + 1..]);
    p.kids := ks[..k] + ks[k + 1..];
    if p.kind != DocumentNode {
      Refresh(p);
    }
  }

  /** `run` is put in front of `ref`, or at the end when there is no `ref`. */
  function Inserted(s: seq<DomNode>, ref: DomNode?, run: seq<DomNode>): seq<DomNode> {
    if s == [] || s[0] == ref then run + s else [s[0]] + Inserted(s[1..], ref, run)
  }

  // ---- splicing a run of nodes into a child list ----

  /** What a chain is on the two sides of a gap. */
  lemma Gap(p: DomNode, ks: seq<DomNode>, k: nat)
    requires k <= |ks| && Distinct(ks) && Forward(p, ks) && Backward(p, ks)
    ensures ForwardHead(p, ks[..k]) && ForwardTail(ks[k..])
    ensures BackwardTail(ks[..k]) && BackwardHead(p, ks[k..])
    ensures var next := First(ks[k..], null);
            Last(ks[..k], null) == if next != null then next.previousSibling else p.lastChild
  {
  }

  lemma GlueForward(run: seq<DomNode>, right: seq<DomNode>)
    requires run != [] && ForwardRun(run) && ForwardTail(right)
    requires run[|run| - 1].nextSibling == First(right, null)
    ensures ForwardTail(run + right) && First(run + right, null) == run[0]
  {
  }

  lemma GlueBackward(left: seq<DomNode>, run: seq<DomNode>)
    requires run != [] && BackwardTail(left) && BackwardRun(run)
    requires run[0].previousSibling == Last(left, null)
    ensures BackwardTail(left + run) && Last(left + run, null) == run[|run| - 1]
  {
  }

  /** The `do`-`while` loop that gives each node of the run its new parent. */
  method Adopt(p: DomNode, newFirst: DomNode, newLast: DomNode, ghost run: seq<DomNode>)
    requires run != [] && newFirst == run[0] && newLast == run[|run| - 1] && Distinct(run) && ForwardRun(run)
    modifies run`parentNode
    ensures Parented(p, run)
  {
    var node := newFirst;
    node.parentNode := p;
    ghost var i := 0;
    while node != newLast
      invariant 0 <= i < |run| && node == run[i] && ForwardRun(run) && Parented(p, run[..i + 1])
      decreases |run| - i
    {
      assert i < |run| - 1 && run[i].nextSibling == run[i + 1];
      node := node.nextSibling;
      i := i + 1;
      node.parentNode := p;
    }
  }

  /** The run's two ends are tied to the neighbours they will have. */
  method TieEnds(newFirst: DomNode, newLast: DomNode, pre: DomNode?, nextChild: DomNode?, ghost run: seq<DomNode>)
    requires run != [] && newFirst == run[0] && newLast == run[|run| - 1]
    requires Distinct(run) && ForwardRun(run) && BackwardRun(run)
    modifies newFirst`previousSibling, newLast`nextSibling
    ensures ForwardRun(run) && BackwardRun(run) && newFirst.previousSibling == pre && newLast.nextSibling == nextChild
  {
    newFirst.previousSibling := pre;
    newLast.nextSibling := nextChild;
  }

  lemma DistinctParts(left: seq<DomNode>, run: seq<DomNode>, right: seq<DomNode>)
    requires Distinct(left + run + right)
    ensures Distinct(run) && (left + run) + right == left + (run + right)
    ensures forall c :: c in run ==> c !in left && c !in right
    ensures forall c :: c in left ==> c !in right
    ensures forall i, j :: 0 <= i < |left + right| && 0 <= j < |run| ==> (left + right)[i] != run[j]
  {
    forall c | c in run ensures c !in left && c !in right {
      var j :| 0 <= j < |run| && run[j] == c;
      assert (left + run + right)[|left| + j] == c;
      assert forall i :: 0 <= i < |left| ==> (left + run + right)[i] == left[i];
      assert forall i :: 0 <= i < |right| ==> (left + run + right)[|left| + |run| + i] == right[i];
    }
    forall c | c in left ensures c !in right {
      var j :| 0 <= j < |left| && left[j] == c;
      assert (left + run + right)[j] == c;
      assert forall i :: 0 <= i < |right| ==> (left + run + right)[|left| + |run| + i] == right[i];
    }
    forall i, j | 0 <= i < |left + right| && 0 <= j < |run| ensures (left + right)[i] != run[j] {
      assert (left + run + right)[|left| + j] == run[j];
      assert (left + right)[i] == (left + run + right)[if i < |left| then i else i + |run|];
    }
    assert Distinct(run) by {
      forall i, j | 0 <= i < j < |run| ensures run[i] != run[j] {
        assert (left + run + right)[|left| + i] == run[i] && (left + run + right)[|left| + j] == run[j];
      }
    }
  }

  lemma ParentedParts(p: DomNode, left: seq<DomNode>, run: seq<DomNode>, right: seq<DomNode>)
    requires Parented(p, left + right) && Parented(p, run)
    ensures Parented(p, left + run + right)
  {
    forall i | 0 <= i < |left + run + right| ensures (left + run + right)[i].parentNode == p {
      if i < |left| {
        assert (left + right)[i] == left[i];
      } else if i >= |left| + |run| {
        assert (left + right)[i - |run|] == right[i - |left| - |run|];
      }
    }
  }

  /** The pointer part of `_insertBefore`: the run from `newFirst` to `newLast` is linked in front of `nextChild`. */
  method LinkRun(p: DomNode, newFirst: DomNode, newLast: DomNode, nextChild: DomNode?,
                 ghost left: seq<DomNode>, ghost run: seq<DomNode>, ghost right: seq<DomNode>)
    requires Distinct(left + right) && Forward(p, left + right) && Backward(p, left + right)
    requires nextChild == First(right, null)
    requires run != [] && newFirst == run[0] && newLast == run[|run| - 1]
    requires ForwardRun(run) && BackwardRun(run) && Distinct(left + run + right)
    modifies p`firstChild, p`lastChild, left`nextSibling, right`previousSibling, run`previousSibling, run`nextSibling
    ensures Forward(p, left + run + right) && Backward(p, left + run + right) && ForwardRun(run)
  {
    hide ForwardRun, BackwardRun, Forward, Backward, Distinct, First, Last,
         ForwardHead, ForwardTail, BackwardHead, BackwardTail;
    Gap(p, left + right, |left|);
    assert (left + right)[..|left|] == left && (left + right)[|left|..] == right;
    DistinctParts(left, run, right);
    assert newFirst in run && newLast in run;
    var pre := if nextChild != null then nextChild.previousSibling else p.lastChild;
    TieEnds(newFirst, newLast, pre, nextChild, run);
    GlueForward(run, right);
    GlueBackward(left, run);
    JoinForward(p, pre, newFirst, left, run + right);
    JoinBackward(p, newLast, nextChild, left + run, right);
    MiddleRun(p, left, run, right);
  }

  lemma MiddleRun(p: DomNode, left: seq<DomNode>, run: seq<DomNode>, right: seq<DomNode>)
    requires Forward(p, left + run + right)
    ensures ForwardRun(run)
  {
    var ks := left + run + right;
    forall i | 0 <= i < |run| - 1 ensures run[i].nextSibling == run[i + 1] {
      assert ks[|left| + i] == run[i] && ks[|left| + i + 1] == run[i + 1];
    }
  }

  /** `_insertBefore` once the new child is detached: the pointers, the parents and the array. */
  method Splice(p: DomNode, newFirst: DomNode, newLast: DomNode, nextChild: DomNode?, ghost run: seq<DomNode>, ghost k: nat)
    requires p.Linked() && k <= |p.kids| && nextChild == First(p.kids[k..], null)
    requires run != [] && newFirst == run[0] && newLast == run[|run| - 1]
    requires ForwardRun(run) && BackwardRun(run) && Distinct(p.kids[..k] + run + p.kids[k..])
    modifies p`firstChild, p`lastChild, p`childNodes, p`kids, p.kids`previousSibling, p.kids`nextSibling,
             run`parentNode, run`previousSibling, run`nextSibling
    ensures p.Linked() && Parented(p, run) && p.kids == old(p.kids[..k] + run + p.kids[k..])
  {
    hide ForwardRun, BackwardRun, Forward, Backward, Parented, Distinct;
    ghost var left, right := p.kids[..k], p.kids[k..];
    assert left + right == p.kids;
    assert Parented(p, left + right);
    DistinctParts(left, run, right);
    LinkRun(p, newFirst, newLast, nextChild, left, run, right);
    Adopt(p, newFirst, newLast, run);
    ParentedParts(p, left, run, right);
    p.kids := left + run + right;
    Refresh(p);
  }

  // ---- the operations, in a world of nodes ----

  /** The child lists of the world: every node's is linked, and made of nodes of the world. */
  ghost predicate Valid(world: set<DomNode>)
    reads world
  {
    (forall p, c :: p in world && c in p.kids ==> c in world)
    && forall p :: p in world ==> p.Linked()
  }

  /** A node that was never attached, or is attached now: its parent, if it names one, has it as a child. */
  ghost predicate Settled(c: DomNode)
    reads c, c.parentNode
  {
    c.parentNode == null || c in c.parentNode.kids
  }

  /** Nodes named as a child by one parent are named by no other. */
  lemma OneParent(world: set<DomNode>, p: DomNode, q: DomNode)
    requires Valid(world) && p in world && q in world && p != q
    ensures forall i, j :: 0 <= i < |p.kids| && 0 <= j < |q.kids| ==> p.kids[i] != q.kids[j]
  {
    assert p.Linked() && q.Linked();
  }

  method RemoveChild(p: DomNode, child: DomNode, ghost world: set<DomNode>)
    requires Valid(world) && p in world && child in p.kids
    modifies p`firstChild, p`lastChild, p`childNodes, p`kids, p.kids`previousSibling, p.kids`nextSibling
    ensures Valid(world)
    ensures p.kids == Without(old(p.kids), child) && forall q :: q in world && q != p ==> q.kids == old(q.kids)
    ensures child.previousSibling == old(child.previousSibling) && child.nextSibling == old(child.nextSibling)
  {
    forall q | q in world && q != p
      ensures forall i, j :: 0 <= i < |p.kids| && 0 <= j < |q.kids| ==> p.kids[i] != q.kids[j]
    {
      OneParent(world, p, q);
    }
    WithoutIn(p.kids, child);
    Unlink(p, child);
    forall q | q in world && q != p ensures q.Linked() {
      assert old(q.Linked());
    }
  }

  lemma {:induction false} WithoutIn(s: seq<DomNode>, x: DomNode)
    ensures forall c :: c in Without(s, x) ==> c in s
  {
    if s != [] && s[0] != x {
      WithoutIn(s[1..], x);
    }
  }

  /** No child list of the world has a node of the run. */
  ghost predicate Unlisted(world: set<DomNode>, run: seq<DomNode>)
    reads world
  {
    forall q, i, j :: q in world && 0 <= i < |q.kids| && 0 <= j < |run| ==> q.kids[i] != run[j]
  }

  lemma {:induction false} InsertedAt(s: seq<DomNode>, ref: DomNode?, run: seq<DomNode>, k: nat)
    requires k <= |s| && (if k < |s| then ref == s[k] else ref == null || ref !in s)
    requires forall i :: 0 <= i < k ==> s[i] != ref
    ensures Inserted(s, ref, run) == s[..k] + run + s[k..]
  {
    if k == 0 {
      assert s[..0] + run + s[0..] == run + s;
    } else {
      var rest := s[1..];
      InsertedAt(rest, ref, run, k - 1);
      assert Inserted(s, ref, run) == [s[0]] + Inserted(rest, ref, run);
      hide Inserted;
      assert [s[0]] + rest[..k - 1] == s[..k] && rest[k - 1..] == s[k..];
      Reassociate([s[0]], rest[..k - 1], run, rest[k - 1..]);
    }
  }

  lemma Reassociate(a: seq<DomNode>, b: seq<DomNode>, c: seq<DomNode>, d: seq<DomNode>)
    ensures a + (b + c + d) == (a + b) + c + d
  {
  }

  lemma DistinctSplice(s: seq<DomNode>, run: seq<DomNode>, k: nat)
    requires k <= |s| && Distinct(s) && Distinct(run)
    requires forall i, j :: 0 <= i < |s| && 0 <= j < |run| ==> s[i] != run[j]
    ensures Distinct(s[..k] + run + s[k..])
  {
    var t := s[..k] + run + s[k..];
    forall i, j | 0 <= i < j < |t| ensures t[i] != t[j] {
      assert t[i] == if i < k then s[i] else if i < k + |run| then run[i - k] else s[i - |run|];
      assert t[j] == if j < k then s[j] else if j < k + |run| then run[j - k] else s[j - |run|];
    }
  }

  /** The linking of a detached run, seen in the world. */
  method Place(p: DomNode, newFirst: DomNode, newLast: DomNode, ref: DomNode?,
               ghost run: seq<DomNode>, ghost world: set<DomNode>)
    requires Valid(world) && p in world && (ref == null || ref in p.kids)
    requires run != [] && newFirst == run[0] && newLast == run[|run| - 1] && (forall c :: c in run ==> c in world)
    requires Distinct(run) && ForwardRun(run) && BackwardRun(run) && Unlisted(world, run)
    modifies p`firstChild, p`lastChild, p`childNodes, p`kids, p.kids`previousSibling, p.kids`nextSibling,
             run`parentNode, run`previousSibling, run`nextSibling
    ensures Valid(world) && Parented(p, run)
    ensures p.kids == Inserted(old(p.kids), ref, run)
  {
    hide ForwardRun, BackwardRun, Distinct, Inserted;
    forall q | q in world && q != p
      ensures forall i, j :: 0 <= i < |p.kids| && 0 <= j < |q.kids| ==> p.kids[i] != q.kids[j]
    {
      OneParent(world, p, q);
    }
    assert p.Linked();
    ghost var k := |p.kids|;
    if ref != null {
      k :| 0 <= k < |p.kids| && p.kids[k] == ref;
    }
    InsertedAtRef(p.kids, ref, run, k);
    DistinctSplice(p.kids, run, k);
    Splice(p, newFirst, newLast, ref, run, k);
    forall q | q in world && q != p ensures q.Linked() {
      assert old(q.Linked());
    }
  }

  lemma InsertedAtRef(s: seq<DomNode>, ref: DomNode?, run: seq<DomNode>, k: nat)
    requires Distinct(s) && if ref == null then k == |s| else k < |s| && s[k] == ref
    ensures Inserted(s, ref, run) == s[..k] + run + s[k..]
  {
    InsertedAt(s, ref, run, k);
  }

  lemma {:induction false} WithoutAbsent(s: seq<DomNode>, x: DomNode)
    requires x !in s
    ensures Without(s, x) == s
  {
    if s != [] {
      WithoutAbsent(s[1..], x);
    }
  }

  lemma WithoutGone(s: seq<DomNode>, x: DomNode)
    requires Distinct(s)
    ensures x !in Without(s, x)
    ensures forall c :: c != x ==> (c in Without(s, x) <==> c in s)
  {
    if x in s {
      var k :| 0 <= k < |s| && s[k] == x;
      WithoutAt(s, k);
      assert forall c :: c in s ==> c in s[..k] || c == s[k] || c in s[k + 1..];
    } else {
      WithoutAbsent(s, x);
    }
  }

  /** The opening step of both insertions: a new child that has a parent is removed from it. Afterwards
      the node is in no child list. */
  method Detach(child: DomNode, ghost world: set<DomNode>)
    requires Valid(world) && child in world && Settled(child)
    requires child.parentNode != null ==> child.parentNode in world
    modifies world`firstChild, world`lastChild, world`childNodes, world`kids,
             world`previousSibling, world`nextSibling
    ensures Valid(world) && Unlisted(world, [child])
    ensures forall q :: q in world ==> q.kids == Without(old(q.kids), child)
  {
    forall q | q in world && q != child.parentNode ensures Without(q.kids, child) == q.kids {
      assert q.Linked();
      WithoutAbsent(q.kids, child);
    }
    var cp := child.parentNode;
    if cp != null {
      assert cp.Linked();
      WithoutGone(cp.kids, child);
      RemoveChild(cp, child, world);
    }
  }

  /** The linking of one detached node, seen in the world. */
  method PlaceOne(p: DomNode, newChild: DomNode, ref: DomNode?, ghost world: set<DomNode>)
    requires Valid(world) && p in world && newChild in world && (ref == null || ref in p.kids)
    requires Unlisted(world, [newChild])
    modifies p`firstChild, p`lastChild, p`childNodes, p`kids, p.kids`previousSibling, p.kids`nextSibling,
             newChild`parentNode, newChild`previousSibling, newChild`nextSibling
    ensures Valid(world) && newChild.parentNode == p && newChild in p.kids
    ensures p.kids == Inserted(old(p.kids), ref, [newChild])
    ensures forall q :: q in world && q != p ==> q.kids == old(q.kids)
    ensures forall n :: n in world && n != newChild ==> n.parentNode == old(n.parentNode)
  {
    hide Inserted, ForwardRun, BackwardRun, Distinct, Unlisted, Valid;
    ghost var before := p.kids;
    Alone(newChild);
    Place(p, newChild, newChild, ref, [newChild], world);
    InsertedHas(before, ref, [newChild]);
    assert [newChild][0].parentNode == p && newChild in [newChild];
  }

  /** `_insertBefore` for a new child that is not a fragment. */
  method InsertBefore(p: DomNode, newChild: DomNode, ref: DomNode?, ghost world: set<DomNode>)
    requires Valid(world) && p in world && newChild in world && (ref == null || ref in p.kids) && ref != newChild
    requires Settled(newChild) && (newChild.parentNode != null ==> newChild.parentNode in world)
    modifies world`parentNode, world`firstChild, world`lastChild, world`previousSibling, world`nextSibling,
             world`childNodes, world`kids
    ensures Valid(world) && Settled(newChild) && newChild.parentNode == p
    ensures forall q :: q in world ==>
      q.kids == if q == p then Inserted(Without(old(q.kids), newChild), ref, [newChild])
                else Without(old(q.kids), newChild)
    ensures forall n :: n in world && n != newChild ==> n.parentNode == old(n.parentNode)
  {
    DistinctKids(world, p);
    WithoutGone(p.kids, newChild);
    hide Without, Inserted, Distinct, Unlisted, Valid;
    Detach(newChild, world);
    KidsInside(world);
    PlaceOne(p, newChild, ref, world);
  }

  lemma Alone(c: DomNode)
    ensures Distinct([c]) && ForwardRun([c]) && BackwardRun([c])
  {
  }

  lemma {:induction false} InsertedHas(s: seq<DomNode>, ref: DomNode?, run: seq<DomNode>)
    ensures forall c :: c in Inserted(s, ref, run) <==> c in s || c in run
  {
    if s != [] && s[0] != ref {
      InsertedHas(s[1..], ref, run);
    }
  }

  /** The linking part of `_appendSingleChild`; the array is extended, not rebuilt. */
  method LinkLast(p: DomNode, newChild: DomNode)
    requires p.Linked() && p.kind == ElementNode && newChild !in p.kids
    modifies p`firstChild, p`lastChild, p`childNodes, p`kids, p.kids`nextSibling,
             newChild`parentNode, newChild`previousSibling, newChild`nextSibling
    ensures p.Linked() && newChild.parentNode == p && p.kids == old(p.kids) + [newChild]
  {
    hide ForwardRun, BackwardRun, Forward, Backward, Parented, Distinct, ForwardTail, BackwardTail;
    ghost var ks := p.kids;
    AppendedFacts(p, ks, newChild);
    var pre := p.lastChild;
    newChild.parentNode := p;
    newChild.previousSibling := pre;
    newChild.nextSibling := null;
    AppendedLinks(p, ks, newChild);
    JoinForward(p, pre, newChild, ks, [newChild]);
    p.lastChild := newChild;
    AppendedEnd(p, ks, newChild);
    ParentedParts(p, ks, [newChild], []);
    p.childNodes := p.childNodes + [newChild];
    p.kids := ks + [newChild];
  }

  lemma AppendedFacts(p: DomNode, ks: seq<DomNode>, c: DomNode)
    requires Distinct(ks) && Forward(p, ks) && Backward(p, ks) && Parented(p, ks) && c !in ks
    ensures Distinct(ks + [c]) && ForwardHead(p, ks) && BackwardTail(ks) && p.lastChild == Last(ks, null)
    ensures forall i :: 0 <= i < |ks| ==> ks[i] != c
    ensures ks + [] == ks && ks + [c] + [] == ks + [c]
  {
  }

  lemma AppendedLinks(p: DomNode, ks: seq<DomNode>, c: DomNode)
    requires c.nextSibling == null && c.parentNode == p
    ensures ForwardTail([c]) && First([c], null) == c && Parented(p, [c])
  {
  }

  lemma AppendedEnd(p: DomNode, ks: seq<DomNode>, c: DomNode)
    requires BackwardTail(ks) && c.previousSibling == Last(ks, null) && p.lastChild == c
    ensures Backward(p, ks + [c])
  {
  }

  /** `appendChild` of an element, for a new child that is not a fragment. */
  method AppendChild(p: DomNode, newChild: DomNode, ghost world: set<DomNode>)
    requires Valid(world) && p in world && newChild in world && p.kind == ElementNode
    requires Settled(newChild) && (newChild.parentNode != null ==> newChild.parentNode in world)
    modifies world`parentNode, world`firstChild, world`lastChild, world`previousSibling, world`nextSibling,
             world`childNodes, world`kids
    ensures Valid(world) && Settled(newChild) && newChild.parentNode == p
    ensures forall q :: q in world ==>
      q.kids == Without(old(q.kids), newChild) + (if q == p then [newChild] else [])
    ensures forall n :: n in world && n != newChild ==> n.parentNode == old(n.parentNode)
  {
    hide Without, Valid, Unlisted;
    Detach(newChild, world);
    KidsInside(world);
    AppendLast(p, newChild, world);
  }

  lemma KidsInside(world: set<DomNode>)
    requires Valid(world)
    ensures forall q, c :: q in world && c in q.kids ==> c in world
  {
  }

  method AppendLast(p: DomNode, newChild: DomNode, ghost world: set<DomNode>)
    requires Valid(world) && p in world && newChild in world && p.kind == ElementNode && Unlisted(world, [newChild])
    modifies p`firstChild, p`lastChild, p`childNodes, p`kids, p.kids`nextSibling,
             newChild`parentNode, newChild`previousSibling, newChild`nextSibling
    ensures Valid(world) && newChild.parentNode == p && p.kids == old(p.kids) + [newChild]
  {
    assert newChild == [newChild][0];
    forall q | q in world && q != p
      ensures forall i, j :: 0 <= i < |p.kids| && 0 <= j < |q.kids| ==> p.kids[i] != q.kids[j]
    {
      OneParent(world, p, q);
    }
    LinkLast(p, newChild);
    forall q | q in world && q != p ensures q.Linked() {
      assert old(q.Linked());
    }
  }

  /** `_insertBefore` for a fragment: all its children move, in order, and the fragment is left without any. */
  method InsertFragment(p: DomNode, fragment: DomNode, ref: DomNode?, ghost world: set<DomNode>)
    requires Valid(world) && p in world && fragment in world && p != fragment
    requires fragment.kind == FragmentNode && fragment.parentNode == null
    requires ref == null || ref in p.kids
    modifies world`parentNode, world`firstChild, world`lastChild, world`previousSibling, world`nextSibling,
             world`childNodes, world`kids
    ensures Valid(world)
    ensures forall q :: q in world ==>
      q.kids == if q == p then Inserted(old(q.kids), ref, old(fragment.kids))
                else if q == fragment then [] else old(q.kids)
  {
    hide ForwardRun, BackwardRun, Inserted, Valid, Unlisted;
    ghost var run := fragment.kids;
    var newFirst := fragment.firstChild;
    FragmentFacts(fragment, world);
    if newFirst == null {
      InsertedNothing(p.kids, ref);
      return;
    }
    var newLast := fragment.lastChild;
    Place(p, newFirst, newLast, ref, run, world - {fragment});
    Empty(fragment, world);
  }

  /** The fragment loses its children. */
  method Empty(fragment: DomNode, ghost world: set<DomNode>)
    requires Valid(world - {fragment}) && fragment.kind == FragmentNode
    modifies fragment`firstChild, fragment`lastChild, fragment`kids
    ensures Valid(world) && fragment.kids == []
  {
    fragment.firstChild, fragment.lastChild := null, null;
    fragment.kids := [];
    EmptyLinked(fragment);
    forall q | q in world - {fragment} ensures q.Linked() && forall c :: c in q.kids ==> c in world {
      assert old(q.Linked());
      forall c | c in q.kids ensures c in world - {fragment} {
        assert old(c in q.kids);
      }
    }
  }

  lemma FragmentFacts(fragment: DomNode, world: set<DomNode>)
    requires Valid(world) && fragment in world && fragment.parentNode == null
    ensures Valid(world - {fragment}) && Unlisted(world - {fragment}, fragment.kids)
    ensures fragment !in fragment.kids && forall c :: c in fragment.kids ==> c in world - {fragment}
    ensures Distinct(fragment.kids) && ForwardRun(fragment.kids) && BackwardRun(fragment.kids)
    ensures fragment.firstChild == First(fragment.kids, null) && fragment.lastChild == Last(fragment.kids, null)
    ensures forall q :: q in world ==> fragment !in q.kids
    ensures forall q, c :: q in world && c in q.kids ==> c in world
  {
    forall q | q in world ensures fragment !in q.kids && q.Linked() {
      assert q.Linked();
    }
    forall q | q in world - {fragment}
      ensures forall i, j :: 0 <= i < |q.kids| && 0 <= j < |fragment.kids| ==> q.kids[i] != fragment.kids[j]
    {
      OneParent(world, q, fragment);
    }
  }

  lemma {:induction false} InsertedNothing(s: seq<DomNode>, ref: DomNode?)
    ensures Inserted(s, ref, []) == s
  {
    if s != [] && s[0] != ref {
      InsertedNothing(s[1..], ref);
    }
  }

  lemma EmptyLinked(p: DomNode)
    requires p.kids == [] && p.firstChild == null && p.lastChild == null && p.kind != ElementNode
    ensures p.Linked()
  {
  }

  /** `y` in the place of `x`. */
  function Replaced(s: seq<DomNode>, x: DomNode, y: DomNode): seq<DomNode> {
    if s == [] then [] else if s[0] == x then [y] + s[1..] else [s[0]] + Replaced(s[1..], x, y)
  }

  lemma {:induction false} ReplacedIs(s: seq<DomNode>, x: DomNode, y: DomNode)
    requires x in s && y !in s
    ensures Without(Inserted(s, x, [y]), x) == Replaced(s, x, y)
  {
    if s[0] == x {
      assert ([y] + s)[1..] == s;
    } else {
      var rest := Inserted(s[1..], x, [y]);
      assert ([s[0]] + rest)[1..] == rest;
      ReplacedIs(s[1..], x, y);
    }
  }

  /** `replaceChild` */
  method ReplaceChild(p: DomNode, newChild: DomNode, oldChild: DomNode, ghost world: set<DomNode>)
    requires Valid(world) && p in world && newChild in world && oldChild in p.kids && oldChild != newChild
    requires Settled(newChild) && (newChild.parentNode != null ==> newChild.parentNode in world)
    modifies world`parentNode, world`firstChild, world`lastChild, world`previousSibling, world`nextSibling,
             world`childNodes, world`kids
    ensures Valid(world)
    ensures forall q :: q in world ==>
      q.kids == if q == p then Replaced(Without(old(q.kids), newChild), oldChild, newChild)
                else Without(old(q.kids), newChild)
  {
    hide Without, Inserted, Replaced;
    ghost var before := p.kids;
    DistinctKids(world, p);
    WithoutGone(before, newChild);
    InsertedHas(Without(before, newChild), oldChild, [newChild]);
    ReplacedIs(Without(before, newChild), oldChild, newChild);
    InsertBefore(p, newChild, oldChild, world);
    RemoveChild(p, oldChild, world);
  }

  lemma DistinctKids(world: set<DomNode>, p: DomNode)
    requires Valid(world) && p in world
    ensures Distinct(p.kids)
  {
    assert p.Linked();
  }
}
