/** Parents and ancestors: when an insertion keeps the tree a tree. Nothing in the code looks for cycles. */
module DomAncestors {
  import opened DomTree
  import opened DomStale

  ghost function Ups(world: set<DomNode>): Links
    reads world`parentNode
  {
    map n | n in world :: n.parentNode
  }

  /** From every node the chain of parents ends. */
  ghost predicate Acyclic(world: set<DomNode>)
    reads world`parentNode
  {
    forall n :: n in world ==> Ends(Ups(world), n)
  }

  /** Going up from `n` one meets `c`. */
  ghost predicate AtOrAbove(world: set<DomNode>, n: DomNode, c: DomNode)
    reads world`parentNode
  {
    exists ns :: Chain(Ups(world), n, ns) && c in ns
  }

  /** Where the chains end, giving `c` the parent `p` keeps them so if and only if `c` is neither `p` nor above it. */
  lemma Reparented(link: Links, c: DomNode, p: DomNode)
    requires c in link && p in link && forall n :: n in link ==> Ends(link, n)
    ensures (forall n :: n in link ==> Ends(link[c := p], n)) <==> EndsWithout(link, p, c)
  {
    if EndsWithout(link, p, c) {
      forall n | n in link ensures Ends(link[c := p], n) {
        var ns :| Chain(link, n, ns);
        if i: nat :| i < |ns| && ns[i] == c {
          ThroughCutBack(link, ns, i, p);
        } else {
          SamePath(link, link[c := p], ns, null);
          assert Chain(link[c := p], n, ns);
        }
      }
    }
    if forall n :: n in link ==> Ends(link[c := p], n) {
      var ns :| Chain(link, c, ns);
      assert ns[0] == c;
      ThroughCut(link, ns, 0, p);
    }
  }

  lemma EndsWithoutIs(world: set<DomNode>, p: DomNode, c: DomNode)
    requires p in world && Acyclic(world)
    ensures EndsWithout(Ups(world), p, c) <==> !AtOrAbove(world, p, c)
  {
    var link := Ups(world);
    var ms :| Chain(link, p, ms);
    forall ns: seq<DomNode> | Chain(link, p, ns) ensures ns == ms {
      ChainUnique(link, p, ns, ms);
    }
  }

  /** The chains after the only change of a parent. */
  lemma OneChange(world: set<DomNode>, link: Links, c: DomNode, p: DomNode)
    requires c in world && link.Keys == world && c.parentNode == p
    requires forall n :: n in world && n != c ==> n.parentNode == link[n]
    ensures Acyclic(world) <==> forall n :: n in link ==> Ends(link[c := p], n)
  {
    hide Ends;
    assert Ups(world) == link[c := p];
  }

  lemma UpsAre(world: set<DomNode>)
    ensures Ups(world).Keys == world && forall n :: n in world ==> n.parentNode == Ups(world)[n]
    ensures Acyclic(world) <==> forall n :: n in Ups(world) ==> Ends(Ups(world), n)
  {
    hide Ends;
  }

  /** An insertion keeps every chain of parents finite if and only if the new child is neither the new parent nor one
      of its ancestors. */
  method InsertBelow(p: DomNode, newChild: DomNode, ref: DomNode?, ghost world: set<DomNode>)
    requires Valid(world) && p in world && newChild in world && (ref == null || ref in p.kids) && ref != newChild
    requires Settled(newChild) && (newChild.parentNode != null ==> newChild.parentNode in world) && Acyclic(world)
    modifies world`parentNode, world`firstChild, world`lastChild, world`previousSibling, world`nextSibling,
             world`childNodes, world`kids
    ensures Valid(world) && newChild.parentNode == p && (Acyclic(world) <==> old(!AtOrAbove(world, p, newChild)))
    ensures forall n :: n in world && n != newChild ==> n.parentNode == old(n.parentNode)
  {
    hide *;
    ghost var link := Ups(world);
    UpsAre(world);
    EndsWithoutIs(world, p, newChild);
    Reparented(link, newChild, p);
    InsertBefore(p, newChild, ref, world);
    OneChange(world, link, newChild, p);
  }

  method AppendBelow(p: DomNode, newChild: DomNode, ghost world: set<DomNode>)
    requires Valid(world) && p in world && newChild in world && p.kind == ElementNode
    requires Settled(newChild) && (newChild.parentNode != null ==> newChild.parentNode in world) && Acyclic(world)
    modifies world`parentNode, world`firstChild, world`lastChild, world`previousSibling, world`nextSibling,
             world`childNodes, world`kids
    ensures Valid(world) && newChild.parentNode == p && (Acyclic(world) <==> old(!AtOrAbove(world, p, newChild)))
    ensures forall n :: n in world && n != newChild ==> n.parentNode == old(n.parentNode)
  {
    hide *;
    ghost var link := Ups(world);
    UpsAre(world);
    EndsWithoutIs(world, p, newChild);
    Reparented(link, newChild, p);
    AppendChild(p, newChild, world);
    OneChange(world, link, newChild, p);
  }

  /** A root that is appended to its own child: the call goes through, and the two are each other's parents. */
  method AppendToOwnChild(p: DomNode, child: DomNode, ghost world: set<DomNode>)
    requires Valid(world) && Acyclic(world) && p in world && child in p.kids && child.kind == ElementNode
    requires p.parentNode == null
    modifies world`parentNode, world`firstChild, world`lastChild, world`previousSibling, world`nextSibling,
             world`childNodes, world`kids
    ensures Valid(world) && p.parentNode == child && child.parentNode == p && !Acyclic(world)
  {
    ChildOfRoot(p, child, world);
    hide *;
    AppendBelow(child, p, world);
  }

  lemma ChildOfRoot(p: DomNode, child: DomNode, world: set<DomNode>)
    requires Valid(world) && p in world && child in p.kids && p.parentNode == null
    ensures child in world && child != p && child.parentNode == p && Settled(p) && AtOrAbove(world, child, p)
  {
    assert p.Linked();
    assert Chain(Ups(world), child, [child, p]);
  }
}
