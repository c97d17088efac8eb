/** `EventTarget`: one linked list of listener nodes per event name. */
module EventTarget {
  import opened Common

  /** The values that can be passed for a listener: falsy ones, functions, objects, and what is neither. */
  datatype Value = Falsy | Function(id: nat) | Object(id: nat) | Primitive(id: nat)

  datatype Options = Flag(flag: bool) | OptionsObject(capture: bool, isPassive: bool, isOnce: bool)

  datatype ListenerType = Capture | Bubble

  datatype Entry = Entry(listener: Value, listenerType: ListenerType, passive: bool, once: bool)

  datatype AddError = TypeError

  function TypeOf(options: Options): ListenerType {
    if (if options.OptionsObject? then options.capture else options.flag) then Capture else Bubble
  }

  function NewEntry(listener: Value, options: Options): Entry {
    Entry(listener, TypeOf(options), options.OptionsObject? && options.isPassive,
          options.OptionsObject? && options.isOnce)
  }

  // ---- the lists as values ----

  predicate Same(e: Entry, listener: Value, listenerType: ListenerType) {
    e.listener == listener && e.listenerType == listenerType
  }

  predicate Has(es: seq<Entry>, listener: Value, listenerType: ListenerType) {
    exists i :: 0 <= i < |es| && Same(es[i], listener, listenerType)
  }

  predicate NoDuplicates(es: seq<Entry>) {
    forall i, j :: 0 <= i < j < |es| ==> !Same(es[i], es[j].listener, es[j].listenerType)
  }

  function Added(es: seq<Entry>, e: Entry): seq<Entry> {
    if Has(es, e.listener, e.listenerType) then es else es + [e]
  }

  function Removed(es: seq<Entry>, listener: Value, listenerType: ListenerType): seq<Entry> {
    if es == [] then []
    else if Same(es[0], listener, listenerType) then es[1..]
    else [es[0]] + Removed(es[1..], listener, listenerType)
  }

  lemma {:induction false} RemovedFirst(es: seq<Entry>, i: nat, listener: Value, listenerType: ListenerType)
    requires i < |es| && Same(es[i], listener, listenerType)
    requires forall k :: 0 <= k < i ==> !Same(es[k], listener, listenerType)
    ensures Removed(es, listener, listenerType) == es[..i] + es[i + 1..]
  {
    if i > 0 {
      RemovedFirst(es[1..], i - 1, listener, listenerType);
    }
  }

  lemma {:induction false} RemovedNone(es: seq<Entry>, listener: Value, listenerType: ListenerType)
    ensures Removed(es, listener, listenerType) == es <==> !Has(es, listener, listenerType)
  {
    if es != [] && !Same(es[0], listener, listenerType) {
      RemovedNone(es[1..], listener, listenerType);
      assert es == [es[0]] + es[1..];
      assert forall i :: 1 <= i < |es| ==> es[i] == es[1..][i - 1];
    } else if es != [] {
      assert |Removed(es, listener, listenerType)| < |es|;
    }
  }

  /** Removing what was just added leads back. */
  lemma RemovedAdded(es: seq<Entry>, e: Entry)
    requires !Has(es, e.listener, e.listenerType)
    ensures Removed(Added(es, e), e.listener, e.listenerType) == es
  {
    RemovedFirst(es + [e], |es|, e.listener, e.listenerType);
    assert (es + [e])[..|es|] == es;
  }

  function Without<T>(s: seq<T>, i: int): seq<T>
    requires 0 <= i < |s|
  {
    s[..i] + s[i + 1..]
  }

  lemma WithoutKeeps(es: seq<Entry>, i: nat)
    requires i < |es| && NoDuplicates(es)
    ensures NoDuplicates(Without(es, i))
  {
    hide Same;
  }

  /** From a list without duplicates a pair is gone after its removal, and every other pair is still there. */
  lemma RemovedIsGone(es: seq<Entry>, listener: Value, listenerType: ListenerType, other: Value, otherType: ListenerType)
    requires NoDuplicates(es)
    ensures var after := Removed(es, listener, listenerType);
      NoDuplicates(after)
      && (Has(after, other, otherType) <==> Has(es, other, otherType) && (other, otherType) != (listener, listenerType))
  {
    hide NoDuplicates, Has;
    if i: nat :| i < |es| && Same(es[i], listener, listenerType) {
      OnlyOne(es, i);
      RemovedFirst(es, i, listener, listenerType);
      WithoutKeeps(es, i);
      WithoutHas(es, i, other, otherType);
    } else {
      RemovedNone(es, listener, listenerType);
      HasNot(es, listener, listenerType);
    }
  }

  lemma OnlyOne(es: seq<Entry>, i: nat)
    requires i < |es| && NoDuplicates(es)
    ensures forall k :: 0 <= k < |es| && k != i ==> !Same(es[k], es[i].listener, es[i].listenerType)
  {
  }

  lemma HasNot(es: seq<Entry>, listener: Value, listenerType: ListenerType)
    ensures Has(es, listener, listenerType) <==> exists i :: 0 <= i < |es| && Same(es[i], listener, listenerType)
  {
  }

  lemma WithoutHas(es: seq<Entry>, i: nat, other: Value, otherType: ListenerType)
    requires i < |es| && NoDuplicates(es)
    ensures Has(Without(es, i), other, otherType) <==> Has(es, other, otherType) && !Same(es[i], other, otherType)
  {
    OnlyOne(es, i);
    var ms := Without(es, i);
    assert forall k :: 0 <= k < |ms| ==> ms[k] == es[if k < i then k else k + 1];
    if k :| 0 <= k < |es| && Same(es[k], other, otherType) && k != i {
      assert ms[if k < i then k else k - 1] == es[k];
    }
  }

  lemma AddedKeeps(es: seq<Entry>, e: Entry)
    requires NoDuplicates(es)
    ensures NoDuplicates(Added(es, e)) && Has(Added(es, e), e.listener, e.listenerType)
  {
    if !Has(es, e.listener, e.listenerType) {
      assert (es + [e])[|es|] == e;
    }
  }

  // ---- dispatching, on the list as a value ----

  /** What one call of a handler or listener does to the event. */
  datatype Action = Action(stop: bool, prevent: bool)

  /** The flags of an event; a passive listener cannot cancel it. */
  datatype Flags = Flags(canceled: bool, stopped: bool) {
    function After(action: Action, passive: bool): Flags {
      Flags(canceled || (action.prevent && !passive), stopped || action.stop)
    }
  }

  /** The entries that are called: a listener object is not, even if it has a `handleEvent`. */
  function Called(es: seq<Entry>): seq<Entry> {
    if es == [] then []
    else if es[|es| - 1].listener.Function? then Called(es[..|es| - 1]) + [es[|es| - 1]]
    else Called(es[..|es| - 1])
  }

  function Lasting(es: seq<Entry>): seq<Entry> {
    if es == [] then []
    else if es[|es| - 1].once then Lasting(es[..|es| - 1])
    else Lasting(es[..|es| - 1]) + [es[|es| - 1]]
  }

  /** Call number `c` does `act(c)`: is the event stopped once the first `k` entries have been visited? */
  predicate StoppedAfter(es: seq<Entry>, k: nat, already: bool, act: nat -> Action)
    requires k <= |es|
  {
    already || exists c: nat :: c < |Called(es[..k])| && act(c).stop
  }

  predicate PreventedBy(calls: seq<Entry>, act: nat -> Action) {
    exists c: nat :: c < |calls| && act(c).prevent && !calls[c].passive
  }

  /** How many entries a dispatch visits: all, or up to the first after which the event is stopped. */
  predicate Visits(es: seq<Entry>, v: nat, already: bool, act: nat -> Action) {
    v <= |es| && (es != [] ==> v > 0)
    && (forall k :: 1 <= k < v ==> !StoppedAfter(es, k, already, act))
    && (v < |es| ==> StoppedAfter(es, v, already, act))
  }

  lemma VisitsIsUnique(es: seq<Entry>, v: nat, w: nat, already: bool, act: nat -> Action)
    requires Visits(es, v, already, act) && Visits(es, w, already, act)
    ensures v == w
  {
    hide StoppedAfter;
  }

  lemma FilterSnoc(es: seq<Entry>, k: nat)
    requires k < |es|
    ensures Called(es[..k + 1]) == if es[k].listener.Function? then Called(es[..k]) + [es[k]] else Called(es[..k])
    ensures Lasting(es[..k + 1]) == if es[k].once then Lasting(es[..k]) else Lasting(es[..k]) + [es[k]]
  {
    assert es[..k + 1][..k] == es[..k];
  }

  lemma Unvisited(es: seq<Entry>, already: bool, act: nat -> Action)
    ensures Called(es[..0]) == [] && Lasting(es[..0]) == [] && !PreventedBy([], act)
    ensures StoppedAfter(es, 0, already, act) == already
  {
  }

  /** What visiting entry `k` adds. */
  lemma VisitOne(es: seq<Entry>, k: nat, already: bool, act: nat -> Action)
    requires k < |es|
    ensures var calls := Called(es[..k]);
      if es[k].listener.Function? then
        Called(es[..k + 1]) == calls + [es[k]]
        && StoppedAfter(es, k + 1, already, act) == (StoppedAfter(es, k, already, act) || act(|calls|).stop)
        && PreventedBy(calls + [es[k]], act) == (PreventedBy(calls, act) || (act(|calls|).prevent && !es[k].passive))
      else
        Called(es[..k + 1]) == calls && StoppedAfter(es, k + 1, already, act) == StoppedAfter(es, k, already, act)
    ensures Lasting(es[..k + 1]) == if es[k].once then Lasting(es[..k]) else Lasting(es[..k]) + [es[k]]
  {
    FilterSnoc(es, k);
    hide Called, Lasting;
    var calls := Called(es[..k]);
    assert forall c: nat :: c < |calls| ==> (calls + [es[k]])[c] == calls[c];
  }

  /** What the flags of the event and the calls say when `k` entries have been visited. */
  ghost predicate MidWay(es: seq<Entry>, k: nat, calls: seq<Entry>, before: Flags, now: Flags, act: nat -> Action) {
    k <= |es| && calls == Called(es[..k])
    && now.canceled == (before.canceled || PreventedBy(calls, act))
    && now.stopped == StoppedAfter(es, k, before.stopped, act)
    && forall j :: 1 <= j < k ==> !StoppedAfter(es, j, before.stopped, act)
  }

  lemma MidWayStart(es: seq<Entry>, before: Flags, act: nat -> Action)
    ensures MidWay(es, 0, [], before, before, act)
  {
    Unvisited(es, before.stopped, act);
  }

  lemma MidWayStep(es: seq<Entry>, k: nat, calls: seq<Entry>, before: Flags, now: Flags, act: nat -> Action)
    requires MidWay(es, k, calls, before, now, act) && k < |es| && (k > 0 ==> !now.stopped)
    ensures es[k].listener.Function? ==>
      MidWay(es, k + 1, calls + [es[k]], before, now.After(act(|calls|), es[k].passive), act)
    ensures !es[k].listener.Function? ==> MidWay(es, k + 1, calls, before, now, act)
  {
    hide Called, Lasting, PreventedBy, StoppedAfter;
    VisitOne(es, k, before.stopped, act);
  }

  lemma LastingSnoc(es: seq<Entry>, k: nat)
    requires k < |es|
    ensures Lasting(es[..k + 1]) == if es[k].once then Lasting(es[..k]) else Lasting(es[..k]) + [es[k]]
  {
    FilterSnoc(es, k);
  }

  lemma MidWayEnd(es: seq<Entry>, k: nat, calls: seq<Entry>, before: Flags, now: Flags, act: nat -> Action)
    requires MidWay(es, k, calls, before, now, act) && (k < |es| ==> k > 0 && now.stopped)
    ensures Visits(es, k, before.stopped, act) && calls == Called(es[..k])
    ensures now.canceled == (before.canceled || PreventedBy(calls, act))
  {
    hide Called, PreventedBy, StoppedAfter;
  }

  lemma {:induction false} CalledIs(es: seq<Entry>, listener: Value, listenerType: ListenerType)
    ensures Has(Called(es), listener, listenerType) <==>
      exists i :: 0 <= i < |es| && Same(es[i], listener, listenerType) && es[i].listener.Function?
    ensures NoDuplicates(es) ==> NoDuplicates(Called(es))
  {
    if es != [] {
      var front, last := es[..|es| - 1], es[|es| - 1];
      CalledIs(front, listener, listenerType);
      CalledIs(front, last.listener, last.listenerType);
      assert es == front + [last];
      HasSnoc(Called(front), last, listener, listenerType);
    }
  }

  lemma HasSnoc(es: seq<Entry>, e: Entry, listener: Value, listenerType: ListenerType)
    ensures Has(es + [e], listener, listenerType) <==> Has(es, listener, listenerType) || Same(e, listener, listenerType)
    ensures NoDuplicates(es) && !Has(es, e.listener, e.listenerType) ==> NoDuplicates(es + [e])
  {
    if Same(e, listener, listenerType) {
      assert (es + [e])[|es|] == e;
    }
    assert forall i :: 0 <= i < |es| ==> (es + [e])[i] == es[i];
  }

  /** A dispatch calls every pair of listener and type at most once, and only functions from the list. */
  lemma CalledOnce(es: seq<Entry>, v: nat)
    requires v <= |es| && NoDuplicates(es)
    ensures NoDuplicates(Called(es[..v]))
    ensures forall e :: e in Called(es[..v]) ==> e in es && e.listener.Function?
  {
    hide Called;
    CalledIs(es[..v], Falsy, Bubble);
    CalledFrom(es[..v]);
  }

  lemma {:induction false} CalledFrom(es: seq<Entry>)
    ensures forall e :: e in Called(es) ==> e in es && e.listener.Function?
    ensures forall e :: e in es && e.listener.Function? ==> e in Called(es)
  {
    if es != [] {
      CalledFrom(es[..|es| - 1]);
    }
  }

  /** After a dispatch that visited `v` entries, an entry is still registered exactly if it was not among those or was
      not for one call. */
  lemma LeftAfter(es: seq<Entry>, v: nat, e: Entry)
    requires v <= |es|
    ensures e in Lasting(es[..v]) + es[v..] <==> (e in es[..v] && !e.once) || e in es[v..]
  {
    hide Lasting;
    LastingIs(es[..v], e);
  }

  lemma {:induction false} LastingIs(es: seq<Entry>, e: Entry)
    ensures e in Lasting(es) <==> e in es && !e.once
  {
    if es != [] {
      LastingIs(es[..|es| - 1], e);
    }
  }

  /** From a list without duplicates, a pair that a dispatch has visited is gone exactly if it was for one call. */
  lemma VisitedStays(es: seq<Entry>, v: nat, i: nat)
    requires i < v <= |es| && NoDuplicates(es)
    ensures Has(Lasting(es[..v]) + es[v..], es[i].listener, es[i].listenerType) <==> !es[i].once
  {
    var e, after := es[i], Lasting(es[..v]) + es[v..];
    assert es[..v][i] == e;
    OnlyOne(es, i);
    hide NoDuplicates, Lasting;
    LeftAfter(es, v, e);
    if e in after {
      var k :| 0 <= k < |after| && after[k] == e;
      assert Same(after[k], e.listener, e.listenerType);
    }
    forall k | 0 <= k < |after| && Same(after[k], e.listener, e.listenerType) ensures after[k] == e {
      LeftAfter(es, v, after[k]);
      assert after[k] in after;
      assert after[k] in es;
    }
    OnlyOnce(es, v, i);
  }

  lemma OnlyOnce(es: seq<Entry>, v: nat, i: nat)
    requires i < v <= |es| && NoDuplicates(es)
    ensures es[i] !in es[v..]
  {
    forall k | v <= k < |es| ensures es[k] != es[i] {
      assert !Same(es[i], es[k].listener, es[k].listenerType);
    }
  }

  /** A listener that is added and then visited by a dispatch is registered afterwards, unless it was added for one call:
      a further dispatch does not reach it. */
  lemma AddedOnce(es: seq<Entry>, listener: Value, options: Options, v: nat)
    requires NoDuplicates(es) && !Has(es, listener, TypeOf(options)) && v == |es| + 1
    ensures var now := Added(es, NewEntry(listener, options));
      |now| == v && now[..|es|] == es
      && (Has(Lasting(now[..v]) + now[v..], listener, TypeOf(options)) <==> !(options.OptionsObject? && options.isOnce))
  {
    var e := NewEntry(listener, options);
    AddedIs(es, e);
    AddedKeeps(es, e);
    VisitedStays(es + [e], v, |es|);
  }

  /** What is stored for a listener. */
  lemma NewEntryIs(listener: Value, options: Options)
    ensures var e := NewEntry(listener, options);
      e.listener == listener && e.listenerType == TypeOf(options)
      && (e.listenerType == Capture <==> options == Flag(true) || (options.OptionsObject? && options.capture))
      && (e.once <==> options.OptionsObject? && options.isOnce)
      && (e.passive <==> options.OptionsObject? && options.isPassive)
  {
  }

  /** How a pair is found: the listener, and whether it is for the capturing phase. */
  lemma IsRegistered(es: seq<Entry>, listener: Value, options: Options)
    ensures Has(es, listener, TypeOf(options)) <==>
      exists i :: 0 <= i < |es| && es[i].listener == listener
        && (es[i].listenerType == Capture <==> options == Flag(true) || (options.OptionsObject? && options.capture))
  {
    assert forall i :: 0 <= i < |es| ==>
      (Same(es[i], listener, TypeOf(options)) <==>
        es[i].listener == listener
        && (es[i].listenerType == Capture <==> options == Flag(true) || (options.OptionsObject? && options.capture)));
  }

  // ---- the nodes ----

  class ListenerNode {
    const entry: Entry
    /** The event whose list the node was made for. */
    ghost const owner: string
    var next: ListenerNode?

    constructor (entry: Entry, ghost owner: string)
      ensures this.entry == entry && this.owner == owner && next == null
    {
      this.entry, this.owner, next := entry, owner, null;
    }
  }

  function EntriesOf(ns: seq<ListenerNode>): (es: seq<Entry>)
    ensures |es| == |ns| && forall i :: 0 <= i < |ns| ==> es[i] == ns[i].entry
  {
    seq(|ns|, i requires 0 <= i < |ns| => ns[i].entry)
  }

  ghost function NextIn(ns: seq<ListenerNode>, i: int): ListenerNode? {
    if 0 <= i < |ns| then ns[i] else null
  }

  ghost predicate Linked(ns: seq<ListenerNode>)
    reads ns`next
  {
    forall i :: 0 <= i < |ns| ==> ns[i].next == NextIn(ns, i + 1)
  }

  ghost predicate Owned(ns: seq<ListenerNode>, name: string) {
    forall i :: 0 <= i < |ns| ==> ns[i].owner == name
  }

  /** No pair of listener and type occurs twice, so no node does. */
  ghost predicate IsList(ns: seq<ListenerNode>, name: string)
    reads ns`next
  {
    Linked(ns) && Owned(ns, name) && NoDuplicates(EntriesOf(ns))
  }

  lemma Distinct(ns: seq<ListenerNode>, i: nat, j: nat)
    requires i < |ns| && j < |ns| && i != j && NoDuplicates(EntriesOf(ns))
    ensures ns[i] != ns[j]
  {
    var a, b := if i < j then i else j, if i < j then j else i;
    assert !Same(EntriesOf(ns)[a], EntriesOf(ns)[b].listener, EntriesOf(ns)[b].listenerType);
  }

  lemma Singleton(n: ListenerNode, name: string)
    requires n.next == null && n.owner == name
    ensures IsList([n], name) && EntriesOf([n]) == [n.entry]
  {
  }

  lemma LookedThrough(ns: seq<ListenerNode>, listener: Value, listenerType: ListenerType)
    ensures Has(EntriesOf(ns), listener, listenerType)
      <==> exists k :: 0 <= k < |ns| && Same(ns[k].entry, listener, listenerType)
  {
    hide Same;
    assert forall k :: 0 <= k < |ns| ==> EntriesOf(ns)[k] == ns[k].entry;
  }

  /** A list with one node more at its end. */
  lemma Appended(ns: seq<ListenerNode>, n: ListenerNode, name: string)
    requires ns != [] && Owned(ns, name) && NoDuplicates(EntriesOf(ns)) && n.owner == name
    requires !Has(EntriesOf(ns), n.entry.listener, n.entry.listenerType)
    requires forall i :: 0 <= i < |ns| - 1 ==> ns[i].next == ns[i + 1]
    requires ns[|ns| - 1].next == n && n.next == null
    ensures IsList(ns + [n], name) && EntriesOf(ns + [n]) == Added(EntriesOf(ns), n.entry)
  {
    hide NoDuplicates, Has, Same;
    assert EntriesOf(ns + [n]) == EntriesOf(ns) + [n.entry];
    AddedKeeps(EntriesOf(ns), n.entry);
  }

  /** The links before the last node do not run through it. */
  lemma BeforeLast(ns: seq<ListenerNode>)
    requires ns != [] && Linked(ns) && NoDuplicates(EntriesOf(ns))
    ensures forall i :: 0 <= i < |ns| - 1 ==> ns[i].next == ns[i + 1] && ns[i] != ns[|ns| - 1]
  {
    hide NoDuplicates, EntriesOf;
    forall i | 0 <= i < |ns| - 1 ensures ns[i].next == ns[i + 1] && ns[i] != ns[|ns| - 1] {
      Distinct(ns, i, |ns| - 1);
    }
  }

  ghost predicate AllLists(lists: map<string, seq<ListenerNode>>, repr: set<ListenerNode>)
    reads repr`next
  {
    (forall name, i :: name in lists && 0 <= i < |lists[name]| ==> lists[name][i] in repr)
    && forall name :: name in lists ==> lists[name] != [] && IsList(lists[name], name)
  }

  /** The map of the source holds the first node of every list, and no entry for an empty one. */
  ghost predicate Heads(listeners: map<string, ListenerNode>, lists: map<string, seq<ListenerNode>>) {
    listeners.Keys == lists.Keys
    && forall name :: name in lists ==> lists[name] != [] && listeners[name] == lists[name][0]
  }

  lemma HeadOf(listeners: map<string, ListenerNode>, lists: map<string, seq<ListenerNode>>, name: string)
    requires Heads(listeners, lists)
    ensures name in listeners <==> name in lists
    ensures name in lists ==> lists[name] != [] && listeners[name] == lists[name][0]
  {
  }

  lemma HeadsPut(listeners: map<string, ListenerNode>, lists: map<string, seq<ListenerNode>>, name: string,
                 ns: seq<ListenerNode>)
    requires Heads(listeners, lists) && ns != []
    ensures Heads(listeners[name := ns[0]], lists[name := ns])
    ensures name in lists && ns[0] == lists[name][0] ==> Heads(listeners, lists[name := ns])
  {
  }

  lemma ListIn(lists: map<string, seq<ListenerNode>>, repr: set<ListenerNode>, name: string)
    requires AllLists(lists, repr) && name in lists
    ensures lists[name] != [] && IsList(lists[name], name) && Linked(lists[name])
    ensures forall i :: 0 <= i < |lists[name]| ==> lists[name][i] in repr
  {
    hide NoDuplicates, EntriesOf, Linked, Owned;
  }

  lemma ListPut(lists: map<string, seq<ListenerNode>>, repr: set<ListenerNode>, name: string, ns: seq<ListenerNode>)
    requires AllLists(lists - {name}, repr) && ns != [] && IsList(ns, name)
    requires forall i :: 0 <= i < |ns| ==> ns[i] in repr
    ensures AllLists(lists[name := ns], repr)
  {
    hide IsList;
    var others, all := lists - {name}, lists[name := ns];
    assert forall m :: m in all && m != name ==> m in others && others[m] == all[m];
  }

  lemma ListDropped(lists: map<string, seq<ListenerNode>>, repr: set<ListenerNode>, name: string)
    requires AllLists(lists, repr)
    ensures AllLists(lists - {name}, repr)
  {
    hide IsList;
  }

  lemma MoreNodes(lists: map<string, seq<ListenerNode>>, repr: set<ListenerNode>, n: ListenerNode)
    requires AllLists(lists, repr)
    ensures AllLists(lists, repr + {n})
  {
    hide IsList;
  }

  /** The last node of a list is followed by a new one. */
  method LinkLast(prev: ListenerNode, newNode: ListenerNode, ghost name: string,
                  ghost lists: map<string, seq<ListenerNode>>, ghost repr: set<ListenerNode>)
    requires AllLists(lists, repr) && name in lists && prev == lists[name][|lists[name]| - 1]
    requires newNode !in repr && newNode.owner == name && newNode.next == null
    requires !Has(EntriesOf(lists[name]), newNode.entry.listener, newNode.entry.listenerType)
    modifies prev
    ensures AllLists(lists[name := lists[name] + [newNode]], repr + {newNode})
    ensures EntriesOf(lists[name] + [newNode]) == Added(EntriesOf(lists[name]), newNode.entry)
  {
    hide Linked, NoDuplicates, EntriesOf, Has, AllLists;
    ghost var ns := lists[name];
    ListIn(lists, repr, name);
    BeforeLast(ns);
    WriteNext(prev, newNode, lists, repr, name);
    Appended(ns, newNode, name);
    MoreNodes(lists - {name}, repr, newNode);
    ListPut(lists, repr + {newNode}, name, ns + [newNode]);
  }

  method WriteNext(prev: ListenerNode, next: ListenerNode?, ghost lists: map<string, seq<ListenerNode>>,
                   ghost repr: set<ListenerNode>, ghost name: string)
    requires AllLists(lists, repr) && prev.owner == name
    modifies prev
    ensures prev.next == next
    ensures AllLists(lists - {name}, repr)
  {
    hide Linked, NoDuplicates, EntriesOf;
    prev.next := next;
    assert forall m :: m in lists && m != name ==> Linked(lists[m]);
  }

  /** Links that skip place `i`: those of the list without it. */
  ghost predicate Skips(ns: seq<ListenerNode>, i: nat)
    reads ns`next
  {
    (forall k :: 0 <= k < |ns| && k != i - 1 ==> ns[k].next == NextIn(ns, k + 1))
    && (0 < i <= |ns| ==> ns[i - 1].next == NextIn(ns, i + 1))
  }

  lemma SkippingLink(ns: seq<ListenerNode>, i: nat, k: nat)
    requires i < |ns| && k < |ns| - 1 && Skips(ns, i)
    ensures Without(ns, i)[k].next == NextIn(Without(ns, i), k + 1)
  {
    var j := if k < i then k else k + 1;
    assert Without(ns, i)[k] == ns[j];
    assert ns[j].next == NextIn(ns, if j == i - 1 then i + 1 else j + 1);
  }

  /** A list whose links skip place `i` is the list without that node. */
  lemma Unlinked(ns: seq<ListenerNode>, i: nat, name: string)
    requires i < |ns| && Owned(ns, name) && NoDuplicates(EntriesOf(ns)) && Skips(ns, i)
    ensures IsList(Without(ns, i), name)
    ensures EntriesOf(Without(ns, i)) == Without(EntriesOf(ns), i)
  {
    hide NoDuplicates, Skips;
    var ms := Without(ns, i);
    assert EntriesOf(ms) == Without(EntriesOf(ns), i);
    WithoutKeeps(EntriesOf(ns), i);
    forall k | 0 <= k < |ms| ensures ms[k].next == NextIn(ms, k + 1) {
      SkippingLink(ns, i, k);
    }
  }

  /** The links of a list that do not start at `ns[j]`. */
  lemma OtherLinks(ns: seq<ListenerNode>, j: nat)
    requires j < |ns| && Linked(ns) && NoDuplicates(EntriesOf(ns))
    ensures forall k :: 0 <= k < |ns| && k != j ==> ns[k].next == NextIn(ns, k + 1) && ns[k] != ns[j]
  {
    hide NoDuplicates, EntriesOf;
    forall k | 0 <= k < |ns| && k != j ensures ns[k].next == NextIn(ns, k + 1) && ns[k] != ns[j] {
      Distinct(ns, k, j);
    }
  }

  method UnlinkAfter(prev: ListenerNode, node: ListenerNode, ghost i: nat, ghost name: string,
                     ghost lists: map<string, seq<ListenerNode>>, ghost repr: set<ListenerNode>)
    requires AllLists(lists, repr) && name in lists && 0 < i < |lists[name]|
    requires prev == lists[name][i - 1] && node == lists[name][i]
    modifies prev
    ensures node.next == old(node.next)
    ensures AllLists(lists[name := Without(lists[name], i)], repr)
  {
    hide Linked, NoDuplicates, EntriesOf, AllLists;
    ghost var ns := lists[name];
    ListIn(lists, repr, name);
    OtherLinks(ns, i - 1);
    WriteNext(prev, node.next, lists, repr, name);
    Unlinked(ns, i, name);
    ListPut(lists, repr, name, Without(ns, i));
  }

  /** Dropping the first node only moves the head. */
  lemma FirstDropped(lists: map<string, seq<ListenerNode>>, repr: set<ListenerNode>, name: string)
    requires AllLists(lists, repr) && name in lists
    ensures lists[name][0].next == NextIn(lists[name], 1)
    ensures |lists[name]| > 1 ==> AllLists(lists[name := Without(lists[name], 0)], repr)
    ensures AllLists(lists - {name}, repr)
  {
    hide NoDuplicates, EntriesOf, AllLists;
    var ns := lists[name];
    ListIn(lists, repr, name);
    ListDropped(lists, repr, name);
    if |ns| > 1 {
      Unlinked(ns, 0, name);
      ListPut(lists, repr, name, Without(ns, 0));
    }
  }

  class EventTarget {
    var listeners: map<string, ListenerNode>
    ghost var lists: map<string, seq<ListenerNode>>
    ghost var repr: set<ListenerNode>

    ghost function Nodes(name: string): seq<ListenerNode>
      reads this`lists
    {
      if name in lists then lists[name] else []
    }

    /** The list of an event name, in the order of registration. */
    ghost function Contents(name: string): seq<Entry>
      reads this`lists
    {
      EntriesOf(Nodes(name))
    }

    ghost predicate Valid()
      reads this, repr
    {
      AllLists(lists, repr) && Heads(listeners, lists)
    }

    constructor ()
      ensures Valid() && fresh(repr) && forall name :: Contents(name) == []
    {
      listeners, lists, repr := map[], map[], {};
    }

    /** The traversal that adding and removing share: up to the node of a listener, or to the end. */
    method Find(name: string, listener: Value, listenerType: ListenerType)
      returns (prev: ListenerNode?, node: ListenerNode?, ghost i: nat)
      requires Valid()
      ensures i <= |Nodes(name)| && node == NextIn(Nodes(name), i) && prev == NextIn(Nodes(name), i - 1)
      ensures forall k :: 0 <= k < i ==> !Same(Nodes(name)[k].entry, listener, listenerType)
      ensures node != null ==> Same(node.entry, listener, listenerType)
      ensures node != null <==> Has(Contents(name), listener, listenerType)
      ensures prev != null || node != null ==> name in lists
      ensures prev != null ==> prev in repr
    {
      hide Linked, NoDuplicates, EntriesOf, Has, Same, AllLists;
      ghost var ns := Nodes(name);
      LookedThrough(ns, listener, listenerType);
      prev, i := null, 0;
      if name !in listeners {
        node := null;
        return;
      }
      ListIn(lists, repr, name);
      node := listeners[name];
      while node != null
        invariant 0 <= i <= |ns| && node == NextIn(ns, i) && prev == NextIn(ns, i - 1)
        invariant forall k :: 0 <= k < i ==> !Same(ns[k].entry, listener, listenerType)
        decreases |ns| - i
      {
        if Same(node.entry, listener, listenerType) {
          return;
        }
        prev := node;
        Follow(ns, i);
        node := node.next;
        i := i + 1;
      }
    }

    method AddEventListener(name: string, listener: Value, options: Options) returns (r: Result<bool, AddError>)
      requires Valid()
      modifies this, repr
      ensures Valid() && fresh(repr - old(repr))
      ensures forall other :: other != name ==> Nodes(other) == old(Nodes(other))
      ensures listener.Falsy? ==> r == Ok(false) && Contents(name) == old(Contents(name))
      ensures listener.Primitive? ==> r == Err(TypeError) && Contents(name) == old(Contents(name))
      ensures listener.Function? || listener.Object? ==>
        r == Ok(!Has(old(Contents(name)), listener, TypeOf(options)))
        && Contents(name) == Added(old(Contents(name)), NewEntry(listener, options))
      ensures r == Ok(true) ==>
        var es, n := Contents(name), |old(Contents(name))|;
        |es| == n + 1 && es[..n] == old(Contents(name)) && es[n].listener == listener
        && (es[n].listenerType == Capture <==> options == Flag(true) || (options.OptionsObject? && options.capture))
        && (es[n].once <==> options.OptionsObject? && options.isOnce)
        && (es[n].passive <==> options.OptionsObject? && options.isPassive)
    {
      hide Linked, NoDuplicates, EntriesOf, Has, Same, TypeOf, AllLists, Added, IsList, Heads;
      if listener.Falsy? {
        return Ok(false);
      }
      if listener.Primitive? {
        return Err(TypeError);
      }
      var listenerType := TypeOf(options);
      var prev, node, i := Find(name, listener, listenerType);
      AddedIs(Contents(name), NewEntry(listener, options));
      if node != null {
        return Ok(false);
      }
      var newNode := new ListenerNode(NewEntry(listener, options), name);
      if prev == null {
        Singleton(newNode, name);
        HeadsPut(listeners, lists, name, [newNode]);
        listeners := listeners[name := newNode];
        ListPutFirst(lists, repr, name, newNode);
        lists := lists[name := [newNode]];
      } else {
        LinkLast(prev, newNode, name, lists, repr);
        HeadOf(listeners, lists, name);
        HeadsPut(listeners, lists, name, lists[name] + [newNode]);
        lists := lists[name := lists[name] + [newNode]];
      }
      repr := repr + {newNode};
      NewEntryIs(listener, options);
      r := Ok(true);
    }

    /** Taking a node out of its list, as removal and dispatch both do it. */
    method Unlink(name: string, prev: ListenerNode?, node: ListenerNode, ghost i: nat)
      requires Valid() && i < |Nodes(name)| && node == Nodes(name)[i] && prev == NextIn(Nodes(name), i - 1)
      modifies this, repr
      ensures Valid() && repr == old(repr)
      ensures forall other :: other != name ==> Nodes(other) == old(Nodes(other))
      ensures Nodes(name) == Without(old(Nodes(name)), i)
      ensures node.next == old(node.next)
    {
      hide Linked, NoDuplicates, EntriesOf, IsList, AllLists;
      ghost var ns := lists[name];
      ListIn(lists, repr, name);
      if prev != null {
        UnlinkAfter(prev, node, i, name, lists, repr);
        lists := lists[name := Without(ns, i)];
      } else {
        FirstDropped(lists, repr, name);
        if node.next != null {
          listeners := listeners[name := node.next];
          lists := lists[name := Without(ns, i)];
        } else {
          listeners := listeners - {name};
          lists := lists - {name};
        }
      }
    }

    method RemoveEventListener(name: string, listener: Value, options: Options) returns (removed: bool)
      requires Valid()
      modifies this, repr
      ensures Valid() && repr == old(repr)
      ensures forall other :: other != name ==> Nodes(other) == old(Nodes(other))
      ensures listener.Falsy? ==> !removed && Contents(name) == old(Contents(name))
      ensures !listener.Falsy? ==>
        removed == Has(old(Contents(name)), listener, TypeOf(options))
        && Contents(name) == Removed(old(Contents(name)), listener, TypeOf(options))
      ensures var es := old(Contents(name));
        removed <==> !listener.Falsy? && exists i ::
          0 <= i < |es| && es[i].listener == listener
          && (es[i].listenerType == Capture <==> options == Flag(true) || (options.OptionsObject? && options.capture))
    {
      IsRegistered(Contents(name), listener, options);
      hide Linked, NoDuplicates, EntriesOf, Has, Same, TypeOf, AllLists, Removed;
      if listener.Falsy? {
        return false;
      }
      var listenerType := TypeOf(options);
      var prev, node, i := Find(name, listener, listenerType);
      removed := node != null;
      FoundAt(Nodes(name), listener, listenerType, i);
      if node != null {
        Unlink(name, prev, node, i);
      }
    }

    /** The head of a turn of the dispatch loop: a node for one call leaves the list before it is called. */
    method Pass(name: string, prev: ListenerNode?, node: ListenerNode, ghost kept: seq<ListenerNode>,
                ghost rest: seq<ListenerNode>)
      returns (newPrev: ListenerNode?, next: ListenerNode?, ghost newKept: seq<ListenerNode>)
      requires Valid() && Nodes(name) == kept + rest && rest != [] && node == rest[0]
      requires prev == NextIn(kept, |kept| - 1)
      modifies this, repr
      ensures Valid() && repr == old(repr)
      ensures forall other :: other != name ==> Nodes(other) == old(Nodes(other))
      ensures newKept == if node.entry.once then kept else kept + [node]
      ensures Nodes(name) == newKept + rest[1..]
      ensures next == NextIn(rest, 1) && newPrev == NextIn(newKept, |newKept| - 1)
    {
      hide Linked, NoDuplicates, EntriesOf, IsList, AllLists;
      ListIn(lists, repr, name);
      Follow(Nodes(name), |kept|);
      next := node.next;
      if node.entry.once {
        Unlink(name, prev, node, |kept|);
        newPrev, newKept := prev, kept;
      } else {
        newPrev, newKept := node, kept + [node];
      }
    }

    /** `dispatchEvent`, for listeners that do not change the target meanwhile. `calls` records the listeners that were
        called, in order. */
    method DispatchEvent(event: Event, onHandler: Option<Action>, act: nat -> Action)
      returns (r: bool, calls: seq<Entry>, ghost visited: nat)
      requires Valid()
      modifies this, repr, event
      ensures Valid() && repr == old(repr)
      ensures forall other :: other != event.name ==> Nodes(other) == old(Nodes(other))
      ensures r == !event.canceled
      ensures
        var es, canceled := old(Contents(event.name)), old(event.canceled) || (onHandler.Some? && onHandler.value.prevent);
        if onHandler.Some? && canceled then calls == [] && Contents(event.name) == es && !r
        else
          Visits(es, visited, old(event.stopped) || (onHandler.Some? && onHandler.value.stop), act)
          && calls == Called(es[..visited])
          && Contents(event.name) == Lasting(es[..visited]) + es[visited..]
          && event.canceled == (canceled || PreventedBy(calls, act))
    {
      hide Linked, NoDuplicates, EntriesOf, IsList, AllLists, Called, Lasting, StoppedAfter, PreventedBy;
      if onHandler.Some? {
        event.Suffer(onHandler.value, false);
        if event.canceled {
          return false, [], 0;
        }
      }
      calls, visited := CallListeners(event, act);
      r := !event.canceled;
    }

    method CallListeners(event: Event, act: nat -> Action) returns (calls: seq<Entry>, ghost visited: nat)
      requires Valid()
      modifies this, repr, event
      ensures Valid() && repr == old(repr)
      ensures forall other :: other != event.name ==> Nodes(other) == old(Nodes(other))
      ensures Visits(old(Contents(event.name)), visited, old(event.stopped), act)
      ensures calls == Called(old(Contents(event.name))[..visited])
      ensures Contents(event.name) == Lasting(old(Contents(event.name))[..visited]) + old(Contents(event.name))[visited..]
      ensures event.canceled == (old(event.canceled) || PreventedBy(calls, act))
    {
      hide Linked, NoDuplicates, EntriesOf, IsList, AllLists, Called, Lasting, StoppedAfter, PreventedBy, MidWay, Visits;
      hide Heads;
      ghost var ns, es, before := Nodes(event.name), Contents(event.name), event.Now();
      ghost var kept;
      calls, visited, kept := Walk(event, act);
      EntriesJoin(kept, ns[visited..]);
      EntriesCut(ns, visited);
      MidWayEnd(es, visited, calls, before, event.Now(), act);
    }

    /** One turn of the dispatch loop, at place `k` of the list as it was. */
    method Visit(event: Event, act: nat -> Action, prev: ListenerNode?, node: ListenerNode, calls: seq<Entry>,
                 ghost kept: seq<ListenerNode>, ghost ns: seq<ListenerNode>, ghost k: nat, ghost before: Flags)
      returns (newPrev: ListenerNode?, next: ListenerNode?, newCalls: seq<Entry>, ghost newKept: seq<ListenerNode>)
      requires Valid() && k < |ns| && node == ns[k] && Nodes(event.name) == kept + From(ns, k)
      requires prev == NextIn(kept, |kept| - 1) && EntriesOf(kept) == Lasting(EntriesOf(ns)[..k])
      requires MidWay(EntriesOf(ns), k, calls, before, event.Now(), act) && (k > 0 ==> !event.stopped)
      modifies this, repr, event
      ensures Valid() && repr == old(repr)
      ensures forall other :: other != event.name ==> Nodes(other) == old(Nodes(other))
      ensures Nodes(event.name) == newKept + From(ns, k + 1) && next == NextIn(ns, k + 1)
      ensures newPrev == NextIn(newKept, |newKept| - 1) && EntriesOf(newKept) == Lasting(EntriesOf(ns)[..k + 1])
      ensures MidWay(EntriesOf(ns), k + 1, newCalls, before, event.Now(), act)
    {
      hide EntriesOf, AllLists, Lasting, MidWay, Heads, From;
      EntriesJoin(kept, [node]);
      LastingSnoc(EntriesOf(ns), k);
      FromStep(ns, k);
      newPrev, next, newKept := Pass(event.name, prev, node, kept, From(ns, k));
      newCalls := event.Reach(node.entry, calls, act, EntriesOf(ns), k, before);
    }

    /** The loop of `dispatchEvent`. */
    method Walk(event: Event, act: nat -> Action)
      returns (calls: seq<Entry>, ghost visited: nat, ghost kept: seq<ListenerNode>)
      requires Valid()
      modifies this, repr, event
      ensures Valid() && repr == old(repr)
      ensures forall other :: other != event.name ==> Nodes(other) == old(Nodes(other))
      ensures MidWay(old(Contents(event.name)), visited, calls, old(event.Now()), event.Now(), act)
      ensures visited <= |old(Nodes(event.name))|
      ensures visited < |old(Nodes(event.name))| ==> visited > 0 && event.stopped
      ensures Nodes(event.name) == kept + From(old(Nodes(event.name)), visited)
      ensures EntriesOf(kept) == Lasting(old(Contents(event.name))[..visited])
    {
      hide Linked, NoDuplicates, EntriesOf, IsList, AllLists, Called, Lasting, StoppedAfter, PreventedBy, MidWay, Visits;
      hide Heads, From;
      var name := event.name;
      ghost var ns, es, before := Nodes(name), Contents(name), event.Now();
      calls, visited, kept := [], 0, [];
      MidWayStart(es, before, act);
      Unvisited(es, before.stopped, act);
      EntriesJoin(kept, ns);
      FromStart(ns);
      HeadOf(listeners, lists, name);
      if name !in listeners {
        return;
      }
      var prev: ListenerNode?, node: ListenerNode? := null, listeners[name];
      while node != null
        invariant Valid() && repr == old(repr) && visited <= |ns| && node == NextIn(ns, visited)
        invariant Nodes(name) == kept + From(ns, visited) && prev == NextIn(kept, |kept| - 1)
        invariant forall other :: other != name ==> Nodes(other) == old(Nodes(other))
        invariant MidWay(es, visited, calls, before, event.Now(), act) && (visited > 0 ==> !event.stopped)
        invariant EntriesOf(kept) == Lasting(es[..visited])
        decreases |ns| - visited
      {
        var next;
        prev, next, calls, kept := Visit(event, act, prev, node, calls, kept, ns, visited, before);
        visited := visited + 1;
        if event.stopped {
          break;
        }
        node := next;
      }
    }
  }

  ghost function From(ns: seq<ListenerNode>, k: nat): seq<ListenerNode>
    requires k <= |ns|
  {
    ns[k..]
  }

  lemma FromStep(ns: seq<ListenerNode>, k: nat)
    requires k < |ns|
    ensures From(ns, k) != [] && From(ns, k)[0] == ns[k] && From(ns, k)[1..] == From(ns, k + 1)
    ensures NextIn(From(ns, k), 1) == NextIn(ns, k + 1)
  {
  }

  lemma FromStart(ns: seq<ListenerNode>)
    ensures [] + From(ns, 0) == ns
  {
  }

  lemma EntriesJoin(ns: seq<ListenerNode>, ms: seq<ListenerNode>)
    ensures EntriesOf(ns + ms) == EntriesOf(ns) + EntriesOf(ms)
    ensures ns == [] ==> EntriesOf(ns) == []
    ensures |ms| == 1 ==> EntriesOf(ms) == [ms[0].entry]
  {
  }

  lemma EntriesCut(ns: seq<ListenerNode>, k: nat)
    requires k <= |ns|
    ensures EntriesOf(ns[k..]) == EntriesOf(ns)[k..]
  {
  }

  /** The event's flags. */
  class Event {
    const name: string
    var canceled: bool
    var stopped: bool

    constructor (name: string)
      ensures this.name == name && !canceled && !stopped
    {
      this.name, canceled, stopped := name, false, false;
    }

    function Now(): Flags
      reads this
    {
      Flags(canceled, stopped)
    }

    /** The event comes to a listener. */
    method Reach(e: Entry, calls: seq<Entry>, act: nat -> Action, ghost es: seq<Entry>, ghost k: nat,
                 ghost before: Flags)
      returns (newCalls: seq<Entry>)
      requires k < |es| && es[k] == e && MidWay(es, k, calls, before, Now(), act) && (k > 0 ==> !stopped)
      modifies this
      ensures MidWay(es, k + 1, newCalls, before, Now(), act)
    {
      hide MidWay;
      MidWayStep(es, k, calls, before, Now(), act);
      newCalls := calls;
      if e.listener.Function? {
        Suffer(act(|calls|), e.passive);
        newCalls := calls + [e];
      }
    }

    /** `stopImmediatePropagation` and `preventDefault`, which a passive listener cannot use. */
    method Suffer(action: Action, passive: bool)
      modifies this
      ensures Now() == old(Now()).After(action, passive)
    {
      stopped := stopped || action.stop;
      if !passive {
        canceled := canceled || action.prevent;
      }
    }
  }

  lemma FoundAt(ns: seq<ListenerNode>, listener: Value, listenerType: ListenerType, i: nat)
    requires i <= |ns|
    requires forall k :: 0 <= k < i ==> !Same(ns[k].entry, listener, listenerType)
    requires i < |ns| ==> Same(ns[i].entry, listener, listenerType)
    ensures Removed(EntriesOf(ns), listener, listenerType) == if i < |ns| then EntriesOf(Without(ns, i)) else EntriesOf(ns)
  {
    hide Same, Removed;
    if i < |ns| {
      RemovedFirst(EntriesOf(ns), i, listener, listenerType);
      assert EntriesOf(Without(ns, i)) == EntriesOf(ns)[..i] + EntriesOf(ns)[i + 1..];
    } else {
      LookedThrough(ns, listener, listenerType);
      RemovedNone(EntriesOf(ns), listener, listenerType);
    }
  }

  lemma AddedIs(es: seq<Entry>, e: Entry)
    ensures Added(es, e) == if Has(es, e.listener, e.listenerType) then es else es + [e]
  {
  }

  lemma ListPutFirst(lists: map<string, seq<ListenerNode>>, repr: set<ListenerNode>, name: string, n: ListenerNode)
    requires AllLists(lists, repr) && n.next == null && n.owner == name
    ensures AllLists(lists[name := [n]], repr + {n})
  {
    hide AllLists, IsList;
    MoreNodes(lists, repr, n);
    ListDropped(lists, repr + {n}, name);
    Singleton(n, name);
    ListPut(lists, repr + {n}, name, [n]);
  }

  lemma Follow(ns: seq<ListenerNode>, i: nat)
    requires Linked(ns) && i < |ns|
    ensures ns[i].next == NextIn(ns, i + 1)
  {
  }
}
