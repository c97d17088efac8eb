/** The promise polyfill as a machine of atomic calls: its functions `o`, `r`, `i`, `f` and `u` on a store of promises. */
module PromiseMachine {
  import opened Common

  /** `_state` 0, 1, 2 and 3 with `_value`. */
  datatype Status = Pending | Fulfilled(value: int) | Rejected(reason: int) | Adopted(to: nat)

  /** One `then` call: the promise it was made on, which callbacks are functions, and the promise it returned. */
  datatype Deferred = Deferred(on: nat, onFulfilled: bool, onRejected: bool, promise: nat)

  /** `deferreds` is `None` once the field is null. */
  datatype Promise = Promise(status: Status, handled: bool, deferreds: Option<seq<Deferred>>)

  /** The pair of functions that `u` hands out, with their shared flag. */
  datatype Resolver = Resolver(target: nat, done: bool)

  datatype Job = Handle(settled: nat, d: Deferred) | CheckUnhandled(p: nat)

  /** What a promise is resolved with: a plain value, a promise of the polyfill, another object with a `then`
      function, or an object whose `then` property throws. */
  datatype Resolution = Datum(v: int) | PromiseRef(n: nat) | Thenable | ThenThrows(error: int)

  /** Who will settle a promise: the resolver with that index, the deferred at a place in the list of a promise,
      the job with that index, or no one any more. */
  datatype Place = Owned(resolver: nat) | Listed(at: nat, index: nat) | Queued(job: nat) | Finished

  /** `scheduled` holds every job ever handed to `_immediateFn`; those from `started` on are still waiting.
      `running` holds the jobs whose callback has not returned yet. The last four fields record history:
      all `then` calls in order, each promise's place, and the end and length of its adoption chain. */
  datatype State = State(
    promises: seq<Promise>, resolvers: seq<Resolver>, scheduled: seq<Job>, started: nat, running: set<nat>,
    registered: seq<Deferred>, place: seq<Place>, root: seq<nat>, depth: seq<nat>)

  const INIT := State([], [], [], 0, {}, [], [], [], [])

  const SELF_RESOLUTION := -1

  // ---- adoption chains ----

  predicate IsPending(s: State, p: nat) {
    p < |s.promises| && s.promises[p].status.Pending?
  }

  predicate Sized(s: State) {
    |s.root| == |s.depth| == |s.place| == |s.promises|
    && forall p :: 0 <= p < |s.promises| ==> s.root[p] < |s.promises|
  }

  /** The recorded end and length of the chain of `p` fit its status. */
  ghost predicate ChainAt(s: State, p: nat)
    requires Sized(s) && p < |s.promises|
  {
    !s.promises[s.root[p]].status.Adopted?
    && match s.promises[p].status
       case Adopted(q) => q < |s.promises| && s.root[p] == s.root[q] && s.depth[p] == s.depth[q] + 1
       case _ => s.root[p] == p && s.depth[p] == 0
  }

  ghost predicate Chains(s: State)
    requires Sized(s)
  {
    forall p :: 0 <= p < |s.promises| ==> ChainAt(s, p)
  }

  /** Following adoptions from `e` to the promise at the end of the chain. */
  function Chase(s: State, e: nat): (r: nat)
    requires Sized(s) && Chains(s) && e < |s.promises|
    ensures r == s.root[e]
    decreases s.depth[e]
  {
    assert ChainAt(s, e);
    match s.promises[e].status
    case Adopted(q) => Chase(s, q)
    case _ => e
  }

  // ---- the polyfill's functions ----

  ghost predicate Lists(s: State) {
    forall p :: 0 <= p < |s.promises| && s.promises[p].status.Pending? ==> s.promises[p].deferreds.Some?
  }

  /** What every call relies on: sound chains, and a list in every pending promise. */
  ghost predicate Store(s: State) {
    Sized(s) && Chains(s) && Lists(s)
  }

  lemma StoreKept(s: State, s1: State)
    requires Store(s) && s1.root == s.root && s1.depth == s.depth && |s1.place| == |s.place|
    requires |s1.promises| == |s.promises|
    requires forall p :: 0 <= p < |s.promises| ==> s1.promises[p].status == s.promises[p].status
    requires forall p :: 0 <= p < |s.promises| && s1.promises[p].status.Pending? ==> s1.promises[p].deferreds.Some?
    ensures Store(s1)
  {
    forall p | 0 <= p < |s.promises| ensures ChainAt(s1, p) {
      assert ChainAt(s, p);
    }
  }

  /** `o` from the end of the chain on: the deferred waits in the list, or is queued as a job. */
  function HandleAt(s: State, r: nat, d: Deferred): (s1: State)
    requires Store(s) && r < |s.promises| && d.promise < |s.promises|
    ensures Store(s1)
  {
    var e := s.promises[r];
    var s1 :=
      if e.status.Pending? then
        s.(promises := s.promises[r := e.(deferreds := Some(e.deferreds.value + [d]))],
           place := s.place[d.promise := Listed(r, |e.deferreds.value|)])
      else
        s.(promises := s.promises[r := e.(handled := true)],
           scheduled := s.scheduled + [Handle(r, d)],
           place := s.place[d.promise := Queued(|s.scheduled|)]);
    StoreKept(s, s1);
    s1
  }

  /** `o` */
  function HandleOn(s: State, e: nat, d: Deferred): (s1: State)
    requires Store(s) && e < |s.promises| && d.promise < |s.promises|
    ensures Store(s1) && |s1.promises| == |s.promises|
  {
    HandleAt(s, Chase(s, e), d)
  }

  ghost predicate Known(s: State, ds: seq<Deferred>) {
    forall k :: 0 <= k < |ds| ==> ds[k].promise < |s.promises|
  }

  /** The loop of `f` over the deferreds. */
  function HandleAll(s: State, e: nat, ds: seq<Deferred>): (s1: State)
    requires Store(s) && e < |s.promises| && Known(s, ds)
    ensures Store(s1) && |s1.promises| == |s.promises|
    decreases |ds|
  {
    if ds == [] then s else HandleAll(HandleOn(s, e, ds[0]), e, ds[1..])
  }

  function QueueAll(r: nat, ds: seq<Deferred>): seq<Job> {
    if ds == [] then [] else [Handle(r, ds[0])] + QueueAll(r, ds[1..])
  }

  /** From `s` to `s1` the deferreds `ds` were appended at `r`: to the waiting ones if that promise is pending,
      to the jobs if it is settled. Nothing else changed but `handled` at `r` and the recorded places. */
  ghost predicate Appended(s: State, r: nat, ds: seq<Deferred>, s1: State)
    requires Lists(s) && r < |s.promises|
  {
    s1 == s.(promises := s1.promises, scheduled := s1.scheduled, place := s1.place)
    && |s1.promises| == |s.promises| && |s1.place| == |s.place|
    && (forall p :: 0 <= p < |s.promises| && p != r ==> s1.promises[p] == s.promises[p])
    && s1.promises[r].status == s.promises[r].status
    && if IsPending(s, r)
       then s1.promises[r].deferreds == Some(s.promises[r].deferreds.value + ds) && s1.scheduled == s.scheduled
       else s1.promises[r].deferreds == s.promises[r].deferreds && s1.scheduled == s.scheduled + QueueAll(r, ds)
  }

  lemma AppendedOne(s: State, r: nat, d: Deferred)
    requires Store(s) && r < |s.promises| && d.promise < |s.promises|
    ensures Appended(s, r, [d], HandleAt(s, r, d))
  {
    assert QueueAll(r, [d]) == [Handle(r, d)] + QueueAll(r, []);
  }

  lemma AppendedNone(s: State, r: nat)
    requires Lists(s) && r < |s.promises|
    ensures Appended(s, r, [], s)
  {
    assert s.scheduled + [] == s.scheduled;
    if IsPending(s, r) {
      assert s.promises[r].deferreds.value + [] == s.promises[r].deferreds.value;
    }
  }

  lemma AppendedMore(s: State, r: nat, ds: seq<Deferred>, s1: State, es: seq<Deferred>, s2: State)
    requires Lists(s) && r < |s.promises| && Appended(s, r, ds, s1) && Lists(s1) && Appended(s1, r, es, s2)
    ensures Appended(s, r, ds + es, s2)
  {
    QueueAllConcat(r, ds, es);
    assert s.scheduled + QueueAll(r, ds) + QueueAll(r, es) == s.scheduled + (QueueAll(r, ds) + QueueAll(r, es));
    if IsPending(s, r) {
      var list := s.promises[r].deferreds.value;
      assert list + ds + es == list + (ds + es);
    }
  }

  lemma {:induction false} QueueAllConcat(r: nat, ds: seq<Deferred>, es: seq<Deferred>)
    ensures QueueAll(r, ds + es) == QueueAll(r, ds) + QueueAll(r, es)
  {
    if ds == [] {
      assert ds + es == es;
    } else {
      assert (ds + es)[1..] == ds[1..] + es;
      QueueAllConcat(r, ds[1..], es);
    }
  }

  /** The loop of `f` appends the whole list, in order, where the chain of `e` ends. */
  lemma {:induction false} HandleAllIs(s: State, e: nat, ds: seq<Deferred>)
    requires Store(s) && e < |s.promises| && Known(s, ds)
    ensures Appended(s, s.root[e], ds, HandleAll(s, e, ds))
    decreases |ds|
  {
    hide Appended, QueueAll, HandleAt, Chase, Chains, Lists;
    var r := s.root[e];
    if ds == [] {
      AppendedNone(s, r);
    } else {
      var s1 := HandleOn(s, e, ds[0]);
      AppendedOne(s, r, ds[0]);
      SameChains(s, r, [ds[0]], s1);
      HandleAllIs(s1, e, ds[1..]);
      AppendedMore(s, r, [ds[0]], s1, ds[1..], HandleAll(s, e, ds));
      assert [ds[0]] + ds[1..] == ds;
    }
  }

  lemma SameChains(s: State, r: nat, ds: seq<Deferred>, s1: State)
    requires Lists(s) && r < |s.promises| && Appended(s, r, ds, s1)
    ensures s1.root == s.root && s1.depth == s.depth && s1.registered == s.registered && s1.resolvers == s.resolvers
    ensures s1.started == s.started && s1.running == s.running
  {
  }

  /** The start of `f`: a rejection that no one waits for is to be checked later. */
  function Announce(s: State, e: nat, ds: seq<Deferred>): State
    requires e < |s.promises|
  {
    if s.promises[e].status.Rejected? && ds == [] then s.(scheduled := s.scheduled + [CheckUnhandled(e)]) else s
  }

  /** The end of `f`: the list is dropped. */
  function Discard(s: State, e: nat): State
    requires e < |s.promises|
  {
    s.(promises := s.promises[e := s.promises[e].(deferreds := None)])
  }

  /** `f` for a promise that has just left the pending state. */
  function Finale(s: State, e: nat, ds: seq<Deferred>): (s1: State)
    requires Store(s) && e < |s.promises| && !IsPending(s, e) && Known(s, ds)
    ensures Store(s1) && |s1.promises| == |s.promises|
  {
    hide Chase, HandleAll, Chains;
    StoreKept(s, Announce(s, e, ds));
    var s1 := HandleAll(Announce(s, e, ds), e, ds);
    HandleAllIs(Announce(s, e, ds), e, ds);
    StoreKept(s1, Discard(s1, e));
    Discard(s1, e)
  }

  // ---- leaving the pending state ----

  /** The promise `e`, pending until now, gets its final status or its adopted promise. */
  function Left(s: State, e: nat, status: Status): State
    requires Sized(s) && e < |s.promises|
  {
    var s1 := s.(promises := s.promises[e := s.promises[e].(status := status)], place := s.place[e := Finished]);
    match status
    case Adopted(n) => if n < |s.promises| then Redirect(s1, s, e, n) else s1
    case _ => s1
  }

  /** The chains that ended at `e` now end where the one from `n` ends. */
  function Redirect(s1: State, s: State, e: nat, n: nat): State
    requires Sized(s) && n < |s.promises|
  {
    s1.(root := seq(|s.root|, p requires 0 <= p < |s.root| => if s.root[p] == e then s.root[n] else s.root[p]),
        depth := seq(|s.depth|, p requires 0 <= p < |s.depth| =>
                   if s.root[p] == e then s.depth[p] + s.depth[n] + 1 else s.depth[p]))
  }

  lemma LeftStore(s: State, e: nat, status: Status)
    requires Store(s) && IsPending(s, e) && !status.Pending?
    requires status.Adopted? ==> status.to < |s.promises| && s.root[status.to] != e
    ensures Store(Left(s, e, status))
  {
    var s1 := Left(s, e, status);
    forall p | 0 <= p < |s.promises| ensures ChainAt(s1, p) {
      LeftChainAt(s, e, status, p);
    }
  }

  lemma LeftChainAt(s: State, e: nat, status: Status, p: nat)
    requires Store(s) && IsPending(s, e) && !status.Pending? && p < |s.promises|
    requires status.Adopted? ==> status.to < |s.promises| && s.root[status.to] != e
    ensures Sized(Left(s, e, status)) && ChainAt(Left(s, e, status), p)
  {
    assert ChainAt(s, p) && ChainAt(s, s.root[p]);
    if p != e && s.promises[p].status.Adopted? {
      assert ChainAt(s, s.promises[p].status.to);
    }
    if status.Adopted? {
      assert ChainAt(s, status.to) && ChainAt(s, s.root[status.to]);
    }
  }

  /** With the chain pointers of `s`, some ends and lengths of chains fit them. */
  ghost predicate Grounded(s: State) {
    exists root: seq<nat>, depth: seq<nat> ::
      var t := s.(root := root, depth := depth); Sized(t) && Chains(t)
  }

  /** Along the chain to `e` every other recording of lengths decreases too. */
  lemma {:induction false} ChainLengths(s: State, e: nat, t: State, p: nat)
    requires Store(s) && Sized(t) && Chains(t) && p < |s.promises| == |t.promises| && e < |s.promises|
    requires forall q :: 0 <= q < |s.promises| && q != e ==> t.promises[q].status == s.promises[q].status
    requires s.root[p] == e
    ensures t.depth[e] <= t.depth[p]
    decreases s.depth[p]
  {
    assert ChainAt(s, p) && ChainAt(t, p);
    if p != e {
      ChainLengths(s, e, t, s.promises[p].status.to);
    }
  }

  /** A pending promise may adopt another one exactly when that one's chain does not lead back to it:
      otherwise the chain pointers close a cycle and `o` never finds its end. */
  lemma AdoptionStaysGrounded(s: State, e: nat, n: nat)
    requires Store(s) && IsPending(s, e) && n < |s.promises|
    ensures Grounded(Left(s, e, Adopted(n))) <==> s.root[n] != e
  {
    var s1 := Left(s, e, Adopted(n));
    if s.root[n] != e {
      LeftStore(s, e, Adopted(n));
      assert s1 == s1.(root := s1.root, depth := s1.depth);
    } else if Grounded(s1) {
      var root: seq<nat>, depth: seq<nat> :| var t := s1.(root := root, depth := depth); Sized(t) && Chains(t);
      var t := s1.(root := root, depth := depth);
      assert ChainAt(t, e);
      ChainLengths(s, e, t, n);
      assert false;
    }
  }

  // ---- who may settle a promise ----

  /** The job is still to settle the promise of its deferred. */
  predicate Live(s: State, j: nat) {
    j < |s.scheduled| && s.scheduled[j].Handle? && (s.started <= j || j in s.running)
  }

  /** Every right to settle a promise is the one that the promise's place records. There is therefore at most one,
      and a settled promise has none left. */
  ghost predicate Tokens(s: State) {
    Sized(s) && s.started <= |s.scheduled|
    && (forall p :: 0 <= p < |s.promises| ==> (IsPending(s, p) <==> s.place[p] != Finished))
    && (forall i :: 0 <= i < |s.resolvers| ==> s.resolvers[i].target < |s.promises|)
    && (forall i :: 0 <= i < |s.resolvers| && !s.resolvers[i].done ==> s.place[s.resolvers[i].target] == Owned(i))
    && (forall j :: 0 <= j < |s.scheduled| && s.scheduled[j].Handle? ==> s.scheduled[j].d.promise < |s.promises|)
    && (forall j: nat :: Live(s, j) ==> s.place[s.scheduled[j].d.promise] == Queued(j))
    && (forall j :: j in s.running ==> j < s.started && s.scheduled[j].Handle?)
    && (forall q: nat, k: nat :: Waiting(s, q, k) ==> ListedAt(s, q, k))
  }

  /** A pending promise has a `k`-th waiting deferred. */
  predicate Waiting(s: State, q: nat, k: nat) {
    IsPending(s, q) && s.promises[q].deferreds.Some? && k < |s.promises[q].deferreds.value|
  }

  ghost predicate ListedAt(s: State, q: nat, k: nat)
    requires Sized(s) && q < |s.promises| && s.promises[q].deferreds.Some? && k < |s.promises[q].deferreds.value|
  {
    var d := s.promises[q].deferreds.value[k];
    d.promise < |s.promises| && s.place[d.promise] == Listed(q, k)
  }

  /** No right to settle stands behind this place. */
  predicate Free(s: State, place: Place) {
    match place
    case Owned(i) => i < |s.resolvers| ==> s.resolvers[i].done
    case Listed(q, k) => !IsPending(s, q)
    case Queued(j) => j < |s.scheduled| && !Live(s, j)
    case Finished => true
  }

  /** Handing over a deferred that no one else settles gives its promise one new place. */
  lemma HandleAtTokens(s: State, r: nat, d: Deferred)
    requires Store(s) && Tokens(s) && r < |s.promises| && d.promise < |s.promises|
    requires IsPending(s, d.promise) && Free(s, s.place[d.promise])
    ensures Tokens(HandleAt(s, r, d))
  {
    var s1 := HandleAt(s, r, d);
    forall q: nat, k: nat | Waiting(s1, q, k) ensures ListedAt(s1, q, k) {
      if q != r || k < |s.promises[q].deferreds.value| {
        assert Waiting(s, q, k);
      }
    }
  }

  lemma LeftTokens(s: State, e: nat, status: Status)
    requires Store(s) && Tokens(s) && IsPending(s, e) && Free(s, s.place[e]) && !status.Pending?
    requires status.Adopted? ==> status.to < |s.promises|
    ensures Tokens(Left(s, e, status))
  {
    var s1 := Left(s, e, status);
    forall q: nat, k: nat | Waiting(s1, q, k) ensures ListedAt(s1, q, k) {
      assert Waiting(s, q, k);
    }
  }

  /** The deferreds of a promise that has just left the pending state, still to be handed over. */
  ghost predicate InHand(s: State, e: nat, ds: seq<Deferred>, base: nat)
    requires Sized(s)
  {
    !IsPending(s, e)
    && forall k :: 0 <= k < |ds| ==>
         IsPending(s, ds[k].promise) && s.place[ds[k].promise] == Listed(e, base + k)
  }

  lemma {:induction false} HandleAllTokens(s: State, e: nat, ds: seq<Deferred>, base: nat)
    requires Store(s) && Tokens(s) && e < |s.promises| && InHand(s, e, ds, base) && Known(s, ds)
    ensures Tokens(HandleAll(s, e, ds))
    decreases |ds|
  {
    hide Tokens, Chains, Lists, Chase;
    if ds != [] {
      HandleAtTokens(s, s.root[e], ds[0]);
      HandleAllTokens(HandleOn(s, e, ds[0]), e, ds[1..], base + 1);
    }
  }

  lemma AnnounceTokens(s: State, e: nat, ds: seq<Deferred>)
    requires Tokens(s) && e < |s.promises|
    ensures Tokens(Announce(s, e, ds))
  {
    var s1 := Announce(s, e, ds);
    forall j: nat | Live(s1, j) ensures s1.place[s1.scheduled[j].d.promise] == Queued(j) {
      assert Live(s, j);
    }
    forall q: nat, k: nat | Waiting(s1, q, k) ensures ListedAt(s1, q, k) {
      assert Waiting(s, q, k);
    }
  }

  lemma DiscardTokens(s: State, e: nat)
    requires Tokens(s) && e < |s.promises| && !IsPending(s, e)
    ensures Tokens(Discard(s, e))
  {
    var s1 := Discard(s, e);
    forall j: nat | Live(s1, j) ensures s1.place[s1.scheduled[j].d.promise] == Queued(j) {
      assert Live(s, j);
    }
    forall q: nat, k: nat | Waiting(s1, q, k) ensures ListedAt(s1, q, k) {
      assert Waiting(s, q, k);
    }
  }

  lemma FinaleTokens(s: State, e: nat, ds: seq<Deferred>)
    requires Store(s) && Tokens(s) && e < |s.promises| && InHand(s, e, ds, 0) && Known(s, ds)
    ensures Tokens(Finale(s, e, ds))
  {
    hide Tokens, Chains, Chase, HandleAll;
    var s1 := Announce(s, e, ds);
    AnnounceTokens(s, e, ds);
    StoreKept(s, s1);
    HandleAllTokens(s1, e, ds, 0);
    HandleAllIs(s1, e, ds);
    DiscardTokens(HandleAll(s1, e, ds), e);
  }

  // ---- registration order ----

  /** The deferreds of the `then` calls on `p`. */
  function On(ds: seq<Deferred>, p: nat): seq<Deferred> {
    if ds == [] then [] else (if ds[0].on == p then [ds[0]] else []) + On(ds[1..], p)
  }

  function Handles(jobs: seq<Job>): seq<Deferred> {
    if jobs == [] then [] else (if jobs[0].Handle? then [jobs[0].d] else []) + Handles(jobs[1..])
  }

  lemma OnCons(ds: seq<Deferred>, p: nat)
    requires ds != []
    ensures On(ds, p) == (if ds[0].on == p then [ds[0]] else []) + On(ds[1..], p)
  {
  }

  lemma {:induction false} OnConcat(a: seq<Deferred>, b: seq<Deferred>, p: nat)
    ensures On(a + b, p) == On(a, p) + On(b, p)
  {
    if a == [] {
      assert a + b == b;
    } else {
      hide On;
      var head := if a[0].on == p then [a[0]] else [];
      OnCons(a, p);
      OnCons(a + b, p);
      assert (a + b)[0] == a[0] && (a + b)[1..] == a[1..] + b;
      OnConcat(a[1..], b, p);
      assert head + (On(a[1..], p) + On(b, p)) == (head + On(a[1..], p)) + On(b, p);
    }
  }

  lemma {:induction false} OnNone(ds: seq<Deferred>, p: nat)
    requires forall k :: 0 <= k < |ds| ==> ds[k].on != p
    ensures On(ds, p) == []
  {
    if ds != [] {
      OnNone(ds[1..], p);
    }
  }

  lemma {:induction false} HandlesConcat(a: seq<Job>, b: seq<Job>)
    ensures Handles(a + b) == Handles(a) + Handles(b)
  {
    if a == [] {
      assert a + b == b;
    } else {
      assert (a + b)[0] == a[0] && (a + b)[1..] == a[1..] + b;
      HandlesConcat(a[1..], b);
      var h: seq<Deferred> := if a[0].Handle? then [a[0].d] else [];
      assert h + (Handles(a[1..]) + Handles(b)) == h + Handles(a[1..]) + Handles(b);
    }
  }

  lemma {:induction false} HandlesQueueAll(r: nat, ds: seq<Deferred>)
    ensures Handles(QueueAll(r, ds)) == ds
  {
    if ds != [] {
      HandlesQueueAll(r, ds[1..]);
      assert QueueAll(r, ds)[1..] == QueueAll(r, ds[1..]);
    }
  }

  function List(s: State, q: nat): seq<Deferred>
    requires IsPending(s, q) && Lists(s)
  {
    s.promises[q].deferreds.value
  }

  /** The `then` calls were made on known promises, and each returned a promise newer than those before. */
  ghost predicate Numbered(ds: seq<Deferred>, n: nat) {
    (forall k :: 0 <= k < |ds| ==> ds[k].on < n && ds[k].promise < n)
    && (forall i, k :: 0 <= i < k < |ds| ==> ds[i].promise < ds[k].promise)
  }

  /** Every waiting deferred waits where the chain of its own promise ends, and every job is for the settled
      promise at that end. */
  ghost predicate Recorded(s: State)
    requires Store(s)
  {
    Numbered(s.registered, |s.promises|)
    && (forall q: nat, k: nat :: Waiting(s, q, k) ==> AtEnd(s, List(s, q)[k], q))
    && (forall j :: 0 <= j < |s.scheduled| && s.scheduled[j].Handle? ==>
          AtEnd(s, s.scheduled[j].d, s.scheduled[j].settled) && !IsPending(s, s.scheduled[j].settled))
    && (forall j :: 0 <= j < |s.scheduled| && s.scheduled[j].CheckUnhandled? ==> RejectedAt(s, s.scheduled[j].p))
  }

  predicate RejectedAt(s: State, p: nat) {
    p < |s.promises| && s.promises[p].status.Rejected?
  }

  predicate AtEnd(s: State, d: Deferred, q: nat)
    requires Sized(s)
  {
    d.on < |s.promises| && s.root[d.on] == q
  }

  /** The `then` calls on `p`, in order, are exactly the ones waiting at the end of its chain while that promise
      is pending, and exactly the ones scheduled once it is settled. */
  ghost predicate OrderAt(s: State, p: nat)
    requires Store(s) && p < |s.promises|
  {
    if IsPending(s, s.root[p])
    then On(List(s, s.root[p]), p) == On(s.registered, p) && On(Handles(s.scheduled), p) == []
    else On(Handles(s.scheduled), p) == On(s.registered, p)
  }

  ghost predicate Ordered(s: State)
    requires Store(s)
  {
    forall p :: 0 <= p < |s.promises| ==> OrderAt(s, p)
  }

  ghost predicate Inv(s: State) {
    Store(s) && Tokens(s) && Recorded(s) && Ordered(s)
  }

  // ---- settling and adopting ----

  /** `r` and `i` once the outcome is known: the new status, then `f`. */
  function Settle(s: State, e: nat, status: Status): (s1: State)
    requires Store(s) && IsPending(s, e) && !status.Pending? && Known(s, List(s, e))
    requires status.Adopted? ==> status.to < |s.promises| && s.root[status.to] != e
    ensures Store(s1)
  {
    LeftStore(s, e, status);
    Finale(Left(s, e, status), e, List(s, e))
  }

  /** The outcome of settling `e`: statuses, chain ends, the waiting lists and the jobs. */
  ghost predicate SettledAs(s: State, e: nat, status: Status, s1: State)
    requires Store(s) && IsPending(s, e) && Store(s1)
  {
    var ds, r := List(s, e), if status.Adopted? && status.to < |s.promises| then s.root[status.to] else e;
    |s1.promises| == |s.promises| && s1.registered == s.registered && s1.resolvers == s.resolvers
    && s1.started == s.started && s1.running == s.running && r < |s.promises|
    && (forall p :: 0 <= p < |s.promises| ==>
          s1.promises[p].status == (if p == e then status else s.promises[p].status)
          && s1.root[p] == (if s.root[p] == e then r else s.root[p]))
    && (forall q: nat :: IsPending(s1, q) ==> List(s1, q) == List(s, q) + (if q == r then ds else []))
    && s1.scheduled == s.scheduled + Checks(e, status, ds) + (if IsPending(s1, r) then [] else QueueAll(r, ds))
  }

  function Checks(e: nat, status: Status, ds: seq<Deferred>): seq<Job> {
    if status.Rejected? && ds == [] then [CheckUnhandled(e)] else []
  }

  lemma OwnEnd(s: State, p: nat)
    requires Store(s) && p < |s.promises| && !s.promises[p].status.Adopted?
    ensures s.root[p] == p
  {
    assert ChainAt(s, p);
  }

  lemma SettleIs(s: State, e: nat, status: Status)
    requires Store(s) && IsPending(s, e) && !status.Pending? && Known(s, List(s, e))
    requires status.Adopted? ==> status.to < |s.promises| && s.root[status.to] != e
    ensures SettledAs(s, e, status, Settle(s, e, status))
  {
    var ds := List(s, e);
    LeftStore(s, e, status);
    var s1 := Left(s, e, status);
    var s2 := Announce(s1, e, ds);
    StoreKept(s1, s2);
    HandleAllIs(s2, e, ds);
    hide Chains, Chase, HandleAll, QueueAll, Appended, SettledAs;
    assert Discard(HandleAll(s2, e, ds), e) == Settle(s, e, status);
    SettledSteps(s, e, status, s2, HandleAll(s2, e, ds));
  }

  lemma SettledSteps(s: State, e: nat, status: Status, s2: State, s3: State)
    requires Store(s) && IsPending(s, e) && !status.Pending?
    requires status.Adopted? ==> status.to < |s.promises| && s.root[status.to] != e
    requires s2 == Announce(Left(s, e, status), e, List(s, e)) && Store(s2) && e < |s2.promises|
    requires Appended(s2, s2.root[e], List(s, e), s3) && e < |s3.promises| && Store(Discard(s3, e))
    ensures SettledAs(s, e, status, Discard(s3, e))
  {
    hide Chains, QueueAll;
    OwnEnd(s, e);
    var ds, s4 := List(s, e), Discard(s3, e);
    assert s2.scheduled == s.scheduled + Checks(e, status, ds);
    forall q: nat | IsPending(s4, q)
      ensures List(s4, q) == List(s, q) + (if q == s2.root[e] then ds else [])
    {
    }
  }

  lemma SettleRecorded(s: State, e: nat, status: Status, s1: State)
    requires Store(s) && Recorded(s) && IsPending(s, e) && !status.Pending? && Store(s1) && SettledAs(s, e, status, s1)
    requires status.Adopted? ==> status.to < |s.promises| && s.root[status.to] != e
    ensures Recorded(s1)
  {
    hide Chains, QueueAll;
    var ds, r := List(s, e), if status.Adopted? then s.root[status.to] else e;
    forall q: nat, k: nat | Waiting(s1, q, k) ensures AtEnd(s1, List(s1, q)[k], q) {
      if k < |List(s, q)| {
        assert Waiting(s, q, k) && AtEnd(s, List(s, q)[k], q);
      } else {
        assert Waiting(s, e, k - |List(s, q)|) && AtEnd(s, ds[k - |List(s, q)|], e);
      }
    }
    QueueAllAt(r, ds);
    var jobs := Checks(e, status, ds) + (if IsPending(s1, r) then [] else QueueAll(r, ds));
    assert s1.scheduled == s.scheduled + jobs;
    forall j | 0 <= j < |s1.scheduled| && s1.scheduled[j].Handle?
      ensures AtEnd(s1, s1.scheduled[j].d, s1.scheduled[j].settled) && !IsPending(s1, s1.scheduled[j].settled)
    {
      if j < |s.scheduled| {
        assert s1.scheduled[j] == s.scheduled[j];
        assert AtEnd(s, s.scheduled[j].d, s.scheduled[j].settled);
      } else {
        var i := j - |s.scheduled| - |Checks(e, status, ds)|;
        assert s1.scheduled[j] == jobs[j - |s.scheduled|] == QueueAll(r, ds)[i] == Handle(r, ds[i]);
        assert Waiting(s, e, i) && AtEnd(s, ds[i], e);
      }
    }
  }

  lemma {:induction false} QueueAllAt(r: nat, ds: seq<Deferred>)
    ensures |QueueAll(r, ds)| == |ds| && forall i :: 0 <= i < |ds| ==> QueueAll(r, ds)[i] == Handle(r, ds[i])
  {
    if ds != [] {
      QueueAllAt(r, ds[1..]);
    }
  }

  /** What settling `e` does to the order of the `then` calls of one promise. */
  lemma SettleOrderAt(s: State, e: nat, status: Status, s1: State, p: nat)
    requires Store(s) && Recorded(s) && IsPending(s, e) && !status.Pending? && Store(s1) && SettledAs(s, e, status, s1)
    requires status.Adopted? ==> status.to < |s.promises| && s.root[status.to] != e
    requires p < |s.promises| && OrderAt(s, p)
    ensures OrderAt(s1, p)
  {
    var ds, r, q := List(s, e), if status.Adopted? then s.root[status.to] else e, s.root[p];
    SettledEnds(s, e, status, s1, p, r);
    SettledHandles(s, e, status, s1, p, r);
    if q != e {
      ElsewhereOn(s, e, p);
    } else if IsPending(s1, r) {
      ElsewhereOn(s, r, p);
    }
    if IsPending(s1, s1.root[p]) {
      SettledList(s, e, status, s1, s1.root[p], p, r);
    }
    hide SettledAs, Store, Recorded, On, Handles, List;
  }

  lemma SettledEnds(s: State, e: nat, status: Status, s1: State, p: nat, r: nat)
    requires Store(s) && IsPending(s, e) && !status.Pending? && Store(s1) && SettledAs(s, e, status, s1)
    requires status.Adopted? ==> status.to < |s.promises| && s.root[status.to] != e
    requires p < |s.promises| && r == if status.Adopted? then s.root[status.to] else e
    ensures |s1.promises| == |s.promises| && s1.registered == s.registered
    ensures s1.root[p] == if s.root[p] == e then r else s.root[p]
    ensures forall q: nat :: IsPending(s1, q) <==> q != e && IsPending(s, q)
  {
    hide Chains, List;
  }

  lemma SettledHandles(s: State, e: nat, status: Status, s1: State, p: nat, r: nat)
    requires Store(s) && IsPending(s, e) && !status.Pending? && Store(s1) && SettledAs(s, e, status, s1)
    requires status.Adopted? ==> status.to < |s.promises| && s.root[status.to] != e
    requires r == if status.Adopted? then s.root[status.to] else e
    ensures On(Handles(s1.scheduled), p)
      == On(Handles(s.scheduled), p) + (if IsPending(s1, r) then [] else On(List(s, e), p))
  {
    var ds := List(s, e);
    var checks, jobs := Checks(e, status, ds), if IsPending(s1, r) then [] else QueueAll(r, ds);
    assert s1.scheduled == s.scheduled + checks + jobs by {
      hide Chains;
    }
    assert Handles(checks) == [];
    HandlesQueueAll(r, ds);
    hide *;
    HandlesConcat(s.scheduled + checks, jobs);
    HandlesConcat(s.scheduled, checks);
    assert Handles(s.scheduled) + [] == Handles(s.scheduled);
    OnConcat(Handles(s.scheduled), Handles(jobs), p);
    HandlesNone(p);
  }

  lemma HandlesNone(p: nat)
    ensures Handles([]) == [] && On([], p) == []
  {
  }

  lemma SettledList(s: State, e: nat, status: Status, s1: State, q: nat, p: nat, r: nat)
    requires Store(s) && IsPending(s, e) && Store(s1) && SettledAs(s, e, status, s1) && IsPending(s1, q)
    requires status.Adopted? ==> status.to < |s.promises|
    requires r == if status.Adopted? then s.root[status.to] else e
    ensures On(List(s1, q), p) == On(List(s, q), p) + (if q == r then On(List(s, e), p) else [])
  {
    assert List(s1, q) == List(s, q) + (if q == r then List(s, e) else []) by {
      hide Chains;
    }
    hide *;
    OnConcat(List(s, q), if q == r then List(s, e) else [], p);
    HandlesNone(p);
  }

  /** A list holds no deferred of a promise whose chain ends elsewhere. */
  lemma ElsewhereOn(s: State, q: nat, p: nat)
    requires Store(s) && Recorded(s) && IsPending(s, q) && p < |s.promises| && s.root[p] != q
    ensures On(List(s, q), p) == []
  {
    forall k | 0 <= k < |List(s, q)| ensures List(s, q)[k].on != p {
      assert Waiting(s, q, k) && AtEnd(s, List(s, q)[k], q);
    }
    OnNone(List(s, q), p);
  }

  lemma InListInHand(s: State, e: nat, status: Status)
    requires Store(s) && Tokens(s) && IsPending(s, e) && Free(s, s.place[e]) && !status.Pending?
    requires status.Adopted? ==> status.to < |s.promises| && s.root[status.to] != e
    ensures Known(s, List(s, e)) && InHand(Left(s, e, status), e, List(s, e), 0)
  {
    forall k | 0 <= k < |List(s, e)|
      ensures List(s, e)[k].promise < |s.promises| && s.place[List(s, e)[k].promise] == Listed(e, k)
    {
      assert Waiting(s, e, k) && ListedAt(s, e, k);
    }
  }

  /** Settling or adopting keeps the invariant, if nobody else has the right to settle that promise. */
  lemma SettleInv(s: State, e: nat, status: Status)
    requires Inv(s) && IsPending(s, e) && Free(s, s.place[e]) && !status.Pending?
    requires status.Adopted? ==> status.to < |s.promises| && s.root[status.to] != e
    ensures Known(s, List(s, e)) && Inv(Settle(s, e, status)) && SettledAs(s, e, status, Settle(s, e, status))
  {
    hide Chains, Tokens, Recorded, OrderAt, Finale, SettledAs;
    InListInHand(s, e, status);
    LeftStore(s, e, status);
    LeftTokens(s, e, status);
    FinaleTokens(Left(s, e, status), e, List(s, e));
    SettleIs(s, e, status);
    var s1 := Settle(s, e, status);
    SettleRecorded(s, e, status, s1);
    assert |s1.promises| == |s.promises|;
    forall p | 0 <= p < |s1.promises| ensures OrderAt(s1, p) {
      SettleOrderAt(s, e, status, s1, p);
    }
  }

  // ---- the calls ----

  /** What user code and the timer queue can do. `u` guards both functions of a resolver with one flag; a callback
      ends by returning or by throwing. */
  datatype Call =
    | New
    | Then(p: nat, onFulfilled: bool, onRejected: bool)
    | CallResolve(i: nat, v: Resolution)
    | CallReject(i: nat, reason: int)
    | RunNext
    | Returned(j: nat, v: Resolution)
    | Threw(j: nat, error: int)

  /** The resolution does not close a cycle of adoptions longer than one. */
  predicate Allowed(s: State, e: nat, v: Resolution)
    requires Sized(s)
  {
    v.PromiseRef? ==> v.n < |s.promises| && (v.n == e || s.root[v.n] != e)
  }

  predicate Enabled(s: State, c: Call)
    requires Sized(s)
  {
    match c
    case New => true
    case Then(p, _, _) => p < |s.promises|
    case CallResolve(i, v) => i < |s.resolvers| && Allowed(s, s.resolvers[i].target, v)
    case CallReject(i, _) => i < |s.resolvers|
    case RunNext => s.started < |s.scheduled|
    case Returned(j, v) =>
      j in s.running && j < |s.scheduled| && s.scheduled[j].Handle? && Allowed(s, s.scheduled[j].d.promise, v)
    case Threw(j, _) => j in s.running && j < |s.scheduled| && s.scheduled[j].Handle?
  }

  /** `new Promise`: a pending promise and the two functions that settle it. */
  function Create(s: State): State {
    var p := |s.promises|;
    s.(promises := s.promises + [Promise(Pending, false, Some([]))],
       resolvers := s.resolvers + [Resolver(p, false)],
       place := s.place + [Owned(|s.resolvers|)], root := s.root + [p], depth := s.depth + [0])
  }

  /** The promise that `then` returns: the functions that could settle it are dropped at once. */
  function Register(s: State, p: nat, d: Deferred): State {
    s.(promises := s.promises + [Promise(Pending, false, Some([]))],
       registered := s.registered + [d],
       place := s.place + [Owned(|s.resolvers|)], root := s.root + [|s.promises|], depth := s.depth + [0])
  }

  /** `r` on an object with a `then` function: `u` makes a new pair of functions for the same promise. */
  function Assimilate(s: State, e: nat): State
    requires e < |s.place|
  {
    s.(resolvers := s.resolvers + [Resolver(e, false)], place := s.place[e := Owned(|s.resolvers|)])
  }

  /** `r` */
  function Resolve(s: State, e: nat, v: Resolution): State
    requires Inv(s) && IsPending(s, e) && Free(s, s.place[e]) && Allowed(s, e, v)
  {
    match v
    case Datum(x) => SettleInv(s, e, Fulfilled(x)); Settle(s, e, Fulfilled(x))
    case PromiseRef(n) =>
      if n == e then SettleInv(s, e, Rejected(SELF_RESOLUTION)); Settle(s, e, Rejected(SELF_RESOLUTION))
      else SettleInv(s, e, Adopted(n)); Settle(s, e, Adopted(n))
    case Thenable => Assimilate(s, e)
    case ThenThrows(error) => SettleInv(s, e, Rejected(error)); Settle(s, e, Rejected(error))
  }

  /** `i` */
  function Reject(s: State, e: nat, reason: int): State
    requires Inv(s) && IsPending(s, e) && Free(s, s.place[e])
  {
    SettleInv(s, e, Rejected(reason));
    Settle(s, e, Rejected(reason))
  }

  function Spend(s: State, i: nat): State
    requires i < |s.resolvers|
  {
    s.(resolvers := s.resolvers[i := s.resolvers[i].(done := true)])
  }

  lemma ResolveInv(s: State, e: nat, v: Resolution)
    requires Inv(s) && IsPending(s, e) && Free(s, s.place[e]) && Allowed(s, e, v)
    ensures Inv(Resolve(s, e, v))
  {
    hide Inv, Settle;
    match v
    case Datum(x) => SettleInv(s, e, Fulfilled(x));
    case PromiseRef(n) =>
      if n == e { SettleInv(s, e, Rejected(SELF_RESOLUTION)); } else { SettleInv(s, e, Adopted(n)); }
    case Thenable => AssimilateInv(s, e);
    case ThenThrows(error) => SettleInv(s, e, Rejected(error));
  }

  /** A change outside the store, the lists and the records keeps the latter three parts of the invariant. */
  lemma SameRecords(s: State, s1: State)
    requires Store(s) && Recorded(s) && Ordered(s)
    requires s1.promises == s.promises && s1.scheduled == s.scheduled && s1.registered == s.registered
    requires s1.root == s.root && s1.depth == s.depth && |s1.place| == |s.place|
    ensures Store(s1) && Recorded(s1) && Ordered(s1)
  {
    StoreKept(s, s1);
    forall q: nat, k: nat | Waiting(s1, q, k) ensures AtEnd(s1, List(s1, q)[k], q) {
      assert Waiting(s, q, k) && AtEnd(s, List(s, q)[k], q);
    }
    forall j | 0 <= j < |s1.scheduled| && s1.scheduled[j].Handle?
      ensures AtEnd(s1, s1.scheduled[j].d, s1.scheduled[j].settled)
    {
      assert AtEnd(s, s.scheduled[j].d, s.scheduled[j].settled);
    }
    forall p | 0 <= p < |s1.promises| ensures OrderAt(s1, p) {
      assert OrderAt(s, p);
    }
  }

  lemma AssimilateInv(s: State, e: nat)
    requires Inv(s) && IsPending(s, e) && Free(s, s.place[e])
    ensures Inv(Assimilate(s, e))
  {
    var s1 := Assimilate(s, e);
    SameRecords(s, s1);
    AssimilateTokens(s, e);
  }

  lemma AssimilateTokens(s: State, e: nat)
    requires Store(s) && Tokens(s) && IsPending(s, e) && Free(s, s.place[e])
    ensures Tokens(Assimilate(s, e))
  {
    var s1 := Assimilate(s, e);
    forall q: nat, k: nat | Waiting(s1, q, k) ensures ListedAt(s1, q, k) {
      assert Waiting(s, q, k) && ListedAt(s, q, k);
    }
    forall j: nat | Live(s1, j) ensures s1.place[s1.scheduled[j].d.promise] == Queued(j) {
      assert Live(s, j);
    }
  }

  /** Using up a right to settle frees the place of the promise. */
  lemma SpendInv(s: State, i: nat)
    requires Inv(s) && i < |s.resolvers| && !s.resolvers[i].done
    ensures var e := s.resolvers[i].target; Inv(Spend(s, i)) && IsPending(s, e) && Free(Spend(s, i), s.place[e])
  {
    var s1 := Spend(s, i);
    SameRecords(s, s1);
    SameTokens(s, s1);
  }

  /** The tokens stay sound when some of them are used up. */
  lemma SameTokens(s: State, s1: State)
    requires Store(s) && Tokens(s) && s1.promises == s.promises && s1.scheduled == s.scheduled && s1.place == s.place
    requires s1.root == s.root && s1.depth == s.depth && |s1.resolvers| == |s.resolvers|
    requires forall i :: 0 <= i < |s.resolvers| ==>
      s1.resolvers[i].target == s.resolvers[i].target && (s.resolvers[i].done ==> s1.resolvers[i].done)
    requires s.started <= s1.started <= |s.scheduled|
    requires forall j: nat :: Live(s1, j) ==> Live(s, j)
    requires forall j :: j in s1.running ==> j < s1.started && s.scheduled[j].Handle?
    ensures Tokens(s1)
  {
    forall q: nat, k: nat | Waiting(s1, q, k) ensures ListedAt(s1, q, k) {
      assert Waiting(s, q, k) && ListedAt(s, q, k);
    }
  }

  /** A job is taken from the queue; its callback runs, or it settles its promise at once. */
  function Start(s: State, callback: bool): State {
    s.(started := s.started + 1, running := if callback then s.running + {s.started} else s.running)
  }

  lemma StartInv(s: State, callback: bool)
    requires Inv(s) && s.started < |s.scheduled| && (callback ==> s.scheduled[s.started].Handle?)
    ensures Inv(Start(s, callback))
    ensures s.scheduled[s.started].Handle? && !callback ==>
      var e := s.scheduled[s.started].d.promise; IsPending(s, e) && Free(Start(s, callback), s.place[e])
  {
    var s1 := Start(s, callback);
    SameRecords(s, s1);
    forall j: nat | Live(s1, j) ensures Live(s, j) {
    }
    SameTokens(s, s1);
    if s.scheduled[s.started].Handle? {
      assert Live(s, s.started);
    }
  }

  function Finish(s: State, j: nat): State {
    s.(running := s.running - {j})
  }

  lemma FinishInv(s: State, j: nat)
    requires Inv(s) && j in s.running
    ensures j < |s.scheduled| && s.scheduled[j].Handle? && Inv(Finish(s, j))
    ensures var e := s.scheduled[j].d.promise; IsPending(s, e) && Free(Finish(s, j), s.place[e])
  {
    var s1 := Finish(s, j);
    SameRecords(s, s1);
    forall i: nat | Live(s1, i) ensures Live(s, i) {
    }
    SameTokens(s, s1);
    assert Live(s, j);
  }

  lemma StoreGrown(s: State, s1: State, owner: Place)
    requires Store(s) && s1.promises == s.promises + [Promise(Pending, false, Some([]))]
    requires s1.root == s.root + [|s.promises|] && s1.depth == s.depth + [0] && s1.place == s.place + [owner]
    ensures Store(s1)
  {
    forall p | 0 <= p < |s1.promises| ensures ChainAt(s1, p) {
      if p < |s.promises| {
        assert ChainAt(s, p);
      }
    }
  }

  lemma TokensGrown(s: State, s1: State)
    requires Store(s) && Tokens(s) && s1.promises == s.promises + [Promise(Pending, false, Some([]))]
    requires s1.root == s.root + [|s.promises|] && s1.depth == s.depth + [0]
    requires s1.place == s.place + [Owned(|s.resolvers|)]
    requires s1.resolvers == s.resolvers || s1.resolvers == s.resolvers + [Resolver(|s.promises|, false)]
    requires s1.scheduled == s.scheduled && s1.started == s.started && s1.running == s.running
    ensures Tokens(s1)
  {
    forall q: nat, k: nat | Waiting(s1, q, k) ensures ListedAt(s1, q, k) {
      assert Waiting(s, q, k) && ListedAt(s, q, k);
    }
    forall j: nat | Live(s1, j) ensures s1.place[s1.scheduled[j].d.promise] == Queued(j) {
      assert Live(s, j);
    }
  }

  lemma RecordedGrown(s: State, s1: State)
    requires Store(s) && Recorded(s) && Store(s1) && s1.promises == s.promises + [Promise(Pending, false, Some([]))]
    requires s1.root == s.root + [|s.promises|] && s1.scheduled == s.scheduled
    requires Numbered(s1.registered, |s1.promises|)
    ensures Recorded(s1)
  {
    forall q: nat, k: nat | Waiting(s1, q, k) ensures AtEnd(s1, List(s1, q)[k], q) {
      assert Waiting(s, q, k) && AtEnd(s, List(s, q)[k], q);
    }
    forall j | 0 <= j < |s1.scheduled| && s1.scheduled[j].Handle?
      ensures AtEnd(s1, s1.scheduled[j].d, s1.scheduled[j].settled)
    {
      assert AtEnd(s, s.scheduled[j].d, s.scheduled[j].settled);
    }
  }

  /** Nothing was registered on a promise that did not exist yet. */
  lemma NothingOn(s: State, p: nat)
    requires Store(s) && Recorded(s) && |s.promises| <= p
    ensures On(s.registered, p) == [] && On(Handles(s.scheduled), p) == []
  {
    OnNone(s.registered, p);
    HandlesOn(s.scheduled, p);
  }

  lemma {:induction false} HandlesOn(jobs: seq<Job>, p: nat)
    requires forall j :: 0 <= j < |jobs| && jobs[j].Handle? ==> jobs[j].d.on != p
    ensures On(Handles(jobs), p) == []
  {
    if jobs != [] {
      HandlesOn(jobs[1..], p);
      OnConcat(if jobs[0].Handle? then [jobs[0].d] else [], Handles(jobs[1..]), p);
    }
  }

  lemma CreateInv(s: State)
    requires Inv(s)
    ensures Inv(Create(s))
  {
    hide Chains, Tokens, Recorded;
    var s1 := Create(s);
    StoreGrown(s, s1, Owned(|s.resolvers|));
    TokensGrown(s, s1);
    RegisteredBound(s);
    RecordedGrown(s, s1);
    NothingOn(s, |s.promises|);
    forall p | 0 <= p < |s1.promises| ensures OrderAt(s1, p) {
      if p < |s.promises| {
        assert OrderAt(s, p);
      }
    }
  }

  lemma RegisteredBound(s: State)
    requires Store(s) && Recorded(s)
    ensures Numbered(s.registered, |s.promises|)
  {
  }

  /** `then` */
  function CallThen(s: State, p: nat, onFulfilled: bool, onRejected: bool): State
    requires Inv(s) && p < |s.promises|
  {
    var d := Deferred(p, onFulfilled, onRejected, |s.promises|);
    StoreGrown(s, Register(s, p, d), Owned(|s.resolvers|));
    HandleOn(Register(s, p, d), p, d)
  }

  lemma ThenInv(s: State, p: nat, onFulfilled: bool, onRejected: bool)
    requires Inv(s) && p < |s.promises|
    ensures Inv(CallThen(s, p, onFulfilled, onRejected))
  {
    hide Chains, Tokens, Recorded, OrderAt, HandleAt;
    var d := Deferred(p, onFulfilled, onRejected, |s.promises|);
    var s1 := Register(s, p, d);
    StoreGrown(s, s1, Owned(|s.resolvers|));
    TokensGrown(s, s1);
    RegisteredBound(s);
    RecordedGrown(s, s1);
    HandleAtTokens(s1, s1.root[p], d);
    AppendedOne(s1, s1.root[p], d);
    ThenRecorded(s1, p, d, HandleAt(s1, s1.root[p], d));
    forall q | 0 <= q < |s1.promises| ensures OrderAt(HandleAt(s1, s1.root[p], d), q) {
      ThenOrderAt(s, p, d, HandleAt(s1, s1.root[p], d), q);
    }
  }

  lemma ThenRecorded(s1: State, p: nat, d: Deferred, s2: State)
    requires Store(s1) && Recorded(s1) && p < |s1.promises| && d.on == p && Store(s2)
    requires Appended(s1, s1.root[p], [d], s2)
    ensures Recorded(s2)
  {
    var r := s1.root[p];
    QueueAllAt(r, [d]);
    forall q: nat, k: nat | Waiting(s2, q, k) ensures AtEnd(s2, List(s2, q)[k], q) {
      if q != r || k < |List(s1, q)| {
        assert Waiting(s1, q, k) && AtEnd(s1, List(s1, q)[k], q);
      }
    }
    forall j | 0 <= j < |s2.scheduled| && s2.scheduled[j].Handle?
      ensures AtEnd(s2, s2.scheduled[j].d, s2.scheduled[j].settled) && !IsPending(s2, s2.scheduled[j].settled)
    {
      if j < |s1.scheduled| {
        assert AtEnd(s1, s1.scheduled[j].d, s1.scheduled[j].settled);
      }
    }
  }

  lemma ThenOrderAt(s: State, p: nat, d: Deferred, s2: State, q: nat)
    requires Inv(s) && p < |s.promises| && d.on == p && Store(s2) && q <= |s.promises|
    requires var s1 := Register(s, p, d); Store(s1) && Appended(s1, s1.root[p], [d], s2)
    ensures OrderAt(s2, q)
  {
    hide Chains, Tokens;
    var s1 := Register(s, p, d);
    var r := s1.root[p];
    OnConcat(s.registered, [d], q);
    HandlesQueueAll(r, [d]);
    HandlesConcat(s.scheduled, QueueAll(r, [d]));
    OnConcat(Handles(s.scheduled), [d], q);
    if q < |s.promises| {
      assert OrderAt(s, q);
      var e := s.root[q];
      if IsPending(s, e) {
        OnConcat(List(s, e), [d], q);
      }
    } else {
      NothingOn(s, q);
    }
  }

  /** One call, from start to end. */
  function Do(s: State, c: Call): State
    requires Inv(s) && Enabled(s, c)
  {
    match c
    case New => Create(s)
    case Then(p, onFulfilled, onRejected) => CallThen(s, p, onFulfilled, onRejected)
    case CallResolve(i, v) =>
      if s.resolvers[i].done then s
      else SpendInv(s, i); Resolve(Spend(s, i), s.resolvers[i].target, v)
    case CallReject(i, reason) =>
      if s.resolvers[i].done then s
      else SpendInv(s, i); Reject(Spend(s, i), s.resolvers[i].target, reason)
    case RunNext => RunJob(s)
    case Returned(j, v) => FinishInv(s, j); Resolve(Finish(s, j), s.scheduled[j].d.promise, v)
    case Threw(j, error) => FinishInv(s, j); Reject(Finish(s, j), s.scheduled[j].d.promise, error)
  }

  /** A job is for a promise that is fulfilled or rejected, the end of the chain of the promise `then` was called on. */
  lemma JobSettled(s: State, j: nat)
    requires Inv(s) && j < |s.scheduled| && s.scheduled[j].Handle?
    ensures var e, d := s.scheduled[j].settled, s.scheduled[j].d;
            e < |s.promises| && (s.promises[e].status.Fulfilled? || s.promises[e].status.Rejected?)
            && d.on < |s.promises| && e == Chase(s, d.on)
  {
    assert AtEnd(s, s.scheduled[j].d, s.scheduled[j].settled) && ChainAt(s, s.scheduled[j].d.on);
  }

  /** The function that `o` or `f` gave to `_immediateFn`: without a callback the derived promise follows. */
  function RunJob(s: State): State
    requires Inv(s) && s.started < |s.scheduled|
  {
    match s.scheduled[s.started]
    case CheckUnhandled(_) => Start(s, false)
    case Handle(e, d) =>
      JobSettled(s, s.started);
      match s.promises[e].status
      case Fulfilled(v) =>
        StartInv(s, d.onFulfilled);
        if d.onFulfilled then Start(s, true) else Resolve(Start(s, false), d.promise, Datum(v))
      case Rejected(reason) =>
        StartInv(s, d.onRejected);
        if d.onRejected then Start(s, true) else Reject(Start(s, false), d.promise, reason)
  }

  lemma RunJobInv(s: State)
    requires Inv(s) && s.started < |s.scheduled|
    ensures Inv(RunJob(s))
  {
    hide Inv, Resolve, Reject;
    StartInv(s, false);
    if s.scheduled[s.started].Handle? {
      var e, d := s.scheduled[s.started].settled, s.scheduled[s.started].d;
      JobSettled(s, s.started);
      StartInv(s, true);
      match s.promises[e].status {
        case Fulfilled(v) => if !d.onFulfilled { ResolveInv(Start(s, false), d.promise, Datum(v)); }
        case Rejected(reason) => if !d.onRejected { RejectInv(Start(s, false), d.promise, reason); }
      }
    }
  }

  lemma RejectInv(s: State, e: nat, reason: int)
    requires Inv(s) && IsPending(s, e) && Free(s, s.place[e])
    ensures Inv(Reject(s, e, reason))
  {
    SettleInv(s, e, Rejected(reason));
  }

  /** Every call keeps the invariant. */
  lemma DoInv(s: State, c: Call)
    requires Inv(s) && Enabled(s, c)
    ensures Inv(Do(s, c))
  {
    hide Inv, Resolve, Reject, Create, CallThen, RunJob;
    match c
    case New => CreateInv(s);
    case Then(p, onFulfilled, onRejected) => ThenInv(s, p, onFulfilled, onRejected);
    case CallResolve(i, v) =>
      if !s.resolvers[i].done {
        SpendInv(s, i);
        ResolveInv(Spend(s, i), s.resolvers[i].target, v);
      }
    case CallReject(i, reason) =>
      if !s.resolvers[i].done {
        SpendInv(s, i);
        RejectInv(Spend(s, i), s.resolvers[i].target, reason);
      }
    case RunNext => RunJobInv(s);
    case Returned(j, v) =>
      FinishInv(s, j);
      ResolveInv(Finish(s, j), s.scheduled[j].d.promise, v);
    case Threw(j, error) =>
      FinishInv(s, j);
      RejectInv(Finish(s, j), s.scheduled[j].d.promise, error);
  }

  // ---- what holds of every call and every run ----

  /** From `s` to `s1` no promise that had left the pending state changed its status again, and the records of
      `then` calls and of jobs only grew. */
  ghost predicate Keeps(s: State, s1: State) {
    |s.promises| <= |s1.promises|
    && (forall p :: 0 <= p < |s.promises| && !IsPending(s, p) ==> s1.promises[p].status == s.promises[p].status)
    && s.registered <= s1.registered && s.scheduled <= s1.scheduled && s.started <= s1.started
  }

  /** No `then` call is recorded, and no promise is made. */
  predicate SameCalls(s: State, s1: State) {
    s1.registered == s.registered && |s1.promises| == |s.promises|
  }

  /** The `then` calls that a call makes when there are `n` promises, */
  function Registers(n: nat, c: Call): seq<Deferred> {
    match c
    case Then(p, onFulfilled, onRejected) => [Deferred(p, onFulfilled, onRejected, n)]
    case _ => []
  }

  /** and how many promises there are afterwards. */
  function PromisesAfter(n: nat, c: Call): nat {
    if c.New? || c.Then? then n + 1 else n
  }

  /** The `then` calls of a run that starts with `n` promises: each promise is named by its number. */
  function Registered(n: nat, calls: seq<Call>): seq<Deferred>
    decreases |calls|
  {
    if calls == [] then [] else Registers(n, calls[0]) + Registered(PromisesAfter(n, calls[0]), calls[1..])
  }

  lemma SettleKeeps(s: State, e: nat, status: Status)
    requires Inv(s) && IsPending(s, e) && Free(s, s.place[e]) && !status.Pending?
    requires status.Adopted? ==> status.to < |s.promises| && s.root[status.to] != e
    ensures Known(s, List(s, e)) && Keeps(s, Settle(s, e, status)) && SameCalls(s, Settle(s, e, status))
  {
    hide Settle, Inv;
    SettleInv(s, e, status);
  }

  lemma ResolveKeeps(s: State, e: nat, v: Resolution)
    requires Inv(s) && IsPending(s, e) && Free(s, s.place[e]) && Allowed(s, e, v)
    ensures Keeps(s, Resolve(s, e, v)) && SameCalls(s, Resolve(s, e, v))
  {
    hide Settle, Inv;
    match v
    case Datum(x) => SettleKeeps(s, e, Fulfilled(x));
    case PromiseRef(n) =>
      if n == e { SettleKeeps(s, e, Rejected(SELF_RESOLUTION)); } else { SettleKeeps(s, e, Adopted(n)); }
    case Thenable =>
    case ThenThrows(error) => SettleKeeps(s, e, Rejected(error));
  }

  lemma DoKeeps(s: State, c: Call)
    requires Inv(s) && Enabled(s, c)
    ensures Keeps(s, Do(s, c))
    ensures Do(s, c).registered == s.registered + Registers(|s.promises|, c)
    ensures |Do(s, c).promises| == PromisesAfter(|s.promises|, c)
  {
    hide Inv, Resolve, Settle, HandleAll;
    assert s.registered + [] == s.registered;
    match c
    case New =>
    case Then(p, onFulfilled, onRejected) => ThenKeeps(s, p, onFulfilled, onRejected);
    case CallResolve(i, v) =>
      if !s.resolvers[i].done {
        SpendInv(s, i);
        ResolveKeeps(Spend(s, i), s.resolvers[i].target, v);
      }
    case CallReject(i, reason) =>
      if !s.resolvers[i].done {
        SpendInv(s, i);
        SettleKeeps(Spend(s, i), s.resolvers[i].target, Rejected(reason));
      }
    case RunNext => RunJobKeeps(s);
    case Returned(j, v) =>
      FinishInv(s, j);
      ResolveKeeps(Finish(s, j), s.scheduled[j].d.promise, v);
    case Threw(j, error) =>
      FinishInv(s, j);
      SettleKeeps(Finish(s, j), s.scheduled[j].d.promise, Rejected(error));
  }

  lemma ThenKeeps(s: State, p: nat, onFulfilled: bool, onRejected: bool)
    requires Inv(s) && p < |s.promises|
    ensures Keeps(s, CallThen(s, p, onFulfilled, onRejected))
    ensures var s1 := CallThen(s, p, onFulfilled, onRejected);
      s1.registered == s.registered + [Deferred(p, onFulfilled, onRejected, |s.promises|)]
      && |s1.promises| == |s.promises| + 1
  {
    var d := Deferred(p, onFulfilled, onRejected, |s.promises|);
    var s1 := Register(s, p, d);
    StoreGrown(s, s1, Owned(|s.resolvers|));
    AppendedOne(s1, s1.root[p], d);
  }

  lemma RunJobKeeps(s: State)
    requires Inv(s) && s.started < |s.scheduled|
    ensures Keeps(s, RunJob(s)) && SameCalls(s, RunJob(s))
  {
    hide Inv, Resolve, Settle;
    StartInv(s, false);
    if s.scheduled[s.started].Handle? {
      var e, d := s.scheduled[s.started].settled, s.scheduled[s.started].d;
      JobSettled(s, s.started);
      match s.promises[e].status {
        case Fulfilled(v) => if !d.onFulfilled { ResolveKeeps(Start(s, false), d.promise, Datum(v)); }
        case Rejected(reason) => if !d.onRejected { SettleKeeps(Start(s, false), d.promise, Rejected(reason)); }
      }
    }
  }

  /** The calls can be made one after the other from `s`. */
  ghost predicate CanRun(s: State, calls: seq<Call>)
    requires Inv(s)
    decreases |calls|
  {
    calls != [] ==> Enabled(s, calls[0]) && (DoInv(s, calls[0]); CanRun(Do(s, calls[0]), calls[1..]))
  }

  ghost function Run(s: State, calls: seq<Call>): State
    requires Inv(s) && CanRun(s, calls)
    decreases |calls|
  {
    if calls == [] then s else DoInv(s, calls[0]); Run(Do(s, calls[0]), calls[1..])
  }

  /** Over every run: a promise leaves the pending state at most once and never changes afterwards. */
  lemma {:induction false} RunKeeps(s: State, calls: seq<Call>)
    requires Inv(s) && CanRun(s, calls)
    ensures Inv(Run(s, calls)) && Keeps(s, Run(s, calls))
    ensures Run(s, calls).registered == s.registered + Registered(|s.promises|, calls)
    decreases |calls|
  {
    hide Inv, Do, Enabled, Registers, PromisesAfter;
    if calls == [] {
      assert s.registered + [] == s.registered;
    } else {
      DoInv(s, calls[0]);
      DoKeeps(s, calls[0]);
      var first, rest := Registers(|s.promises|, calls[0]), Registered(PromisesAfter(|s.promises|, calls[0]), calls[1..]);
      RunKeeps(Do(s, calls[0]), calls[1..]);
      assert (s.registered + first) + rest == s.registered + (first + rest);
    }
  }

  /** Of the `then` calls of a run, those on one promise are scheduled in the order in which they were made, all of
      them or, while the end of its chain is pending, none. */
  lemma RunInOrder(calls: seq<Call>, p: nat)
    requires CanRun(INIT, calls) && p < |Run(INIT, calls).promises|
    ensures var s := Run(INIT, calls);
      Inv(s) && On(Handles(s.scheduled), p)
        == if IsPending(s, Chase(s, p)) then [] else On(Registered(0, calls), p)
  {
    InitInv();
    RunKeeps(INIT, calls);
    hide Inv, Run, CanRun, On, Chase;
    assert [] + Registered(0, calls) == Registered(0, calls);
    ScheduledInOrder(Run(INIT, calls), p);
  }

  lemma InitInv()
    ensures Inv(INIT)
  {
  }

  ghost predicate NoTwice(ds: seq<Deferred>) {
    forall i, k :: 0 <= i < k < |ds| ==> ds[i].promise != ds[k].promise
  }

  lemma {:induction false} OnMember(ds: seq<Deferred>, p: nat, d: Deferred)
    ensures d in On(ds, p) <==> d in ds && d.on == p
  {
    if ds != [] {
      OnMember(ds[1..], p, d);
      assert d in ds <==> d == ds[0] || d in ds[1..];
    }
  }

  lemma {:induction false} OnNoTwice(ds: seq<Deferred>, p: nat)
    requires NoTwice(ds)
    ensures NoTwice(On(ds, p))
  {
    if ds != [] {
      assert NoTwice(ds[1..]);
      OnNoTwice(ds[1..], p);
      forall d | d in On(ds[1..], p) ensures d.promise != ds[0].promise {
        OnMember(ds[1..], p, d);
        var k :| 0 <= k < |ds[1..]| && ds[1..][k] == d;
        assert ds[k + 1] == d;
      }
    }
  }

  /** Two different places of a list hold two different places of its part for one promise. */
  lemma {:induction false} OnTwice(ds: seq<Deferred>, i: nat, k: nat)
    requires i < k < |ds| && ds[i].on == ds[k].on && ds[i].promise == ds[k].promise
    ensures !NoTwice(On(ds, ds[i].on))
  {
    var p, rest := ds[i].on, On(ds[1..], ds[i].on);
    if i > 0 {
      OnTwice(ds[1..], i - 1, k - 1);
      var a, b :| 0 <= a < b < |rest| && rest[a].promise == rest[b].promise;
      var n := |On(ds, p)| - |rest|;
      assert On(ds, p)[n + a] == rest[a] && On(ds, p)[n + b] == rest[b];
    } else {
      OnMember(ds[1..], p, ds[k]);
      assert ds[1..][k - 1] == ds[k];
      var b :| 0 <= b < |rest| && rest[b] == ds[k];
      assert On(ds, p)[0] == ds[0] && On(ds, p)[b + 1] == rest[b];
    }
  }

  /** Every `then` call is scheduled at most once, over the whole life of the machine. */
  lemma ScheduledOnce(s: State)
    requires Inv(s)
    ensures NoTwice(Handles(s.scheduled))
  {
    var h := Handles(s.scheduled);
    forall i, k | 0 <= i < k < |h| ensures h[i].promise != h[k].promise {
      ScheduledRegistered(s, h[i]);
      ScheduledRegistered(s, h[k]);
      var p := h[i].on;
      if h[i].promise == h[k].promise {
        assert h[i] == h[k] && OrderAt(s, p);
        OnNoTwice(s.registered, p);
        OnTwice(h, i, k);
      }
    }
  }

  lemma ScheduledRegistered(s: State, d: Deferred)
    requires Inv(s) && d in Handles(s.scheduled)
    ensures d in s.registered && d.on < |s.promises|
  {
    HandlesBound(s.scheduled, |s.promises|);
    OnMember(Handles(s.scheduled), d.on, d);
    OnMember(s.registered, d.on, d);
    assert OrderAt(s, d.on);
  }

  lemma {:induction false} HandlesBound(jobs: seq<Job>, n: nat)
    requires forall j :: 0 <= j < |jobs| && jobs[j].Handle? ==> jobs[j].d.on < n
    ensures forall k :: 0 <= k < |Handles(jobs)| ==> Handles(jobs)[k].on < n
  {
    if jobs != [] {
      HandlesBound(jobs[1..], n);
    }
  }

  /** The `then` calls on one promise are scheduled in the order they were made, whatever adoptions came between:
      the scheduled ones are none of them while the end of the chain is pending, and then all of them in order. */
  lemma ScheduledInOrder(s: State, p: nat)
    requires Inv(s) && p < |s.promises|
    ensures On(Handles(s.scheduled), p) == if IsPending(s, Chase(s, p)) then [] else On(s.registered, p)
  {
    assert OrderAt(s, p);
  }

  // ---- what a promise ends with ----

  /** The status that resolving `e` with `v` leaves it in (Promises/A+, section 2.3); a thenable decides later. */
  function ResolvedTo(e: nat, v: Resolution): Status {
    match v
    case Datum(x) => Fulfilled(x)
    case PromiseRef(n) => if n == e then Rejected(SELF_RESOLUTION) else Adopted(n)
    case Thenable => Pending
    case ThenThrows(error) => Rejected(error)
  }

  /** Only the status of `e` changes. */
  ghost predicate OnlyBecomes(s: State, e: nat, status: Status, t: State) {
    |t.promises| == |s.promises| && e < |s.promises| && t.promises[e].status == status
    && forall p :: 0 <= p < |s.promises| && p != e ==> t.promises[p].status == s.promises[p].status
  }

  lemma SettleOutcome(s: State, e: nat, status: Status)
    requires Inv(s) && IsPending(s, e) && Free(s, s.place[e]) && !status.Pending?
    requires status.Adopted? ==> status.to < |s.promises| && s.root[status.to] != e
    ensures Known(s, List(s, e)) && OnlyBecomes(s, e, status, Settle(s, e, status))
  {
    hide Inv, Settle;
    SettleInv(s, e, status);
  }

  lemma ResolveOutcome(s: State, e: nat, v: Resolution)
    requires Inv(s) && IsPending(s, e) && Free(s, s.place[e]) && Allowed(s, e, v)
    ensures OnlyBecomes(s, e, ResolvedTo(e, v), Resolve(s, e, v))
    ensures v.Thenable? ==> Resolve(s, e, v).resolvers == s.resolvers + [Resolver(e, false)]
  {
    hide Inv, Settle;
    if !v.Thenable? {
      SettleOutcome(s, e, ResolvedTo(e, v));
    }
  }

  /** A settled promise has a callback in a `then` call: the one for its outcome is a function. */
  predicate CallsBack(status: Status, d: Deferred) {
    match status
    case Fulfilled(_) => d.onFulfilled
    case Rejected(_) => d.onRejected
    case _ => false
  }

  /** Settling and resolving leave the jobs that run as they are. */
  lemma ResolveStarts(s: State, e: nat, v: Resolution)
    requires Inv(s) && IsPending(s, e) && Free(s, s.place[e]) && Allowed(s, e, v)
    ensures Resolve(s, e, v).started == s.started && Resolve(s, e, v).running == s.running
  {
    hide Inv, Settle;
    if !v.Thenable? {
      SettleInv(s, e, ResolvedTo(e, v));
    }
  }

  lemma RejectStarts(s: State, e: nat, reason: int)
    requires Inv(s) && IsPending(s, e) && Free(s, s.place[e])
    ensures Reject(s, e, reason).started == s.started && Reject(s, e, reason).running == s.running
  {
    hide Inv, Settle;
    SettleInv(s, e, Rejected(reason));
  }

  /** The oldest job begins. If the promise at the end of the chain has a callback in the `then` call, the callback runs
      and nothing settles yet (Promises/A+, sections 2.2.2 and 2.2.3); otherwise the promise that `then` returned ends
      with the value or the reason of that promise (sections 2.2.7.3 and 2.2.7.4). */
  lemma JobOutcome(s: State)
    requires Inv(s) && s.started < |s.scheduled| && s.scheduled[s.started].Handle?
    ensures RunJob(s).started == s.started + 1
    ensures var j, e, d := s.started, s.scheduled[s.started].settled, s.scheduled[s.started].d;
      e < |s.promises| && e == Chase(s, d.on)
      && match s.promises[e].status
         case Fulfilled(v) =>
           if d.onFulfilled then RunJob(s).promises == s.promises && RunJob(s).running == s.running + {j}
           else OnlyBecomes(s, d.promise, Fulfilled(v), RunJob(s)) && RunJob(s).running == s.running
         case Rejected(reason) =>
           if d.onRejected then RunJob(s).promises == s.promises && RunJob(s).running == s.running + {j}
           else OnlyBecomes(s, d.promise, Rejected(reason), RunJob(s)) && RunJob(s).running == s.running
         case _ => false
  {
    hide Inv, Settle, OnlyBecomes, Resolve, Reject;
    var e, d := s.scheduled[s.started].settled, s.scheduled[s.started].d;
    JobSettled(s, s.started);
    StartInv(s, false);
    StartInv(s, true);
    SameButStarted(s, d.promise);
    match s.promises[e].status {
      case Fulfilled(v) =>
        if !d.onFulfilled {
          ResolveOutcome(Start(s, false), d.promise, Datum(v));
          ResolveStarts(Start(s, false), d.promise, Datum(v));
        }
      case Rejected(reason) =>
        if !d.onRejected {
          RejectOutcome(Start(s, false), d.promise, reason);
          RejectStarts(Start(s, false), d.promise, reason);
        }
    }
  }

  /** What user code sees of a job: a callback is called with the value or the reason, or a rejection is reported. */
  datatype Effect = Nothing | CallsFulfilled(value: int) | CallsRejected(reason: int) | ReportsUnhandled(rejection: int)

  /** The effect of the next job. */
  ghost predicate Performs(s: State, effect: Effect)
    requires Inv(s) && s.started < |s.scheduled|
  {
    match s.scheduled[s.started]
    case CheckUnhandled(p) =>
      CheckRejected(s, s.started);
      effect == if s.promises[p].handled then Nothing else ReportsUnhandled(s.promises[p].status.reason)
    case Handle(e, d) =>
      JobSettled(s, s.started);
      match s.promises[e].status
      case Fulfilled(v) => effect == if d.onFulfilled then CallsFulfilled(v) else Nothing
      case Rejected(reason) => effect == if d.onRejected then CallsRejected(reason) else Nothing
  }

  lemma CheckRejected(s: State, j: nat)
    requires Inv(s) && j < |s.scheduled| && s.scheduled[j].CheckUnhandled?
    ensures RejectedAt(s, s.scheduled[j].p)
  {
    hide Chains, Tokens, Ordered;
  }

  lemma RejectOutcome(s: State, e: nat, reason: int)
    requires Inv(s) && IsPending(s, e) && Free(s, s.place[e])
    ensures OnlyBecomes(s, e, Rejected(reason), Reject(s, e, reason))
  {
    hide Inv, Settle;
    SettleOutcome(s, e, Rejected(reason));
  }

  /** The functions of a pair settle its promise with what they are called with, once: afterwards both do nothing
      (section 2.3.3.3.3). */
  lemma PairOutcome(s: State, i: nat, v: Resolution, reason: int)
    requires Inv(s) && Enabled(s, CallResolve(i, v))
    ensures s.resolvers[i].done ==> Do(s, CallResolve(i, v)) == s && Do(s, CallReject(i, reason)) == s
    ensures !s.resolvers[i].done ==>
      OnlyBecomes(s, s.resolvers[i].target, ResolvedTo(s.resolvers[i].target, v), Do(s, CallResolve(i, v)))
      && OnlyBecomes(s, s.resolvers[i].target, Rejected(reason), Do(s, CallReject(i, reason)))
    ensures i < |Do(s, CallResolve(i, v)).resolvers| && Do(s, CallResolve(i, v)).resolvers[i].done
    ensures i < |Do(s, CallReject(i, reason)).resolvers| && Do(s, CallReject(i, reason)).resolvers[i].done
  {
    if !s.resolvers[i].done {
      var e := s.resolvers[i].target;
      SpendInv(s, i);
      SameButSpent(s, i, e);
      hide Inv, Settle, OnlyBecomes;
      ResolveOutcome(Spend(s, i), e, v);
      RejectOutcome(Spend(s, i), e, reason);
      SpentStays(Spend(s, i), i, e, v, reason);
    }
  }

  lemma SameButSpent(s: State, i: nat, p: nat)
    requires i < |s.resolvers|
    ensures forall status, t :: OnlyBecomes(Spend(s, i), p, status, t) == OnlyBecomes(s, p, status, t)
  {
  }

  lemma SpentStays(s: State, i: nat, e: nat, v: Resolution, reason: int)
    requires Inv(s) && IsPending(s, e) && Free(s, s.place[e]) && Allowed(s, e, v)
    requires i < |s.resolvers| && s.resolvers[i].done
    ensures i < |Resolve(s, e, v).resolvers| && Resolve(s, e, v).resolvers[i].done
    ensures i < |Reject(s, e, reason).resolvers| && Reject(s, e, reason).resolvers[i].done
  {
    hide Inv, Settle;
    SettleInv(s, e, Rejected(reason));
    if !v.Thenable? {
      SettleInv(s, e, ResolvedTo(e, v));
    }
  }

  lemma SameButStarted(s: State, p: nat)
    ensures forall status, t :: OnlyBecomes(Start(s, false), p, status, t) == OnlyBecomes(s, p, status, t)
    ensures forall j, status, t :: OnlyBecomes(Finish(s, j), p, status, t) == OnlyBecomes(s, p, status, t)
  {
  }

  /** What a callback returns resolves that promise, and what it throws rejects it (sections 2.2.7.1 and 2.2.7.2). */
  lemma CallbackOutcome(s: State, j: nat, v: Resolution, error: int)
    requires Inv(s) && Enabled(s, Returned(j, v))
    ensures OnlyBecomes(s, s.scheduled[j].d.promise, ResolvedTo(s.scheduled[j].d.promise, v), Do(s, Returned(j, v)))
    ensures OnlyBecomes(s, s.scheduled[j].d.promise, Rejected(error), Do(s, Threw(j, error)))
  {
    hide Inv, Settle, OnlyBecomes, Resolve;
    var e := s.scheduled[j].d.promise;
    FinishInv(s, j);
    SameButStarted(s, e);
    ResolveOutcome(Finish(s, j), e, v);
    SettleOutcome(Finish(s, j), e, Rejected(error));
  }

  // ---- a cycle of adoptions ----

  /** Promise 0 adopts promise 1, which is still pending: the run that leads to the question whether 1 may adopt 0. */
  const FIRST_ADOPTS_SECOND := [New, New, CallResolve(0, PromiseRef(1))]

  lemma TwoPromises()
    ensures var s := Do(Do(INIT, New), New);
      Inv(s) && |s.promises| == |s.resolvers| == 2 && IsPending(s, 0) && IsPending(s, 1)
      && s.root == [0, 1] && !s.resolvers[0].done && s.resolvers[0].target == 0
  {
    InitInv();
    DoInv(INIT, New);
    DoInv(Do(INIT, New), New);
    hide Inv;
  }

  lemma FirstAdopts(s: State)
    requires Inv(s) && |s.promises| == |s.resolvers| == 2 && IsPending(s, 0) && IsPending(s, 1) && s.root == [0, 1]
    requires !s.resolvers[0].done && s.resolvers[0].target == 0
    ensures Enabled(s, CallResolve(0, PromiseRef(1)))
    ensures var t := Do(s, CallResolve(0, PromiseRef(1)));
      Inv(t) && |t.promises| == 2 && IsPending(t, 1) && t.promises[0].status == Adopted(1) && t.root[0] == 1
  {
    DoInv(s, CallResolve(0, PromiseRef(1)));
    SpendInv(s, 0);
    SettleInv(Spend(s, 0), 0, Adopted(1));
    hide Inv, Settle;
  }

  lemma RunCons(s: State, c: Call, rest: seq<Call>)
    requires Inv(s) && Enabled(s, c) && Inv(Do(s, c)) && CanRun(Do(s, c), rest)
    ensures CanRun(s, [c] + rest) && Run(s, [c] + rest) == Run(Do(s, c), rest)
  {
    hide Inv, Do, Enabled;
    assert ([c] + rest)[0] == c && ([c] + rest)[1..] == rest;
  }

  /** That run is possible, and afterwards the chains stay free of cycles only if promise 1 does not adopt promise 0,
      which nothing in the code prevents. */
  lemma CycleReachable()
    ensures CanRun(INIT, FIRST_ADOPTS_SECOND)
    ensures var s := Run(INIT, FIRST_ADOPTS_SECOND);
      Inv(s) && IsPending(s, 1) && 0 < |s.promises| && !Grounded(Left(s, 1, Adopted(0)))
  {
    TwoPromises();
    InitInv();
    DoInv(INIT, New);
    var c := CallResolve(0, PromiseRef(1));
    var s1, s2 := Do(INIT, New), Do(Do(INIT, New), New);
    FirstAdopts(s2);
    var s3 := Do(s2, c);
    InvStore(s3);
    AdoptionStaysGrounded(s3, 1, 0);
    hide Inv, Do, Grounded;
    RunCons(s2, c, []);
    RunCons(s1, New, [c] + []);
    RunCons(INIT, New, [New] + ([c] + []));
    assert FIRST_ADOPTS_SECOND == [New] + ([New] + ([c] + []));
  }

  lemma InvStore(s: State)
    requires Inv(s)
    ensures Store(s)
  {
  }
}
