/** The polyfill's functions as they run, on promises that they change in place. */
module PromisePolyfill {
  import opened Common
  import opened PromiseMachine

  class Polyfill {
    var promises: seq<Promise>
    var resolvers: seq<Resolver>
    var scheduled: seq<Job>
    var started: nat
    var running: set<nat>
    ghost var registered: seq<Deferred>
    ghost var place: seq<Place>
    ghost var root: seq<nat>
    ghost var depth: seq<nat>

    ghost function Now(): State
      reads this
    {
      State(promises, resolvers, scheduled, started, running, registered, place, root, depth)
    }

    constructor ()
      ensures Now() == INIT && Inv(Now())
    {
      promises, resolvers, scheduled, started, running := [], [], [], 0, {};
      registered, place, root, depth := [], [], [], [];
      InitInv();
    }

    /** `o` */
    method HandleDeferred(e: nat, d: Deferred)
      requires Store(Now()) && e < |promises| && d.promise < |promises|
      modifies this
      ensures Now() == HandleOn(old(Now()), e, d)
    {
      ghost var s := Now();
      var r: nat := e;
      while promises[r].status.Adopted?
        invariant Now() == s && e < |s.promises| && r < |s.promises| && Chase(s, r) == Chase(s, e)
        decreases depth[r]
      {
        assert ChainAt(s, r);
        r := promises[r].status.to;
      }
      var p := promises[r];
      if !p.status.Pending? {
        promises := promises[r := p.(handled := true)];
        place := place[d.promise := Queued(|scheduled|)];
        scheduled := scheduled + [Handle(r, d)];
      } else {
        promises := promises[r := p.(deferreds := Some(p.deferreds.value + [d]))];
        place := place[d.promise := Listed(r, |p.deferreds.value|)];
      }
    }

    /** `f` */
    method RunFinale(e: nat)
      requires Store(Now()) && e < |promises| && !IsPending(Now(), e)
      requires promises[e].deferreds.Some? && Known(Now(), promises[e].deferreds.value)
      modifies this
      ensures Now() == Finale(old(Now()), e, old(promises[e].deferreds.value))
    {
      hide HandleOn, Chains;
      var ds := promises[e].deferreds.value;
      ghost var s := Announce(Now(), e, ds);
      StoreKept(Now(), s);
      if promises[e].status.Rejected? && |ds| == 0 {
        scheduled := scheduled + [CheckUnhandled(e)];
      }
      assert ds[0..] == ds;
      for i := 0 to |ds|
        invariant Store(Now()) && |promises| == |s.promises| && Known(Now(), ds)
        invariant HandleAll(Now(), e, ds[i..]) == HandleAll(s, e, ds)
      {
        assert ds[i..][0] == ds[i] && ds[i..][1..] == ds[i + 1..];
        HandleDeferred(e, ds[i]);
      }
      promises := promises[e := promises[e].(deferreds := None)];
    }

    /** The common end of `r` and `i`: the new status, then `f`. */
    method SetStatus(e: nat, status: Status)
      requires Store(Now()) && IsPending(Now(), e) && !status.Pending? && Known(Now(), List(Now(), e))
      requires status.Adopted? ==> status.to < |promises| && root[status.to] != e
      modifies this
      ensures Now() == Settle(old(Now()), e, status)
    {
      hide Finale, Chains;
      ghost var s := Now();
      LeftStore(s, e, status);
      promises := promises[e := promises[e].(status := status)];
      place, root, depth := Left(s, e, status).place, Left(s, e, status).root, Left(s, e, status).depth;
      assert Now() == Left(s, e, status);
      RunFinale(e);
    }

    /** `r` */
    method ResolvePromise(e: nat, v: Resolution)
      requires Inv(Now()) && IsPending(Now(), e) && Free(Now(), place[e]) && Allowed(Now(), e, v)
      modifies this
      ensures Now() == Resolve(old(Now()), e, v) && Inv(Now())
    {
      hide Settle, Tokens, Recorded, Ordered, Chains;
      ghost var s := Now();
      ResolveInv(s, e, v);
      match v
      case Datum(x) =>
        SettleInv(s, e, Fulfilled(x));
        SetStatus(e, Fulfilled(x));
      case PromiseRef(n) =>
        if n == e {
          SettleInv(s, e, Rejected(SELF_RESOLUTION));
          SetStatus(e, Rejected(SELF_RESOLUTION));
        } else {
          SettleInv(s, e, Adopted(n));
          SetStatus(e, Adopted(n));
        }
      case Thenable =>
        place := place[e := Owned(|resolvers|)];
        resolvers := resolvers + [Resolver(e, false)];
      case ThenThrows(error) =>
        SettleInv(s, e, Rejected(error));
        SetStatus(e, Rejected(error));
    }

    /** `i` */
    method RejectPromise(e: nat, reason: int)
      requires Inv(Now()) && IsPending(Now(), e) && Free(Now(), place[e])
      modifies this
      ensures Now() == Reject(old(Now()), e, reason) && Inv(Now())
    {
      hide Settle, Tokens, Recorded, Ordered, Chains;
      RejectInv(Now(), e, reason);
      SettleInv(Now(), e, Rejected(reason));
      SetStatus(e, Rejected(reason));
    }

    method NewPromise() returns (resolver: nat)
      requires Inv(Now())
      modifies this
      ensures Now() == Do(old(Now()), New) && Inv(Now()) && resolver == old(|resolvers|)
    {
      hide Inv;
      CreateInv(Now());
      resolver := |resolvers|;
      root, depth, place := root + [|promises|], depth + [0], place + [Owned(|resolvers|)];
      resolvers := resolvers + [Resolver(|promises|, false)];
      promises := promises + [Promise(Pending, false, Some([]))];
    }

    method CallThenOn(p: nat, onFulfilled: bool, onRejected: bool) returns (derived: nat)
      requires Inv(Now()) && p < |promises|
      modifies this
      ensures Now() == Do(old(Now()), Then(p, onFulfilled, onRejected)) && Inv(Now()) && derived == old(|promises|)
    {
      hide HandleOn, Tokens, Recorded, Ordered, Chains;
      ghost var s := Now();
      ThenInv(s, p, onFulfilled, onRejected);
      derived := |promises|;
      var d := Deferred(p, onFulfilled, onRejected, derived);
      StoreGrown(s, Register(s, p, d), Owned(|resolvers|));
      root, depth, place := root + [|promises|], depth + [0], place + [Owned(|resolvers|)];
      registered := registered + [d];
      promises := promises + [Promise(Pending, false, Some([]))];
      assert Now() == Register(s, p, d);
      HandleDeferred(p, d);
    }

    /** The function that `u` passes to an executor as its first argument; the flag is shared with the second. */
    method CallResolveOf(i: nat, v: Resolution)
      requires Inv(Now()) && Enabled(Now(), CallResolve(i, v))
      modifies this
      ensures Now() == Do(old(Now()), CallResolve(i, v)) && Inv(Now())
    {
      hide Inv, Resolve;
      if !resolvers[i].done {
        SpendInv(Now(), i);
        resolvers := resolvers[i := resolvers[i].(done := true)];
        ResolvePromise(resolvers[i].target, v);
      }
    }

    method CallRejectOf(i: nat, reason: int)
      requires Inv(Now()) && Enabled(Now(), CallReject(i, reason))
      modifies this
      ensures Now() == Do(old(Now()), CallReject(i, reason)) && Inv(Now())
    {
      hide Inv, Reject;
      if !resolvers[i].done {
        SpendInv(Now(), i);
        resolvers := resolvers[i := resolvers[i].(done := true)];
        RejectPromise(resolvers[i].target, reason);
      }
    }

    /** The next job: its callback is called and left running, the derived promise follows the settled one, or a rejection
        that nobody handles is reported. */
    method RunNextJob() returns (effect: Effect)
      requires Inv(Now()) && started < |scheduled|
      modifies this
      ensures Now() == Do(old(Now()), RunNext) && Inv(Now())
      ensures Performs(old(Now()), effect)
      ensures effect.CallsFulfilled? || effect.CallsRejected? <==> old(started) in running
    {
      hide Inv, Resolve, Reject;
      ghost var s := Now();
      RunJobInv(s);
      StartInv(s, false);
      var j := started;
      started := started + 1;
      effect := Nothing;
      match scheduled[j]
      case CheckUnhandled(p) =>
        NotRunning(s);
        CheckRejected(s, j);
        if !promises[p].handled {
          effect := ReportsUnhandled(promises[p].status.reason);
        }
      case Handle(e, d) =>
        JobSettled(s, j);
        NotRunning(s);
        match promises[e].status {
          case Fulfilled(v) =>
            if d.onFulfilled {
              effect := CallsFulfilled(v);
              running := running + {j};
            } else {
              ResolveRunning(Now(), d.promise, Datum(v));
              ResolvePromise(d.promise, Datum(v));
            }
          case Rejected(reason) =>
            if d.onRejected {
              effect := CallsRejected(reason);
              running := running + {j};
            } else {
              RejectRunning(Now(), d.promise, reason);
              RejectPromise(d.promise, reason);
            }
        }
    }

    method CallbackReturned(j: nat, v: Resolution)
      requires Inv(Now()) && Enabled(Now(), Returned(j, v))
      modifies this
      ensures Now() == Do(old(Now()), Returned(j, v)) && Inv(Now())
    {
      hide Inv, Resolve;
      FinishInv(Now(), j);
      running := running - {j};
      ResolvePromise(scheduled[j].d.promise, v);
    }

    method CallbackThrew(j: nat, error: int)
      requires Inv(Now()) && Enabled(Now(), Threw(j, error))
      modifies this
      ensures Now() == Do(old(Now()), Threw(j, error)) && Inv(Now())
    {
      hide Inv, Reject;
      FinishInv(Now(), j);
      running := running - {j};
      RejectPromise(scheduled[j].d.promise, error);
    }
  }

  lemma NotRunning(s: State)
    requires Inv(s)
    ensures s.started !in s.running
  {
  }

  lemma ResolveRunning(s: State, e: nat, v: Resolution)
    requires Inv(s) && IsPending(s, e) && Free(s, s.place[e]) && Allowed(s, e, v)
    ensures Resolve(s, e, v).running == s.running
  {
    hide Inv, Settle;
    match v
    case Datum(x) => SettleInv(s, e, Fulfilled(x));
    case PromiseRef(n) =>
      if n == e { SettleInv(s, e, Rejected(SELF_RESOLUTION)); } else { SettleInv(s, e, Adopted(n)); }
    case Thenable =>
    case ThenThrows(error) => SettleInv(s, e, Rejected(error));
  }

  lemma RejectRunning(s: State, e: nat, reason: int)
    requires Inv(s) && IsPending(s, e) && Free(s, s.place[e])
    ensures Reject(s, e, reason).running == s.running
  {
    hide Inv, Settle;
    SettleInv(s, e, Rejected(reason));
  }
}
