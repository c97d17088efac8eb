/** What holds of every run of the promise machine besides its invariant: no pending promise is ever forgotten, every
    callback that should run does, and a rejection is reported exactly if nobody was handed over to it. */
module PromiseRuns {
  import opened Common
  import opened PromiseMachine

  // ---- no pending promise is forgotten ----

  /** The right to settle `p` that its place records is there and not used up: a fresh pair of functions, a deferred in
      the list of a pending promise, or a job that has not begun or whose callback still runs. */
  predicate HeldAt(s: State, p: nat)
    requires p < |s.place|
  {
    match s.place[p]
    case Owned(i) => i < |s.resolvers| && s.resolvers[i] == Resolver(p, false)
    case Listed(q, k) => Waiting(s, q, k) && s.promises[q].deferreds.value[k].promise == p
    case Queued(j) => Live(s, j) && s.scheduled[j].d.promise == p
    case Finished => false
  }

  ghost predicate Held(s: State, except: set<nat>) {
    |s.place| == |s.promises| && s.started <= |s.scheduled|
    && forall p: nat :: IsPending(s, p) && p !in except ==> HeldAt(s, p)
  }

  /** The promises of the deferreds. */
  ghost function Derived(ds: seq<Deferred>): set<nat> {
    set k | 0 <= k < |ds| :: ds[k].promise
  }

  lemma HandleAtHeld(s: State, r: nat, d: Deferred, except: set<nat>)
    requires Store(s) && r < |s.promises| && d.promise < |s.promises| && Held(s, except)
    ensures Held(HandleAt(s, r, d), except - {d.promise})
  {
    hide Chains;
    var s1 := HandleAt(s, r, d);
    forall p: nat | IsPending(s1, p) && p !in except - {d.promise} ensures HeldAt(s1, p) {
      if p != d.promise {
        assert HeldAt(s, p);
      }
    }
  }

  lemma {:induction false} HandleAllHeld(s: State, e: nat, ds: seq<Deferred>)
    requires Store(s) && e < |s.promises| && Known(s, ds) && Held(s, Derived(ds))
    ensures Held(HandleAll(s, e, ds), {})
    decreases |ds|
  {
    hide Chains, Lists, Chase, HandleAt;
    if ds == [] {
      assert Derived(ds) == {};
    } else {
      HandleAtHeld(s, s.root[e], ds[0], Derived(ds));
      var s1 := HandleOn(s, e, ds[0]);
      assert Derived(ds) - {ds[0].promise} <= Derived(ds[1..]) by {
        forall p | p in Derived(ds) && p != ds[0].promise ensures p in Derived(ds[1..]) {
          var k :| 0 <= k < |ds| && ds[k].promise == p;
          assert ds[1..][k - 1] == ds[k];
        }
      }
      HeldMore(s1, Derived(ds) - {ds[0].promise}, Derived(ds[1..]));
      HandleAllHeld(s1, e, ds[1..]);
    }
  }

  lemma HeldMore(s: State, except: set<nat>, more: set<nat>)
    requires Held(s, except) && except <= more
    ensures Held(s, more)
  {
    hide HeldAt;
  }

  lemma InDerived(ds: seq<Deferred>, k: nat)
    requires k < |ds|
    ensures ds[k].promise in Derived(ds)
  {
  }

  lemma LeftHeld(s: State, e: nat, status: Status)
    requires Store(s) && IsPending(s, e) && !status.Pending? && Held(s, {e})
    requires status.Adopted? ==> status.to < |s.promises| && s.root[status.to] != e
    ensures Held(Left(s, e, status), Derived(List(s, e)))
  {
    hide Chains;
    var s1, ds := Left(s, e, status), List(s, e);
    forall p: nat | IsPending(s1, p) && p !in Derived(ds) ensures HeldAt(s1, p) {
      assert p != e && HeldAt(s, p);
      if s.place[p].Listed? && s.place[p].at == e {
        InDerived(ds, s.place[p].index);
      }
    }
  }

  lemma AnnounceHeld(s: State, e: nat, ds: seq<Deferred>, except: set<nat>)
    requires e < |s.promises| && Held(s, except)
    ensures Held(Announce(s, e, ds), except)
  {
    var s1 := Announce(s, e, ds);
    forall p: nat | IsPending(s1, p) && p !in except ensures HeldAt(s1, p) {
      assert HeldAt(s, p);
    }
  }

  lemma DiscardHeld(s: State, e: nat)
    requires e < |s.promises| && !IsPending(s, e) && Held(s, {})
    ensures Held(Discard(s, e), {})
  {
    var s1 := Discard(s, e);
    forall p: nat | IsPending(s1, p) ensures HeldAt(s1, p) {
      assert HeldAt(s, p);
    }
  }

  lemma SettleHeld(s: State, e: nat, status: Status)
    requires Inv(s) && IsPending(s, e) && Free(s, s.place[e]) && !status.Pending? && Held(s, {e})
    requires status.Adopted? ==> status.to < |s.promises| && s.root[status.to] != e
    ensures Known(s, List(s, e)) && Held(Settle(s, e, status), {})
  {
    SettleInv(s, e, status);
    LeftStore(s, e, status);
    LeftHeld(s, e, status);
    var ds, s1 := List(s, e), Left(s, e, status);
    AnnounceHeld(s1, e, ds, Derived(ds));
    StoreKept(s1, Announce(s1, e, ds));
    hide Tokens, Recorded, Ordered, Chains, Chase, HandleAll, Held;
    HandleAllHeld(Announce(s1, e, ds), e, ds);
    HandleAllIs(Announce(s1, e, ds), e, ds);
    DiscardHeld(HandleAll(Announce(s1, e, ds), e, ds), e);
  }

  lemma ResolveHeld(s: State, e: nat, v: Resolution)
    requires Inv(s) && IsPending(s, e) && Free(s, s.place[e]) && Allowed(s, e, v) && Held(s, {e})
    ensures Held(Resolve(s, e, v), {})
  {
    hide Inv, Settle, Held;
    match v
    case Datum(x) => SettleHeld(s, e, Fulfilled(x));
    case PromiseRef(n) =>
      if n == e { SettleHeld(s, e, Rejected(SELF_RESOLUTION)); } else { SettleHeld(s, e, Adopted(n)); }
    case Thenable =>
      HeldSized(s, {e});
      AssimilateHeld(s, e);
    case ThenThrows(error) => SettleHeld(s, e, Rejected(error));
  }

  lemma AssimilateHeld(s: State, e: nat)
    requires e < |s.place| && Held(s, {e})
    ensures Held(Assimilate(s, e), {})
  {
    var s1 := Assimilate(s, e);
    forall p: nat | IsPending(s1, p) ensures HeldAt(s1, p) {
      if p != e {
        assert HeldAt(s, p);
      }
    }
  }

  lemma SpendHeld(s: State, i: nat)
    requires i < |s.resolvers| && Held(s, {})
    ensures Held(Spend(s, i), {s.resolvers[i].target})
  {
    var s1 := Spend(s, i);
    forall p: nat | IsPending(s1, p) && p != s.resolvers[i].target ensures HeldAt(s1, p) {
      assert HeldAt(s, p);
    }
  }

  /** A job begins, or ends: only its own promise can lose its right. */
  lemma StartHeld(s: State, callback: bool)
    requires s.started < |s.scheduled| && Held(s, {})
    ensures Held(Start(s, callback),
                 if callback || !s.scheduled[s.started].Handle? then {} else {s.scheduled[s.started].d.promise})
  {
    var s1 := Start(s, callback);
    var except := if callback || !s.scheduled[s.started].Handle? then {} else {s.scheduled[s.started].d.promise};
    forall p: nat | IsPending(s1, p) && p !in except ensures HeldAt(s1, p) {
      assert HeldAt(s, p);
    }
  }

  lemma FinishHeld(s: State, j: nat)
    requires j < |s.scheduled| && s.scheduled[j].Handle? && Held(s, {})
    ensures Held(Finish(s, j), {s.scheduled[j].d.promise})
  {
    var s1 := Finish(s, j);
    forall p: nat | IsPending(s1, p) && p != s.scheduled[j].d.promise ensures HeldAt(s1, p) {
      assert HeldAt(s, p);
    }
  }

  lemma RunJobHeld(s: State)
    requires Inv(s) && s.started < |s.scheduled| && Held(s, {})
    ensures Held(RunJob(s), {})
  {
    hide Inv, Resolve, Settle, Held;
    StartInv(s, false);
    StartHeld(s, false);
    StartHeld(s, true);
    if s.scheduled[s.started].Handle? {
      var e, d := s.scheduled[s.started].settled, s.scheduled[s.started].d;
      JobSettled(s, s.started);
      match s.promises[e].status {
        case Fulfilled(v) => if !d.onFulfilled { ResolveHeld(Start(s, false), d.promise, Datum(v)); }
        case Rejected(reason) => if !d.onRejected { SettleHeld(Start(s, false), d.promise, Rejected(reason)); }
      }
    }
  }

  lemma CreateHeld(s: State)
    requires Held(s, {}) && |s.place| == |s.promises|
    ensures Held(Create(s), {})
  {
    var s1 := Create(s);
    forall p: nat | IsPending(s1, p) ensures HeldAt(s1, p) {
      if p < |s.promises| {
        assert IsPending(s, p) && HeldAt(s, p);
      }
    }
  }

  lemma RegisterHeld(s: State, p: nat, d: Deferred)
    requires Held(s, {})
    ensures Held(Register(s, p, d), {|s.promises|})
  {
    var s1 := Register(s, p, d);
    forall q: nat | IsPending(s1, q) && q != |s.promises| ensures HeldAt(s1, q) {
      assert IsPending(s, q) && HeldAt(s, q);
    }
  }

  lemma ThenHeld(s: State, p: nat, onFulfilled: bool, onRejected: bool)
    requires Inv(s) && p < |s.promises| && Held(s, {})
    ensures Held(CallThen(s, p, onFulfilled, onRejected), {})
  {
    var d := Deferred(p, onFulfilled, onRejected, |s.promises|);
    var s1 := Register(s, p, d);
    StoreGrown(s, s1, Owned(|s.resolvers|));
    RegisterHeld(s, p, d);
    hide Tokens, Recorded, Ordered, Chains, Held;
    HandleAtHeld(s1, s1.root[p], d, {d.promise});
    assert {d.promise} - {d.promise} == {};
  }

  lemma DoHeld(s: State, c: Call)
    requires Inv(s) && Enabled(s, c) && Held(s, {})
    ensures Held(Do(s, c), {})
  {
    hide Inv, Resolve, Settle, Held, RunJob, CallThen;
    match c
    case New =>
      HeldSized(s, {});
      CreateHeld(s);
    case Then(p, onFulfilled, onRejected) => ThenHeld(s, p, onFulfilled, onRejected);
    case CallResolve(i, v) =>
      if !s.resolvers[i].done {
        SpendInv(s, i);
        SpendHeld(s, i);
        ResolveHeld(Spend(s, i), s.resolvers[i].target, v);
      }
    case CallReject(i, reason) =>
      if !s.resolvers[i].done {
        SpendInv(s, i);
        SpendHeld(s, i);
        SettleHeld(Spend(s, i), s.resolvers[i].target, Rejected(reason));
      }
    case RunNext => RunJobHeld(s);
    case Returned(j, v) =>
      FinishInv(s, j);
      FinishHeld(s, j);
      ResolveHeld(Finish(s, j), s.scheduled[j].d.promise, v);
    case Threw(j, error) =>
      FinishInv(s, j);
      FinishHeld(s, j);
      SettleHeld(Finish(s, j), s.scheduled[j].d.promise, Rejected(error));
  }

  lemma HeldSized(s: State, except: set<nat>)
    requires Held(s, except)
    ensures |s.place| == |s.promises|
  {
  }

  lemma {:induction false} RunHeld(s: State, calls: seq<Call>)
    requires Inv(s) && CanRun(s, calls) && Held(s, {})
    ensures Held(Run(s, calls), {})
    decreases |calls|
  {
    hide Inv, Do, Enabled, Held;
    if calls != [] {
      DoInv(s, calls[0]);
      DoHeld(s, calls[0]);
      RunHeld(Do(s, calls[0]), calls[1..]);
    }
  }

  /** In every reachable state each pending promise has somebody left who can settle it. */
  lemma NeverForgotten(calls: seq<Call>, p: nat)
    requires CanRun(INIT, calls) && IsPending(Run(INIT, calls), p)
    ensures p < |Run(INIT, calls).place| && HeldAt(Run(INIT, calls), p)
  {
    InitInv();
    assert Held(INIT, {});
    RunHeld(INIT, calls);
    hide Run, CanRun, HeldAt;
  }

  // ---- every callback runs ----

  /** The jobs whose callbacks have returned or thrown in a run. */
  ghost function Ended(calls: seq<Call>): set<nat> {
    set k | 0 <= k < |calls| && (calls[k].Returned? || calls[k].Threw?) :: calls[k].j
  }

  ghost predicate BegunAt(s: State, ended: set<nat>, j: nat)
    requires j < |s.scheduled|
  {
    s.scheduled[j].Handle? ==>
      var e, d := s.scheduled[j].settled, s.scheduled[j].d;
      e < |s.promises| && (j in s.running + ended <==> CallsBack(s.promises[e].status, d))
  }

  /** Of the jobs begun, exactly those with a callback for the outcome have it running or ended; none has it twice. */
  ghost predicate Begun(s: State, ended: set<nat>) {
    s.started <= |s.scheduled| && (forall j: nat :: j < s.started ==> BegunAt(s, ended, j))
    && s.running * ended == {} && forall j :: j in ended ==> j < s.started
  }

  /** A call that starts no job, ends at most one, and changes no settled status. */
  lemma BegunStays(s: State, s1: State, ended: set<nat>, ended1: set<nat>)
    requires Inv(s) && Begun(s, ended) && Keeps(s, s1) && s1.started == s.started
    requires s1.running + ended1 == s.running + ended && s1.running * ended1 == {}
    requires forall j :: j in ended1 ==> j < s.started
    ensures Begun(s1, ended1)
  {
    forall j: nat | j < s1.started ensures BegunAt(s1, ended1, j) {
      assert BegunAt(s, ended, j) && s1.scheduled[j] == s.scheduled[j];
      if s.scheduled[j].Handle? {
        SettledAlready(s, j);
      }
    }
  }

  lemma SettledAlready(s: State, j: nat)
    requires Inv(s) && j < |s.scheduled| && s.scheduled[j].Handle?
    ensures s.scheduled[j].settled < |s.promises| && !IsPending(s, s.scheduled[j].settled)
  {
    JobSettled(s, j);
    hide Inv;
  }

  lemma DoBegun(s: State, c: Call, ended: set<nat>)
    requires Inv(s) && Enabled(s, c) && Begun(s, ended)
    ensures Begun(Do(s, c), ended + Ended([c]))
  {
    DoKeeps(s, c);
    EndedOne(c);
    if c.RunNext? {
      NextBegun(s, ended);
    } else {
      CallStarts(s, c);
      hide Inv, Do, Enabled, Keeps, BegunAt;
      if c.Returned? || c.Threw? {
        RunningJob(s, c);
      }
      BegunStays(s, Do(s, c), ended, ended + Ended([c]));
    }
  }

  lemma EndedOne(c: Call)
    ensures Ended([c]) == if c.Returned? || c.Threw? then {c.j} else {}
  {
    if c.Returned? || c.Threw? {
      assert [c][0] == c;
    }
  }

  lemma RunningJob(s: State, c: Call)
    requires Inv(s) && Enabled(s, c) && (c.Returned? || c.Threw?)
    ensures c.j in s.running && c.j < s.started
  {
  }

  /** Only the next job starts; only a callback that returns or throws stops running. */
  lemma CallStarts(s: State, c: Call)
    requires Inv(s) && Enabled(s, c) && !c.RunNext?
    ensures Do(s, c).started == s.started
    ensures Do(s, c).running == s.running - Ended([c])
  {
    EndedOne(c);
    hide Inv, Resolve, Reject, Settle;
    match c
    case New =>
    case Then(p, onFulfilled, onRejected) => ThenStarts(s, p, onFulfilled, onRejected);
    case CallResolve(i, v) =>
      if !s.resolvers[i].done {
        SpendInv(s, i);
        ResolveStarts(Spend(s, i), s.resolvers[i].target, v);
      }
    case CallReject(i, reason) =>
      if !s.resolvers[i].done {
        SpendInv(s, i);
        RejectStarts(Spend(s, i), s.resolvers[i].target, reason);
      }
    case Returned(j, v) =>
      FinishInv(s, j);
      ResolveStarts(Finish(s, j), s.scheduled[j].d.promise, v);
    case Threw(j, error) =>
      FinishInv(s, j);
      RejectStarts(Finish(s, j), s.scheduled[j].d.promise, error);
  }

  lemma ThenStarts(s: State, p: nat, onFulfilled: bool, onRejected: bool)
    requires Inv(s) && p < |s.promises|
    ensures CallThen(s, p, onFulfilled, onRejected).started == s.started
    ensures CallThen(s, p, onFulfilled, onRejected).running == s.running
  {
    var d := Deferred(p, onFulfilled, onRejected, |s.promises|);
    StoreGrown(s, Register(s, p, d), Owned(|s.resolvers|));
    hide Tokens, Recorded, Ordered, Chains;
  }

  lemma NextBegun(s: State, ended: set<nat>)
    requires Inv(s) && Enabled(s, RunNext) && Begun(s, ended) && Keeps(s, RunJob(s))
    ensures Begun(RunJob(s), ended + Ended([RunNext]))
  {
    EndedOne(RunNext);
    assert ended + {} == ended;
    var s1, n := RunJob(s), s.started;
    NextStarts(s);
    RunningStarted(s);
    forall j: nat | j < s1.started ensures BegunAt(s1, ended, j) {
      if s.scheduled[j].Handle? {
        SettledAlready(s, j);
      }
      if j < n {
        assert BegunAt(s, ended, j);
      }
    }
  }

  lemma RunningStarted(s: State)
    requires Inv(s)
    ensures forall j :: j in s.running ==> j < s.started
  {
  }

  lemma NextStarts(s: State)
    requires Inv(s) && Enabled(s, RunNext)
    ensures var s1, n := RunJob(s), s.started;
      s1.started == n + 1 && s.scheduled <= s1.scheduled
      && (forall j :: j in s1.running <==> j in s.running || (j == n && n in s1.running))
      && if s.scheduled[n].Handle? then
           s.scheduled[n].settled < |s.promises|
           && (n in s1.running <==> CallsBack(s.promises[s.scheduled[n].settled].status, s.scheduled[n].d))
         else n !in s1.running
  {
    DoKeeps(s, RunNext);
    RunningStarted(s);
    hide Inv, Resolve, Reject, Settle;
    if s.scheduled[s.started].Handle? {
      JobOutcome(s);
    }
  }

  lemma EndedCons(calls: seq<Call>)
    requires calls != []
    ensures Ended(calls) == Ended([calls[0]]) + Ended(calls[1..])
  {
    EndedOne(calls[0]);
    forall j | j in Ended(calls) ensures j in Ended([calls[0]]) + Ended(calls[1..]) {
      var k :| 0 <= k < |calls| && (calls[k].Returned? || calls[k].Threw?) && calls[k].j == j;
      if k > 0 {
        assert calls[1..][k - 1] == calls[k];
      }
    }
    forall j | j in Ended(calls[1..]) ensures j in Ended(calls) {
      var k :| 0 <= k < |calls[1..]| && (calls[1..][k].Returned? || calls[1..][k].Threw?) && calls[1..][k].j == j;
      assert calls[k + 1] == calls[1..][k];
    }
  }

  lemma {:induction false} RunBegun(s: State, calls: seq<Call>, ended: set<nat>)
    requires Inv(s) && CanRun(s, calls) && Begun(s, ended)
    ensures Begun(Run(s, calls), ended + Ended(calls))
    decreases |calls|
  {
    hide Inv, Do, Enabled, Begun, Ended;
    if calls == [] {
      NothingEnded();
      assert ended + {} == ended;
    } else {
      DoInv(s, calls[0]);
      DoBegun(s, calls[0], ended);
      EndedCons(calls);
      RunBegun(Do(s, calls[0]), calls[1..], ended + Ended([calls[0]]));
      assert ended + Ended([calls[0]]) + Ended(calls[1..]) == ended + Ended(calls);
    }
  }

  lemma NothingEnded()
    ensures Ended([]) == {}
  {
  }

  lemma NotEnded(s: State, ended: set<nat>, j: nat)
    requires Begun(s, ended) && j in s.running
    ensures j !in ended
  {
    assert j in s.running * ended <==> j in ended;
  }

  /** A callback that has ended does not end again. */
  lemma {:induction false} NeverAgain(s: State, calls: seq<Call>, ended: set<nat>, j: nat)
    requires Inv(s) && CanRun(s, calls) && Begun(s, ended) && j in ended
    ensures j !in Ended(calls)
    decreases |calls|
  {
    if calls != [] {
      EndedOne(calls[0]);
      EndedCons(calls);
      DoInv(s, calls[0]);
      DoBegun(s, calls[0], ended);
      if calls[0].Returned? || calls[0].Threw? {
        RunningJob(s, calls[0]);
        NotEnded(s, ended, calls[0].j);
      }
      hide Inv, Do, Begun, Enabled;
      assert j !in Ended([calls[0]]);
      NeverAgain(Do(s, calls[0]), calls[1..], ended + Ended([calls[0]]), j);
    }
  }

  /** In every run: a job that has begun runs its callback, or has run it to its end, if and only if the promise that it
      is for has a callback for its outcome (Promises/A+, sections 2.2.2 and 2.2.3). */
  lemma CallbacksRun(calls: seq<Call>, j: nat)
    requires CanRun(INIT, calls) && j < Run(INIT, calls).started
    ensures var s := Run(INIT, calls);
      Inv(s) && j < |s.scheduled| && (s.scheduled[j].Handle? ==>
        var e, d := s.scheduled[j].settled, s.scheduled[j].d;
        e < |s.promises| && d.on < |s.promises| && e == Chase(s, d.on)
        && (j in s.running || j in Ended(calls) <==> CallsBack(s.promises[e].status, d)))
      && !(j in s.running && j in Ended(calls))
  {
    InitInv();
    assert Begun(INIT, {});
    RunBegun(INIT, calls, {});
    RunKeeps(INIT, calls);
    assert {} + Ended(calls) == Ended(calls);
    var s := Run(INIT, calls);
    hide Run, CanRun, Inv;
    assert BegunAt(s, Ended(calls), j);
    if s.scheduled[j].Handle? {
      JobSettled(s, j);
    }
  }

  /** No callback ends twice in a run. */
  lemma EndsOnce(calls: seq<Call>, i: nat, k: nat)
    requires CanRun(INIT, calls) && i < k < |calls|
    requires calls[i].Returned? || calls[i].Threw?
    requires calls[k].Returned? || calls[k].Threw?
    ensures calls[i].j != calls[k].j
  {
    InitInv();
    assert Begun(INIT, {});
    EndsOnceFrom(INIT, calls, {}, i, k);
  }

  lemma {:induction false} EndsOnceFrom(s: State, calls: seq<Call>, ended: set<nat>, i: nat, k: nat)
    requires Inv(s) && CanRun(s, calls) && Begun(s, ended) && i < k < |calls|
    requires calls[i].Returned? || calls[i].Threw?
    requires calls[k].Returned? || calls[k].Threw?
    ensures calls[i].j != calls[k].j
    decreases |calls|
  {
    hide *;
    RunHead(s, calls);
    DoBegun(s, calls[0], ended);
    EndedOne(calls[0]);
    var more, rest := ended + Ended([calls[0]]), calls[1..];
    assert rest[k - 1] == calls[k];
    if i == 0 {
      NeverAgain(Do(s, calls[0]), rest, more, calls[0].j);
      InEnded(rest, k - 1);
    } else {
      assert rest[i - 1] == calls[i];
      EndsOnceFrom(Do(s, calls[0]), rest, more, i - 1, k - 1);
    }
  }

  lemma RunHead(s: State, calls: seq<Call>)
    requires Inv(s) && CanRun(s, calls) && calls != []
    ensures Enabled(s, calls[0]) && Inv(Do(s, calls[0])) && CanRun(Do(s, calls[0]), calls[1..])
  {
    hide Inv, Do, Enabled;
    DoInv(s, calls[0]);
  }

  lemma InEnded(calls: seq<Call>, k: nat)
    requires k < |calls| && (calls[k].Returned? || calls[k].Threw?)
    ensures calls[k].j in Ended(calls)
  {
  }

  // ---- what is reported ----

  /** A `then` call was handed over to the settled promise `p`. */
  predicate HasJob(s: State, p: nat) {
    exists j :: 0 <= j < |s.scheduled| && JobFor(s, j, p)
  }

  predicate JobFor(s: State, j: nat, p: nat) {
    j < |s.scheduled| && s.scheduled[j].Handle? && s.scheduled[j].settled == p
  }

  predicate Checked(s: State, p: nat) {
    CheckUnhandled(p) in s.scheduled
  }

  /** A promise is marked as handled exactly if a `then` call was handed over to it. */
  ghost predicate Noticed(s: State) {
    forall p: nat :: p < |s.promises| ==> (s.promises[p].handled <==> HasJob(s, p))
  }

  lemma SameJobs(s: State, s1: State)
    requires s1.scheduled == s.scheduled
    ensures forall p: nat :: HasJob(s1, p) <==> HasJob(s, p)
  {
    forall p: nat ensures HasJob(s1, p) <==> HasJob(s, p) {
      assert forall j: nat :: JobFor(s1, j, p) <==> JobFor(s, j, p);
    }
  }

  lemma MoreJobs(s: State, s1: State, job: Job)
    requires s1.scheduled == s.scheduled + [job]
    ensures forall p: nat :: HasJob(s1, p) <==> HasJob(s, p) || (job.Handle? && job.settled == p)
  {
    forall p: nat ensures HasJob(s1, p) <==> HasJob(s, p) || (job.Handle? && job.settled == p) {
      var n := |s.scheduled|;
      assert forall j: nat :: j < n ==> (JobFor(s1, j, p) <==> JobFor(s, j, p));
      assert JobFor(s1, n, p) <==> job.Handle? && job.settled == p;
    }
  }

  lemma HandleAtNoticed(s: State, r: nat, d: Deferred)
    requires Store(s) && r < |s.promises| && d.promise < |s.promises| && Noticed(s)
    ensures Noticed(HandleAt(s, r, d))
  {
    hide Chains, HasJob;
    if IsPending(s, r) {
      SameJobs(s, HandleAt(s, r, d));
    } else {
      MoreJobs(s, HandleAt(s, r, d), Handle(r, d));
    }
  }

  lemma {:induction false} HandleAllNoticed(s: State, e: nat, ds: seq<Deferred>)
    requires Store(s) && e < |s.promises| && Known(s, ds) && Noticed(s)
    ensures Noticed(HandleAll(s, e, ds))
    decreases |ds|
  {
    hide Chains, Lists, Chase, HandleAt, Noticed;
    if ds != [] {
      HandleAtNoticed(s, s.root[e], ds[0]);
      HandleAllNoticed(HandleOn(s, e, ds[0]), e, ds[1..]);
    }
  }

  /** What leaves the jobs and the marks alone. */
  lemma SameNoticed(s: State, s1: State)
    requires Noticed(s) && s1.scheduled == s.scheduled && |s1.promises| == |s.promises|
    requires forall p :: 0 <= p < |s.promises| ==> s1.promises[p].handled == s.promises[p].handled
    ensures Noticed(s1)
  {
    hide HasJob;
    SameJobs(s, s1);
  }

  lemma {:induction false} SettleNoticed(s: State, e: nat, status: Status)
    requires Inv(s) && IsPending(s, e) && Free(s, s.place[e]) && !status.Pending? && Noticed(s)
    requires status.Adopted? ==> status.to < |s.promises| && s.root[status.to] != e
    ensures Known(s, List(s, e)) && Noticed(Settle(s, e, status))
  {
    ListKnown(s, e, status);
    LeftStore(s, e, status);
    hide Tokens, Recorded, Ordered, Chains, HasJob;
    SameNoticed(s, Left(s, e, status));
    hide Noticed, Left, List, Finale;
    FinaleNoticed(Left(s, e, status), e, List(s, e));
  }

  lemma ListKnown(s: State, e: nat, status: Status)
    requires Inv(s) && IsPending(s, e) && Free(s, s.place[e]) && !status.Pending?
    requires status.Adopted? ==> status.to < |s.promises| && s.root[status.to] != e
    ensures Known(s, List(s, e))
  {
    SettleInv(s, e, status);
    hide Inv, Settle, SettledAs;
  }

  lemma FinaleNoticed(s: State, e: nat, ds: seq<Deferred>)
    requires Store(s) && e < |s.promises| && !IsPending(s, e) && Known(s, ds) && Noticed(s)
    ensures Noticed(Finale(s, e, ds))
  {
    hide Chains, Chase, HandleAll, Noticed;
    var s1 := Announce(s, e, ds);
    AnnounceNoticed(s, e, ds);
    StoreKept(s, s1);
    HandleAllNoticed(s1, e, ds);
    HandleAllIs(s1, e, ds);
    SameNoticed(HandleAll(s1, e, ds), Discard(HandleAll(s1, e, ds), e));
  }

  lemma AnnounceNoticed(s: State, e: nat, ds: seq<Deferred>)
    requires e < |s.promises| && Noticed(s)
    ensures Noticed(Announce(s, e, ds))
  {
    hide HasJob;
    if s.promises[e].status.Rejected? && ds == [] {
      MoreJobs(s, Announce(s, e, ds), CheckUnhandled(e));
    }
  }

  lemma ResolveNoticed(s: State, e: nat, v: Resolution)
    requires Inv(s) && IsPending(s, e) && Free(s, s.place[e]) && Allowed(s, e, v) && Noticed(s)
    ensures Noticed(Resolve(s, e, v))
  {
    PlaceSized(s);
    hide Inv, Settle, Noticed;
    match v
    case Datum(x) => SettleNoticed(s, e, Fulfilled(x));
    case PromiseRef(n) =>
      if n == e { SettleNoticed(s, e, Rejected(SELF_RESOLUTION)); } else { SettleNoticed(s, e, Adopted(n)); }
    case Thenable => SameNoticed(s, Assimilate(s, e));
    case ThenThrows(error) => SettleNoticed(s, e, Rejected(error));
  }

  lemma PlaceSized(s: State)
    requires Inv(s)
    ensures |s.place| == |s.promises|
  {
  }

  lemma GrownNoticed(s: State, s1: State)
    requires Inv(s) && Noticed(s) && s1.scheduled == s.scheduled
    requires s1.promises == s.promises + [Promise(Pending, false, Some([]))]
    ensures Noticed(s1)
  {
    NoJobYet(s);
    hide HasJob, Inv;
    SameJobs(s, s1);
  }

  lemma NoJobYet(s: State)
    requires Inv(s)
    ensures !HasJob(s, |s.promises|)
  {
    forall j: nat | j < |s.scheduled| ensures !JobFor(s, j, |s.promises|) {
      if s.scheduled[j].Handle? {
        JobSettled(s, j);
      }
    }
  }

  lemma DoNoticed(s: State, c: Call)
    requires Inv(s) && Enabled(s, c) && Noticed(s)
    ensures Noticed(Do(s, c))
  {
    hide Inv, Resolve, Settle, Noticed, CallThen;
    match c
    case New => GrownNoticed(s, Create(s));
    case Then(p, onFulfilled, onRejected) => ThenNoticed(s, p, onFulfilled, onRejected);
    case CallResolve(i, v) =>
      if !s.resolvers[i].done {
        SpendInv(s, i);
        SameNoticed(s, Spend(s, i));
        ResolveNoticed(Spend(s, i), s.resolvers[i].target, v);
      }
    case CallReject(i, reason) =>
      if !s.resolvers[i].done {
        SpendInv(s, i);
        SameNoticed(s, Spend(s, i));
        SettleNoticed(Spend(s, i), s.resolvers[i].target, Rejected(reason));
      }
    case RunNext => RunJobNoticed(s);
    case Returned(j, v) =>
      FinishInv(s, j);
      SameNoticed(s, Finish(s, j));
      ResolveNoticed(Finish(s, j), s.scheduled[j].d.promise, v);
    case Threw(j, error) =>
      FinishInv(s, j);
      SameNoticed(s, Finish(s, j));
      SettleNoticed(Finish(s, j), s.scheduled[j].d.promise, Rejected(error));
  }

  lemma RunJobNoticed(s: State)
    requires Inv(s) && s.started < |s.scheduled| && Noticed(s)
    ensures Noticed(RunJob(s))
  {
    hide Inv, Resolve, Settle, Noticed;
    StartInv(s, false);
    SameNoticed(s, Start(s, false));
    SameNoticed(s, Start(s, true));
    if s.scheduled[s.started].Handle? {
      var e, d := s.scheduled[s.started].settled, s.scheduled[s.started].d;
      JobSettled(s, s.started);
      match s.promises[e].status {
        case Fulfilled(v) => if !d.onFulfilled { ResolveNoticed(Start(s, false), d.promise, Datum(v)); }
        case Rejected(reason) => if !d.onRejected { SettleNoticed(Start(s, false), d.promise, Rejected(reason)); }
      }
    }
  }

  lemma ThenNoticed(s: State, p: nat, onFulfilled: bool, onRejected: bool)
    requires Inv(s) && p < |s.promises| && Noticed(s)
    ensures Noticed(CallThen(s, p, onFulfilled, onRejected))
  {
    var d := Deferred(p, onFulfilled, onRejected, |s.promises|);
    var s1 := Register(s, p, d);
    StoreGrown(s, s1, Owned(|s.resolvers|));
    GrownNoticed(s, s1);
    hide Tokens, Recorded, Ordered, Chains, Noticed;
    HandleAtNoticed(s1, s1.root[p], d);
  }

  lemma {:induction false} RunNoticed(s: State, calls: seq<Call>)
    requires Inv(s) && CanRun(s, calls) && Noticed(s)
    ensures Noticed(Run(s, calls))
    decreases |calls|
  {
    hide Inv, Do, Enabled, Noticed;
    if calls != [] {
      DoInv(s, calls[0]);
      DoNoticed(s, calls[0]);
      RunNoticed(Do(s, calls[0]), calls[1..]);
    }
  }

  /** In every run: the next job reports a rejection if and only if it is a check of a promise to which no `then` call was
      handed over, and then it reports the reason of that promise. */
  lemma ReportedExactly(calls: seq<Call>, effect: Effect)
    requires CanRun(INIT, calls)
    ensures Inv(Run(INIT, calls))
    ensures var s := Run(INIT, calls);
      s.started < |s.scheduled| && Performs(s, effect) ==> ReportIs(s, s.scheduled[s.started], effect)
  {
    InitInv();
    assert Noticed(INIT);
    RunKeeps(INIT, calls);
    RunNoticed(INIT, calls);
    var s := Run(INIT, calls);
    hide Run, CanRun, Inv, HasJob;
    if s.started < |s.scheduled| {
      if s.scheduled[s.started].CheckUnhandled? {
        CheckRejected(s, s.started);
      } else {
        JobSettled(s, s.started);
      }
    }
  }

  /** A report is made by the check of a promise without handler only, and it carries the reason of that promise. */
  predicate ReportIs(s: State, job: Job, effect: Effect) {
    (effect.ReportsUnhandled? <==> job.CheckUnhandled? && !HasJob(s, job.p))
    && (job.CheckUnhandled? ==> RejectedAt(s, job.p))
    && (effect.ReportsUnhandled? && job.CheckUnhandled? ==> effect.rejection == s.promises[job.p].status.reason)
  }

  /** A rejection is to be checked exactly if nobody waited for it. */
  lemma {:induction false} SettleChecks(s: State, e: nat, status: Status)
    requires Inv(s) && IsPending(s, e) && Free(s, s.place[e]) && !status.Pending?
    requires status.Adopted? ==> status.to < |s.promises| && s.root[status.to] != e
    ensures Known(s, List(s, e))
    ensures Checked(Settle(s, e, status), e) <==> status.Rejected? && List(s, e) == []
  {
    SettleInv(s, e, status);
    var ds, r := List(s, e), if status.Adopted? then s.root[status.to] else e;
    NotCheckedYet(s, e);
    QueueAllAt(r, ds);
    hide Inv, Settle, QueueAll, List;
  }

  lemma NotCheckedYet(s: State, e: nat)
    requires Inv(s) && IsPending(s, e)
    ensures !Checked(s, e)
  {
    if Checked(s, e) {
      var j :| 0 <= j < |s.scheduled| && s.scheduled[j] == CheckUnhandled(e);
      CheckRejected(s, j);
    }
  }
}
