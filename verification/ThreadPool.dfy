/** The audio engine's thread pool as interleaved steps. A step is what happens under one hold of the mutex, the end of
    a task, or a wakeup that nobody asked for. */
module ThreadPool {
  import opened Common

  /** Tasks are told apart by a number. */
  type Task = nat

  /** `Awake`: about to take the mutex at the head of `threadFunc`'s loop. `Asleep`: in `wait`. */
  datatype Worker = Awake | Asleep | Running(task: Task) | Exited

  datatype State = State(
    workers: seq<Worker>,
    taskQueue: seq<Task>,
    stop: bool,
    // history: the tasks in the order they were added, begun and ended
    added: seq<Task>,
    started: seq<Task>,
    finished: seq<Task>)

  datatype Event =
    | AddTask(task: Task, notified: Option<nat>)
    | Turn(worker: nat)
    | Finish(worker: nat)
    | SpuriousWakeup(worker: nat)
    | Stop

  // ---- the steps ----

  predicate Sleeps(s: State, w: nat) {
    w < |s.workers| && s.workers[w].Asleep?
  }

  predicate SomeAsleep(s: State) {
    exists w :: 0 <= w < |s.workers| && Sleeps(s, w)
  }

  /** `notify_one` wakes one sleeper, whichever, and nobody if there is none. */
  predicate Enabled(s: State, e: Event) {
    match e
    case AddTask(_, None) => !SomeAsleep(s)
    case AddTask(_, Some(w)) => Sleeps(s, w)
    case Turn(w) => w < |s.workers| && s.workers[w].Awake?
    case Finish(w) => w < |s.workers| && s.workers[w].Running?
    case SpuriousWakeup(w) => Sleeps(s, w)
    case Stop => !s.stop
  }

  /** `notify_all` */
  function WakeAll(workers: seq<Worker>): seq<Worker> {
    seq(|workers|, i requires 0 <= i < |workers| => if workers[i].Asleep? then Awake else workers[i])
  }

  function Step(s: State, e: Event): State
    requires Enabled(s, e)
  {
    match e
    case AddTask(task, notified) =>
      s.(taskQueue := s.taskQueue + [task], added := s.added + [task],
         workers := if notified.Some? then s.workers[notified.value := Awake] else s.workers)
    case Turn(w) =>
      if s.stop then s.(workers := s.workers[w := Exited])
      else if s.taskQueue != [] then
        s.(workers := s.workers[w := Running(s.taskQueue[0])], taskQueue := s.taskQueue[1..],
           started := s.started + [s.taskQueue[0]])
      else s.(workers := s.workers[w := Asleep])
    case Finish(w) => s.(workers := s.workers[w := Awake], finished := s.finished + [s.workers[w].task])
    case SpuriousWakeup(w) => s.(workers := s.workers[w := Awake])
    case Stop => s.(stop := true, workers := WakeAll(s.workers))
  }

  /** The constructor starts its threads, and none has slept yet. */
  function Init(threads: nat): State {
    State(seq(threads, _ => Awake), [], false, [], [], [])
  }

  // ---- counting workers ----

  function AwakeCount(ws: seq<Worker>): nat {
    if ws == [] then 0 else OneAwake(ws[0]) + AwakeCount(ws[1..])
  }

  /** The tasks that are running. */
  function InHand(ws: seq<Worker>): multiset<Task> {
    if ws == [] then multiset{} else OneInHand(ws[0]) + InHand(ws[1..])
  }

  function OneAwake(w: Worker): nat {
    if w.Awake? then 1 else 0
  }

  function OneInHand(w: Worker): multiset<Task> {
    if w.Running? then multiset{w.task} else multiset{}
  }

  lemma {:induction false} AwakeUpdate(ws: seq<Worker>, i: nat, w: Worker)
    requires i < |ws|
    ensures AwakeCount(ws[i := w]) == AwakeCount(ws) - OneAwake(ws[i]) + OneAwake(w)
  {
    if i > 0 {
      assert ws[i := w][1..] == ws[1..][i - 1 := w];
      AwakeUpdate(ws[1..], i - 1, w);
    } else {
      assert ws[0 := w][1..] == ws[1..];
    }
  }

  lemma {:induction false} InHandUpdate(ws: seq<Worker>, i: nat, w: Worker)
    requires i < |ws|
    ensures InHand(ws[i := w]) + OneInHand(ws[i]) == InHand(ws) + OneInHand(w)
  {
    hide OneInHand;
    var ms, head, rest := ws[i := w], OneInHand(ws[0]), InHand(ws[1..]);
    InHandFirst(ws);
    InHandFirst(ms);
    hide InHand;
    if i > 0 {
      assert ms[0] == ws[0] && ms[1..] == ws[1..][i - 1 := w] && ws[1..][i - 1] == ws[i];
      InHandUpdate(ws[1..], i - 1, w);
      Regroup(head, InHand(ms[1..]), OneInHand(ws[i]), rest, OneInHand(w));
    } else {
      assert ms[0] == w && ms[1..] == ws[1..];
    }
  }

  lemma InHandFirst(ws: seq<Worker>)
    requires ws != []
    ensures InHand(ws) == OneInHand(ws[0]) + InHand(ws[1..])
  {
  }

  lemma Regroup(a: multiset<Task>, b: multiset<Task>, c: multiset<Task>, d: multiset<Task>, e: multiset<Task>)
    requires b + c == d + e
    ensures (a + b) + c == (a + d) + e
  {
    assert (a + b) + c == a + (b + c);
    assert (a + d) + e == a + (d + e);
  }

  lemma CountsUpdate(ws: seq<Worker>, i: nat, w: Worker)
    requires i < |ws|
    ensures AwakeCount(ws[i := w]) == AwakeCount(ws) - OneAwake(ws[i]) + OneAwake(w)
    ensures InHand(ws[i := w]) + OneInHand(ws[i]) == InHand(ws) + OneInHand(w)
  {
    AwakeUpdate(ws, i, w);
    InHandUpdate(ws, i, w);
  }

  lemma {:induction false} WakeAllCounts(ws: seq<Worker>)
    ensures InHand(WakeAll(ws)) == InHand(ws)
  {
    if ws != [] {
      assert WakeAll(ws)[1..] == WakeAll(ws[1..]);
      WakeAllCounts(ws[1..]);
    }
  }

  lemma {:induction false} AwakeOne(ws: seq<Worker>) returns (w: nat)
    requires AwakeCount(ws) > 0
    ensures w < |ws| && ws[w].Awake?
  {
    if ws[0].Awake? {
      w := 0;
    } else {
      w := AwakeOne(ws[1..]);
      w := w + 1;
    }
  }

  // ---- the invariant ----

  /** No wakeup is lost: while a worker sleeps, every queued task has an awake, idle worker that will come for it. */
  predicate NoLostWakeup(s: State) {
    !s.stop && SomeAsleep(s) ==> |s.taskQueue| <= AwakeCount(s.workers)
  }

  /** After the stop no worker sleeps, and before it none has left. */
  predicate Stopping(s: State) {
    if s.stop then !SomeAsleep(s) else forall w :: 0 <= w < |s.workers| ==> !s.workers[w].Exited?
  }

  /** Tasks are begun in the order they were added, each once; the ones begun are running or done. */
  predicate Conserved(s: State) {
    s.started + s.taskQueue == s.added
    && multiset(s.started) == multiset(s.finished) + InHand(s.workers)
  }

  predicate Inv(s: State) {
    NoLostWakeup(s) && Stopping(s) && Conserved(s)
  }

  lemma {:induction false} InitCounts(threads: nat)
    ensures InHand(Init(threads).workers) == multiset{}
  {
    if threads > 0 {
      assert Init(threads).workers[1..] == Init(threads - 1).workers;
      InitCounts(threads - 1);
    }
  }

  lemma InitInv(threads: nat)
    ensures Inv(Init(threads))
  {
    InitCounts(threads);
  }

  /** One worker changes, and no other falls asleep. */
  lemma OthersSleep(s: State, t: State, w: nat)
    requires w < |s.workers| == |t.workers| && t.workers == s.workers[w := t.workers[w]] && !t.workers[w].Asleep?
    ensures SomeAsleep(t) ==> SomeAsleep(s)
  {
    assert forall v :: 0 <= v < |s.workers| && Sleeps(t, v) ==> Sleeps(s, v);
  }

  lemma StepKeepsWakeups(s: State, e: Event)
    requires Enabled(s, e) && NoLostWakeup(s) && Stopping(s)
    ensures NoLostWakeup(Step(s, e))
  {
    hide AwakeCount, InHand, OneInHand;
    if e.Stop? {
      return;
    }
    hide SomeAsleep, Stopping;
    var t := Step(s, e);
    match e {
      case AddTask(_, None) => SameSleepers(s, t);
      case AddTask(_, Some(w)) =>
        CountsUpdate(s.workers, w, Awake);
        ASleeper(s, w);
      case Turn(w) =>
        CountsUpdate(s.workers, w, t.workers[w]);
        if !t.workers[w].Asleep? {
          OthersSleep(s, t, w);
        }
      case Finish(w) =>
        CountsUpdate(s.workers, w, Awake);
        OthersSleep(s, t, w);
      case SpuriousWakeup(w) =>
        CountsUpdate(s.workers, w, Awake);
        ASleeper(s, w);
    }
  }

  lemma ASleeper(s: State, w: nat)
    requires Sleeps(s, w)
    ensures SomeAsleep(s)
  {
  }

  lemma SameSleepers(s: State, t: State)
    requires s.workers == t.workers
    ensures SomeAsleep(s) == SomeAsleep(t)
  {
    assert forall w: nat :: Sleeps(s, w) == Sleeps(t, w);
  }

  lemma StepKeepsStopping(s: State, e: Event)
    requires Enabled(s, e) && Stopping(s)
    ensures Stopping(Step(s, e))
  {
    var t := Step(s, e);
    if s.stop {
      assert forall w: nat :: Sleeps(t, w) ==> Sleeps(s, w);
    }
  }

  lemma StepConserves(s: State, e: Event)
    requires Enabled(s, e) && Conserved(s)
    ensures Conserved(Step(s, e))
  {
    hide InHand, OneInHand, SomeAsleep;
    match e {
      case AddTask(_, Some(w)) => NobodyWorks(s.workers, w, Awake);
      case AddTask(_, None) =>
      case Turn(w) =>
        if !s.stop && s.taskQueue != [] {
          assert s.started + s.taskQueue == s.started + [s.taskQueue[0]] + s.taskQueue[1..];
          TakeUp(s, w);
        } else {
          NobodyWorks(s.workers, w, Step(s, e).workers[w]);
        }
      case Finish(w) => PutDown(s, w);
      case SpuriousWakeup(w) => NobodyWorks(s.workers, w, Awake);
      case Stop => WakeAllCounts(s.workers);
    }
  }

  lemma NobodyWorks(ws: seq<Worker>, i: nat, w: Worker)
    requires i < |ws| && !ws[i].Running? && !w.Running?
    ensures InHand(ws[i := w]) == InHand(ws)
  {
    hide InHand;
    CountsUpdate(ws, i, w);
    assert InHand(ws[i := w]) + multiset{} == InHand(ws[i := w]);
    assert InHand(ws) + multiset{} == InHand(ws);
  }

  lemma TakeUp(s: State, w: nat)
    requires w < |s.workers| && s.workers[w].Awake? && s.taskQueue != []
    ensures var task := s.taskQueue[0];
      InHand(s.workers[w := Running(task)]) == InHand(s.workers) + multiset{task}
      && multiset(s.started + [task]) == multiset(s.started) + multiset{task}
  {
    hide InHand;
    CountsUpdate(s.workers, w, Running(s.taskQueue[0]));
  }

  lemma PutDown(s: State, w: nat)
    requires w < |s.workers| && s.workers[w].Running?
    ensures var task := s.workers[w].task;
      multiset(s.finished + [task]) + InHand(s.workers[w := Awake]) == multiset(s.finished) + InHand(s.workers)
  {
    hide InHand;
    var task := s.workers[w].task;
    CountsUpdate(s.workers, w, Awake);
    assert InHand(s.workers[w := Awake]) + multiset{task} == InHand(s.workers);
    assert multiset(s.finished + [task]) == multiset(s.finished) + multiset{task};
  }

  // ---- runs ----

  /** The state after a run, if every event of it could happen in its turn. */
  function Run(s: State, es: seq<Event>): Option<State>
    decreases |es|
  {
    if es == [] then Some(s)
    else if Enabled(s, es[0]) then Run(Step(s, es[0]), es[1..])
    else None
  }

  lemma {:induction false} RunKeeps(s: State, es: seq<Event>)
    requires Inv(s) && Run(s, es).Some?
    ensures Inv(Run(s, es).value)
    decreases |es|
  {
    hide Inv;
    if es != [] {
      StepInv(s, es[0]);
      RunKeeps(Step(s, es[0]), es[1..]);
    }
  }

  lemma StepInv(s: State, e: Event)
    requires Enabled(s, e) && Inv(s)
    ensures Inv(Step(s, e))
  {
    hide NoLostWakeup, Stopping, Conserved;
    StepKeepsWakeups(s, e);
    StepKeepsStopping(s, e);
    StepConserves(s, e);
  }

  /** The tasks that a run hands to the pool, in order. */
  function Added(es: seq<Event>): seq<Task> {
    if es == [] then [] else (match es[0] case AddTask(task, _) => [task] case _ => []) + Added(es[1..])
  }

  lemma {:induction false} RunAdds(s: State, es: seq<Event>)
    requires Run(s, es).Some?
    ensures Run(s, es).value.added == s.added + Added(es)
    decreases |es|
  {
    if es == [] {
      assert s.added + [] == s.added;
    } else {
      StepAdds(s, es[0]);
      var first := match es[0] case AddTask(task, _) => [task] case _ => [];
      RunAdds(Step(s, es[0]), es[1..]);
      hide Step, Enabled;
      assert (s.added + first) + Added(es[1..]) == s.added + (first + Added(es[1..]));
    }
  }

  lemma StepAdds(s: State, e: Event)
    requires Enabled(s, e)
    ensures Step(s, e).added == s.added + match e case AddTask(task, _) => [task] case _ => []
  {
    assert s.added + [] == s.added;
  }

  /** In every reachable state: the tasks begun are the first of those that the run has handed in, in that order, and
      the others wait in the queue; no wakeup is lost; nobody sleeps after the stop. */
  lemma Reachable(threads: nat, es: seq<Event>)
    requires Run(Init(threads), es).Some?
    ensures var s := Run(Init(threads), es).value;
      s.started + s.taskQueue == Added(es) && multiset(s.started) == multiset(s.finished) + InHand(s.workers)
      && (!s.stop && SomeAsleep(s) ==> |s.taskQueue| <= AwakeCount(s.workers))
      && (s.stop ==> !SomeAsleep(s))
  {
    InitInv(threads);
    RunKeeps(Init(threads), es);
    RunAdds(Init(threads), es);
    assert [] + Added(es) == Added(es);
  }

  /** Work is never stuck: if a task is queued and a worker is not busy, some worker's next turn takes a task. */
  lemma QueuedIsTaken(s: State, idle: nat) returns (w: nat)
    requires Inv(s) && !s.stop && s.taskQueue != []
    requires idle < |s.workers| && !s.workers[idle].Running?
    ensures Enabled(s, Turn(w)) && Step(s, Turn(w)).started == s.started + [s.taskQueue[0]]
  {
    if s.workers[idle].Awake? {
      w := idle;
    } else {
      assert Sleeps(s, idle);
      w := AwakeOne(s.workers);
    }
  }

  // ---- the queue drains, and the joins return ----

  /** Steps of the workers themselves; the others come from outside. */
  predicate OfWorker(e: Event) {
    e.Turn? || e.Finish?
  }

  function Busy(ws: seq<Worker>): nat {
    |InHand(ws)|
  }

  /** What the workers still have to do, if nothing more comes from outside. */
  function Measure(s: State): nat {
    (if s.stop then 0 else 3 * |s.taskQueue|) + 2 * Busy(s.workers) + AwakeCount(s.workers)
  }

  lemma WorkerStepDecreases(s: State, e: Event)
    requires Enabled(s, e) && OfWorker(e)
    ensures Measure(Step(s, e)) < Measure(s)
  {
    hide InHand, AwakeCount;
    var w := e.worker;
    var a, b := s.workers[w], Step(s, e).workers[w];
    CountsUpdate(s.workers, w, b);
    assert |InHand(s.workers[w := b])| + |OneInHand(a)| == |InHand(s.workers)| + |OneInHand(b)| by {
      hide OneInHand;
      var x, y := InHand(s.workers[w := b]) + OneInHand(a), InHand(s.workers) + OneInHand(b);
      assert |x| == |y|;
    }
  }

  /** Left alone, the workers come to rest after at most `Measure` steps. */
  lemma {:induction false} Rests(s: State, es: seq<Event>)
    requires Run(s, es).Some? && forall i :: 0 <= i < |es| ==> OfWorker(es[i])
    ensures |es| <= Measure(s)
    decreases |es|
  {
    hide Measure, Enabled, OfWorker;
    if es != [] {
      WorkerStepDecreases(s, es[0]);
      Rests(Step(s, es[0]), es[1..]);
    }
  }

  /** At rest before the stop, every task that the run has handed in has been run to its end. */
  lemma RestMeansDone(threads: nat, es: seq<Event>)
    requires threads > 0 && Run(Init(threads), es).Some?
    requires var s := Run(Init(threads), es).value; !s.stop && forall e :: Enabled(s, e) ==> !OfWorker(e)
    ensures var s := Run(Init(threads), es).value;
      s.taskQueue == [] && s.started == Added(es) && multiset(s.finished) == multiset(Added(es))
      && forall w :: 0 <= w < |s.workers| ==> s.workers[w].Asleep?
  {
    var s := Run(Init(threads), es).value;
    Reachable(threads, es);
    InitInv(threads);
    RunKeeps(Init(threads), es);
    RunWorkers(Init(threads), es);
    hide Run;
    AtRest(s);
    assert s.started + [] == s.started;
  }

  lemma {:induction false} RunWorkers(s: State, es: seq<Event>)
    requires Run(s, es).Some?
    ensures |Run(s, es).value.workers| == |s.workers|
    decreases |es|
  {
    if es != [] {
      RunWorkers(Step(s, es[0]), es[1..]);
    }
  }

  lemma AtRest(s: State)
    requires Inv(s) && !s.stop && s.workers != []
    requires forall e :: Enabled(s, e) ==> !OfWorker(e)
    ensures s.taskQueue == [] && InHand(s.workers) == multiset{}
    ensures forall w :: 0 <= w < |s.workers| ==> s.workers[w].Asleep?
  {
    forall w | 0 <= w < |s.workers| ensures s.workers[w].Asleep? {
      assert !Enabled(s, Turn(w)) && !Enabled(s, Finish(w));
    }
    assert Sleeps(s, 0);
    NobodyAwake(s.workers);
  }

  lemma {:induction false} NobodyAwake(ws: seq<Worker>)
    requires forall w :: 0 <= w < |ws| ==> !ws[w].Awake? && !ws[w].Running?
    ensures AwakeCount(ws) == 0 && InHand(ws) == multiset{}
  {
    if ws != [] {
      NobodyAwake(ws[1..]);
    }
  }

  /** At rest after the stop, every thread has left its loop: the joins return. */
  lemma RestMeansJoined(s: State)
    requires Inv(s) && s.stop
    requires forall e :: Enabled(s, e) ==> !OfWorker(e)
    ensures forall w :: 0 <= w < |s.workers| ==> s.workers[w].Exited?
  {
    forall w | 0 <= w < |s.workers| ensures s.workers[w].Exited? {
      assert !Enabled(s, Turn(w)) && !Enabled(s, Finish(w)) && !Sleeps(s, w);
    }
  }

  /** After the stop no task is begun any more, and whatever else happens, the workers take at most two steps each. */
  lemma {:induction false} AfterStop(s: State, es: seq<Event>)
    requires Inv(s) && s.stop && Run(s, es).Some?
    ensures var t := Run(s, es).value; t.stop && t.started == s.started && Measure(t) + WorkerSteps(es) <= Measure(s)
    ensures Measure(s) <= 2 * |s.workers|
    decreases |es|
  {
    MeasureBound(s);
    hide Inv, Measure;
    if es != [] {
      StepInv(s, es[0]);
      AfterStopStep(s, es[0]);
      AfterStop(Step(s, es[0]), es[1..]);
    }
  }

  function WorkerSteps(es: seq<Event>): nat {
    if es == [] then 0 else (if OfWorker(es[0]) then 1 else 0) + WorkerSteps(es[1..])
  }

  lemma AfterStopStep(s: State, e: Event)
    requires Inv(s) && s.stop && Enabled(s, e)
    ensures Step(s, e).stop && Step(s, e).started == s.started
    ensures Measure(Step(s, e)) + (if OfWorker(e) then 1 else 0) <= Measure(s)
  {
    if OfWorker(e) {
      WorkerStepDecreases(s, e);
    } else {
      assert forall w: nat :: Sleeps(s, w) ==> SomeAsleep(s);
    }
  }

  lemma MeasureBound(s: State)
    requires s.stop
    ensures Measure(s) <= 2 * |s.workers|
  {
    CountBound(s.workers);
  }

  lemma {:induction false} CountBound(ws: seq<Worker>)
    ensures 2 * Busy(ws) + AwakeCount(ws) <= 2 * |ws|
  {
    if ws != [] {
      CountBound(ws[1..]);
    }
  }

  // ---- the pool object ----

  /** `AudioEngineThreadPool`. `Turn` is what a worker does under the mutex in one turn of `threadFunc`'s loop. */
  class Pool {
    var workers: seq<Worker>
    var taskQueue: seq<Task>
    var stop: bool
    ghost var added: seq<Task>
    ghost var started: seq<Task>
    ghost var finished: seq<Task>

    ghost function Now(): State
      reads this
    {
      State(workers, taskQueue, stop, added, started, finished)
    }

    constructor (threads: nat := 4)
      ensures Now() == Init(threads) && Inv(Now())
    {
      workers, taskQueue, stop := seq(threads, _ => Awake), [], false;
      added, started, finished := [], [], [];
      InitInv(threads);
    }

    method AddTask(task: Task, notified: Option<nat>)
      requires Inv(Now()) && Enabled(Now(), Event.AddTask(task, notified))
      modifies this
      ensures Now() == Step(old(Now()), Event.AddTask(task, notified)) && Inv(Now())
    {
      StepInv(Now(), Event.AddTask(task, notified));
      hide Inv;
      taskQueue := taskQueue + [task];
      added := added + [task];
      if notified.Some? {
        workers := workers[notified.value := Awake];
      }
    }

    method Turn(w: nat)
      requires Inv(Now()) && Enabled(Now(), Event.Turn(w))
      modifies this
      ensures Now() == Step(old(Now()), Event.Turn(w)) && Inv(Now())
    {
      StepInv(Now(), Event.Turn(w));
      hide Inv;
      if stop {
        workers := workers[w := Exited];
      } else if |taskQueue| != 0 {
        var task := taskQueue[0];
        taskQueue := taskQueue[1..];
        started := started + [task];
        workers := workers[w := Running(task)];
      } else {
        workers := workers[w := Asleep];
      }
    }

    /** The task of a worker ends. */
    method Finish(w: nat)
      requires Inv(Now()) && Enabled(Now(), Event.Finish(w))
      modifies this
      ensures Now() == Step(old(Now()), Event.Finish(w)) && Inv(Now())
    {
      StepInv(Now(), Event.Finish(w));
      hide Inv;
      finished := finished + [workers[w].task];
      workers := workers[w := Awake];
    }

    method WakeSpuriously(w: nat)
      requires Inv(Now()) && Enabled(Now(), SpuriousWakeup(w))
      modifies this
      ensures Now() == Step(old(Now()), SpuriousWakeup(w)) && Inv(Now())
    {
      StepInv(Now(), SpuriousWakeup(w));
      hide Inv;
      workers := workers[w := Awake];
    }

    /** The destructor, up to the joins. */
    method Stop()
      requires Inv(Now()) && Enabled(Now(), Event.Stop)
      modifies this
      ensures Now() == Step(old(Now()), Event.Stop) && Inv(Now())
    {
      StepInv(Now(), Event.Stop);
      hide Inv;
      stop := true;
      workers := WakeAll(workers);
    }
  }
}
