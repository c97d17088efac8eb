/** `process.nextTick`: a queue of tasks drained by timers, which recovers when a task throws. */
module NextTick {
  import opened Common

  type Task = nat

  /** The globals of the polyfill, the timers it has set, whether a task is on the stack, and two records:
      every task ever handed to `nextTick`, and every task ever started. */
  datatype State = State(
    queue: seq<Task>, current: Option<seq<Task>>, index: int, draining: bool,
    drainTimers: nat, cleanupTimers: nat, running: bool,
    submitted: seq<Task>, ran: seq<Task>)

  const INIT := State([], None, -1, false, 0, 0, false, [], [])

  /** A call of `nextTick`, from anywhere, also from inside a task; a timer that fires while no task runs;
      the end of the running task, normal or by an exception. */
  datatype Event = Submit(task: Task) | FireDrain | FireCleanup | TaskReturns | TaskThrows

  predicate Enabled(s: State, e: Event) {
    match e
    case Submit(_) => true
    case FireDrain => !s.running && s.drainTimers > 0
    case FireCleanup => !s.running && s.cleanupTimers > 0
    case TaskReturns => s.running
    case TaskThrows => s.running
  }

  /** The nested loops of `drainQueue` from the increment of `queueIndex` to the start of the next task,
      or to the end of the function. */
  function Proceed(s: State): State
    requires s.current.Some? && s.index >= -1
    decreases |s.queue|
  {
    var i := s.index + 1;
    if i < |s.current.value| then s.(index := i, running := true, ran := s.ran + [s.current.value[i]])
    else if s.queue == [] then
      s.(index := -1, current := None, draining := false, running := false,
         cleanupTimers := if s.cleanupTimers > 0 then s.cleanupTimers - 1 else 0)
    else Proceed(s.(index := -1, current := Some(s.queue), queue := []))
  }

  /** `drainQueue` */
  function Drain(s: State): State
    requires s.index >= -1
  {
    if s.draining then s
    else
      var s1 := s.(cleanupTimers := s.cleanupTimers + 1, draining := true);
      if s.queue == [] then s1.(current := None, draining := false, cleanupTimers := s.cleanupTimers)
      else Proceed(s1.(current := Some(s.queue), queue := []))
  }

  /** `cleanUpNextTick` */
  function CleanUp(s: State): State
    requires s.index >= -1
  {
    if !s.draining || s.current == None then s
    else
      var c := s.current.value;
      var s1 := if c != [] then s.(draining := false, queue := c + s.queue) else s.(draining := false, index := -1);
      if s1.queue != [] then Drain(s1) else s1
  }

  function Step(s: State, e: Event): State
    requires s.index >= -1 && (s.running ==> s.current.Some?) && Enabled(s, e)
  {
    match e
    case Submit(t) =>
      s.(queue := s.queue + [t], submitted := s.submitted + [t],
         drainTimers := if |s.queue| == 0 && !s.draining then s.drainTimers + 1 else s.drainTimers)
    case FireDrain => Drain(s.(drainTimers := s.drainTimers - 1))
    case FireCleanup => CleanUp(s.(cleanupTimers := s.cleanupTimers - 1))
    case TaskReturns => Proceed(s.(running := false))
    case TaskThrows => s.(running := false)
  }

  /** The tasks still to be started, in order. After an exception the old queue still stands in `current`,
      and `queueIndex` says how much of it has been started. */
  function Remaining(s: State): seq<Task> {
    if s.draining && s.current.Some? && 0 <= s.index < |s.current.value|
    then s.current.value[s.index + 1..] + s.queue else s.queue
  }

  /** While draining, a started task is the current one and the clean-up timer is set. Otherwise the drain timer
      is set exactly when there are tasks. No task is ever lost, started twice or started out of order. */
  predicate Inv(s: State) {
    s.submitted == s.ran + Remaining(s)
    && (s.running ==> s.draining)
    && if s.draining
       then s.current.Some? && 0 <= s.index < |s.current.value| && s.cleanupTimers == 1 && s.drainTimers == 0
       else s.current == None && s.index == -1 && s.cleanupTimers == 0
            && s.drainTimers == if s.queue == [] then 0 else 1
  }

  /** Where the loops go on from: all of `current` up to `index` has been started. */
  lemma {:induction false} ProceedRuns(s: State)
    requires s.current.Some? && -1 <= s.index < |s.current.value| && s.draining && s.cleanupTimers == 1
    requires s.drainTimers == 0 && !s.running
    requires s.submitted == s.ran + (s.current.value[s.index + 1..] + s.queue)
    ensures Inv(Proceed(s)) && Proceed(s).submitted == s.submitted
    ensures if s.ran == s.submitted then !Proceed(s).draining && Proceed(s).ran == s.ran
            else Proceed(s).running && Proceed(s).ran == s.submitted[..|s.ran| + 1]
    decreases |s.queue|
  {
    var c, i := s.current.value, s.index + 1;
    if i < |c| {
      assert c[i..] == [c[i]] + c[i + 1..];
      assert s.submitted == (s.ran + [c[i]]) + (c[i + 1..] + s.queue);
    } else if s.queue == [] {
      assert s.submitted == s.ran;
    } else {
      var s1 := s.(index := -1, current := Some(s.queue), queue := []);
      assert s.submitted == s1.ran + (s1.current.value[0..] + []);
      ProceedRuns(s1);
    }
  }

  function TasksOf(e: Event): seq<Task> {
    match e case Submit(t) => [t] case _ => []
  }

  /** The events that must not start a task, or find none to start. */
  predicate Idle(s: State, e: Event) {
    e.Submit? || e.TaskThrows? || s.ran == s.submitted
  }

  ghost predicate Follows(s: State, e: Event, s1: State) {
    Inv(s1) && s1.submitted == s.submitted + TasksOf(e)
    && if Idle(s, e) then s1.ran == s.ran else s1.running && |s.ran| < |s.submitted| && s1.ran == s.submitted[..|s.ran| + 1]
  }

  lemma SubmitFollows(s: State, t: Task)
    requires Inv(s)
    ensures Follows(s, Submit(t), Step(s, Submit(t)))
  {
    var s1, rest := Step(s, Submit(t)), Remaining(s);
    assert Remaining(s1) == rest + [t] by {
      if s.draining {
        var left := s.current.value[s.index + 1..];
        assert left + (s.queue + [t]) == left + s.queue + [t];
      }
    }
    assert s.ran + rest + [t] == s.ran + (rest + [t]);
  }

  /** An event that lets the loops go on starts the next task, or ends the draining. */
  lemma ProceedFollows(s: State, e: Event, t: State)
    requires !e.Submit? && !e.TaskThrows? && t.ran == s.ran && t.submitted == s.submitted
    requires t.current.Some? && -1 <= t.index < |t.current.value| && t.draining && t.cleanupTimers == 1
    requires t.drainTimers == 0 && !t.running
    requires t.submitted == t.ran + (t.current.value[t.index + 1..] + t.queue)
    ensures Follows(s, e, Proceed(t))
  {
    hide Proceed, Inv;
    ProceedRuns(t);
    assert s.submitted + [] == s.submitted;
  }

  lemma DrainFollows(s: State)
    requires Inv(s) && Enabled(s, FireDrain)
    ensures Follows(s, FireDrain, Step(s, FireDrain))
  {
    hide Follows, Proceed;
    assert s.queue[0..] + [] == s.queue;
    ProceedFollows(s, FireDrain,
      s.(drainTimers := 0, cleanupTimers := 1, draining := true, current := Some(s.queue), queue := []));
  }

  lemma CleanupFollows(s: State)
    requires Inv(s) && Enabled(s, FireCleanup)
    ensures Follows(s, FireCleanup, Step(s, FireCleanup))
  {
    hide Follows, Proceed;
    var c, i := s.current.value, s.index;
    var all := c + s.queue;
    var t := s.(cleanupTimers := 1, current := Some(all), queue := []);
    CleanUpIs(s.(cleanupTimers := 0));
    assert all[i + 1..] + [] == c[i + 1..] + s.queue;
    ProceedFollows(s, FireCleanup, t);
  }

  /** After an exception the clean-up puts the old queue in front and goes on where it stopped. */
  lemma CleanUpIs(s: State)
    requires s.draining && s.current.Some? && s.current.value != [] && s.index >= -1
    ensures CleanUp(s)
      == Proceed(s.(cleanupTimers := s.cleanupTimers + 1, current := Some(s.current.value + s.queue), queue := []))
  {
    hide Proceed;
  }

  /** A timer that fires while tasks remain starts exactly the first of them; so does a task that returns.
      An exception leaves the clean-up timer to start it. */
  lemma StepRuns(s: State, e: Event)
    requires Inv(s) && Enabled(s, e)
    ensures Follows(s, e, Step(s, e))
  {
    hide Follows;
    match e
    case Submit(t) => SubmitFollows(s, t);
    case FireDrain => DrainFollows(s);
    case FireCleanup => CleanupFollows(s);
    case TaskReturns => ReturnFollows(s);
    case TaskThrows => ThrowFollows(s);
  }

  lemma ReturnFollows(s: State)
    requires Inv(s) && Enabled(s, TaskReturns)
    ensures Follows(s, TaskReturns, Step(s, TaskReturns))
  {
    hide Follows, Proceed;
    ProceedFollows(s, TaskReturns, s.(running := false));
  }

  lemma ThrowFollows(s: State)
    requires Inv(s) && Enabled(s, TaskThrows)
    ensures Follows(s, TaskThrows, Step(s, TaskThrows))
  {
    assert s.submitted + [] == s.submitted;
  }

  ghost predicate CanRun(s: State, events: seq<Event>)
    requires Inv(s)
    decreases |events|
  {
    events != [] ==> Enabled(s, events[0]) && (StepRuns(s, events[0]); CanRun(Step(s, events[0]), events[1..]))
  }

  ghost function Run(s: State, events: seq<Event>): State
    requires Inv(s) && CanRun(s, events)
    decreases |events|
  {
    if events == [] then s else StepRuns(s, events[0]); Run(Step(s, events[0]), events[1..])
  }

  function Submitted(events: seq<Event>): seq<Task> {
    if events == [] then []
    else TasksOf(events[0]) + Submitted(events[1..])
  }

  lemma InOrder(s: State)
    requires Inv(s)
    ensures s.ran <= s.submitted && (s.ran != s.submitted ==> s.running || s.drainTimers + s.cleanupTimers == 1)
    ensures s.index >= -1 && (s.running ==> s.current.Some?)
  {
  }

  lemma StepGrows(s: State, e: Event)
    requires Inv(s) && Enabled(s, e)
    ensures s.index >= -1 && (s.running ==> s.current.Some?) && Inv(Step(s, e))
    ensures Step(s, e).submitted == s.submitted + TasksOf(e) && s.ran <= Step(s, e).ran
  {
    StepRuns(s, e);
    InOrder(s);
    hide Step, Inv, Enabled;
  }

  /** Over every run, throwing tasks included: the tasks started are a prefix of the tasks submitted, in that
      order; and while some are still to be started, a task is running or a timer is set. */
  lemma {:induction false} RunsInOrder(s: State, events: seq<Event>)
    requires Inv(s) && CanRun(s, events)
    ensures var s1 := Run(s, events);
            Inv(s1) && s1.submitted == s.submitted + Submitted(events)
            && s1.ran <= s1.submitted && s.ran <= s1.ran
            && (s1.ran != s1.submitted ==> s1.running || s1.drainTimers + s1.cleanupTimers == 1)
    decreases |events|
  {
    hide Step, Enabled, TasksOf, Inv;
    if events == [] {
      assert s.submitted + [] == s.submitted;
      InOrder(s);
    } else {
      StepGrows(s, events[0]);
      var s1 := Step(s, events[0]);
      RunsInOrder(s1, events[1..]);
      assert s.submitted + TasksOf(events[0]) + Submitted(events[1..]) == s.submitted + Submitted(events);
    }
  }

  // ---- the polyfill's globals and functions ----

  lemma ProceedStarts(s: State)
    requires s.current.Some? && -1 <= s.index < |s.current.value| - 1
    ensures Proceed(s)
      == s.(index := s.index + 1, running := true, ran := s.ran + [s.current.value[s.index + 1]])
  {
  }

  lemma ProceedPast(s: State)
    requires s.current.Some? && -1 <= s.index && s.index + 1 >= |s.current.value|
    ensures s.queue == [] ==>
      Proceed(s) == s.(index := -1, current := None, draining := false, running := false,
                       cleanupTimers := if s.cleanupTimers > 0 then s.cleanupTimers - 1 else 0)
    ensures s.queue != [] ==> Proceed(s) == Proceed(s.(index := -1, current := Some(s.queue), queue := []))
  {
  }

  class Process {
    var queue: seq<Task>
    var current: Option<seq<Task>>
    var index: int
    var draining: bool
    var drainTimers: nat
    var cleanupTimers: nat
    var running: bool
    ghost var submitted: seq<Task>
    ghost var ran: seq<Task>

    ghost function Now(): State
      reads this
    {
      State(queue, current, index, draining, drainTimers, cleanupTimers, running, submitted, ran)
    }

    constructor ()
      ensures Now() == INIT && Inv(Now())
    {
      queue, current, index, draining := [], None, -1, false;
      drainTimers, cleanupTimers, running, submitted, ran := 0, 0, false, [], [];
    }

    method NextTick(t: Task)
      requires Inv(Now())
      modifies this
      ensures Now() == Step(old(Now()), Submit(t)) && Inv(Now())
    {
      StepRuns(Now(), Submit(t));
      queue := queue + [t];
      if |queue| == 1 && !draining {
        drainTimers := drainTimers + 1;
      }
      submitted := submitted + [t];
    }

    /** The loops of `drainQueue` until they call a task or end. */
    method Loop()
      requires current.Some? && index >= -1
      modifies this
      ensures Now() == Proceed(old(Now()))
    {
      hide Proceed;
      ghost var s := Now();
      index := index + 1;
      while index >= |current.value|
        invariant current.Some? && index >= 0 && Proceed(Now().(index := index - 1)) == Proceed(s)
        decreases |queue|
      {
        ProceedPast(Now().(index := index - 1));
        index := -1;
        if |queue| == 0 {
          current, draining, running := None, false, false;
          if cleanupTimers > 0 {
            cleanupTimers := cleanupTimers - 1;
          }
          return;
        }
        current, queue := Some(queue), [];
        index := index + 1;
      }
      ProceedStarts(Now().(index := index - 1));
      running := true;
      ran := ran + [current.value[index]];
    }

    method DrainQueue()
      requires index >= -1
      modifies this
      ensures Now() == Drain(old(Now()))
    {
      if draining {
        return;
      }
      cleanupTimers := cleanupTimers + 1;
      draining := true;
      if |queue| > 0 {
        current, queue := Some(queue), [];
        Loop();
      } else {
        current, draining, cleanupTimers := None, false, cleanupTimers - 1;
      }
    }

    method CleanUpNextTick()
      requires index >= -1
      modifies this
      ensures Now() == CleanUp(old(Now()))
    {
      if !draining || current == None {
        return;
      }
      draining := false;
      if |current.value| > 0 {
        queue := current.value + queue;
      } else {
        index := -1;
      }
      if |queue| > 0 {
        DrainQueue();
      }
    }

    /** A timer fires, or the running task ends. */
    method Happens(e: Event)
      requires Inv(Now()) && Enabled(Now(), e)
      modifies this
      ensures Now() == Step(old(Now()), e) && Inv(Now())
    {
      hide Proceed, Drain, CleanUp, Inv, TasksOf;
      StepGrows(Now(), e);
      match e
      case Submit(t) => NextTick(t);
      case FireDrain =>
        drainTimers := drainTimers - 1;
        DrainQueue();
      case FireCleanup =>
        cleanupTimers := cleanupTimers - 1;
        CleanUpNextTick();
      case TaskReturns =>
        running := false;
        Loop();
      case TaskThrows => running := false;
    }
  }
}
