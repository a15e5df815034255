/**
 The wake-up handshake of scheduler/epoll_executor.cpp: any number of threads spawn tasks while the executor
 pops, raises `should_notify_` and waits. Each spawn is named by its task; `stop_` stays false.
 */
module Wakeup {

  type Task = nat

  /** Where the executor thread is in its loop, lines 38-100. */
  datatype Executor =
    | Popping        // in the loop at lines 41-44
    | FoundEmpty     // pop has failed, line 46 is next
    | Raised         // after line 46; only a loop that looks again gets here
    | Waiting        // in epoll_wait
    | Notified       // holds the event of the eventfd, line 64 is next
    | Drained        // line 65 is next

  /**
   `atExchange` are the spawns that have pushed their task and come to the compare-exchange, `atWrite` those
   that have won it and come to the write. `since` is history: the spawns that did their exchange since the
   last store at line 46. `window` too: those whose task was queued then, and that did theirs after pop failed and
   before that store. So are `spawned`, the tasks in order of their pushes, and `ran`, those that pop handed out.
   */
  datatype State = State(
    executor: Executor, queue: seq<Task>, flag: bool, edge: bool,
    atExchange: set<Task>, atWrite: set<Task>,
    used: set<Task>, since: set<Task>, window: set<Task>,
    spawned: seq<Task>, ran: seq<Task>)

  datatype Action =
    | Push(t: Task) | Exchange(t: Task) | WriteEvent(t: Task)
    | Pop | PopFails | Raise | LookAgain | WakeUp | OtherEvent | ReadEvent | Lower

  /** `recheck` is a loop that looks at the queue again after line 46; the source has none. */
  predicate Enabled(recheck: bool, s: State, a: Action) {
    match a
    case Push(t) => t !in s.used
    case Exchange(t) => t in s.atExchange
    case WriteEvent(t) => t in s.atWrite
    case Pop => s.executor == Popping && s.queue != []
    case PopFails => s.executor == Popping && s.queue == []
    case Raise => s.executor == FoundEmpty
    case LookAgain => s.executor == Raised
    case WakeUp => s.executor == Waiting && s.edge
    case OtherEvent => s.executor == Waiting        // a time-out, or an event of a connection
    case ReadEvent => s.executor == Notified
    case Lower => s.executor == Drained
  }

  function Do(recheck: bool, s: State, a: Action): State
    requires Enabled(recheck, s, a)
  {
    match a
    case Push(t) => s.(queue := s.queue + [t], atExchange := s.atExchange + {t}, used := s.used + {t}, spawned := s.spawned + [t])
    case Exchange(t) =>
      var done := s.(atExchange := s.atExchange - {t}, since := s.since + {t},
                     window := if s.executor == FoundEmpty && t in s.queue then s.window + {t} else s.window);
      if s.flag then done.(flag := false, atWrite := s.atWrite + {t}) else done
    case WriteEvent(t) => s.(atWrite := s.atWrite - {t}, edge := true)
    case Pop => s.(queue := s.queue[1..], ran := s.ran + [s.queue[0]])
    case PopFails => s.(executor := FoundEmpty, window := {})
    case Raise => s.(executor := if recheck then Raised else Waiting, flag := true, since := {})
    case LookAgain => s.(executor := if s.queue == [] then Waiting else Popping)
    case WakeUp => s.(executor := Notified, edge := false)
    case OtherEvent => s.(executor := Popping)
    case ReadEvent => s.(executor := Drained)
    case Lower => s.(executor := Popping, flag := false)
  }

  const Initial: State := State(Popping, [], false, false, {}, {}, {}, {}, {}, [], [])

  // ---------------------------------------------------------------- runs

  ghost predicate Legal(recheck: bool, actions: seq<Action>)
    decreases |actions|, 0
  {
    actions != [] ==> var n := |actions| - 1;
      Legal(recheck, actions[..n]) && Enabled(recheck, Result(recheck, actions[..n]), actions[n])
  }

  ghost function Result(recheck: bool, actions: seq<Action>): State
    requires Legal(recheck, actions)
    decreases |actions|, 1
  {
    if actions == [] then Initial
    else Do(recheck, Result(recheck, actions[..|actions| - 1]), actions[|actions| - 1])
  }

  ghost predicate Reachable(recheck: bool, s: State) {
    exists actions :: Legal(recheck, actions) && Result(recheck, actions) == s
  }

  // ---------------------------------------------------------------- the invariant

  /** A spawn has returned. */
  predicate Finished(s: State, t: Task) {
    t in s.used && t !in s.atExchange && t !in s.atWrite
  }

  predicate Idle(s: State) {
    s.executor == Raised || s.executor == Waiting
  }

  /** Since the store: without an exchange the flag is still up, and after one a wake-up is on its way. */
  predicate HandshakeOk(s: State) {
    Idle(s) ==> if s.since == {} then s.flag else s.edge || s.atWrite != {}
  }

  predicate TasksOk(s: State) {
    && s.atExchange <= s.used && s.atWrite <= s.used && s.atExchange !! s.atWrite && s.since <= s.used
    && s.atExchange !! s.since && s.atExchange !! s.window && s.window <= s.used
    && forall t :: t in s.queue ==> t in s.used
  }

  /** While nothing is popped: queued tasks by when they did their exchange. */
  predicate QueueOk(recheck: bool, s: State) {
    && (s.executor == FoundEmpty || Idle(s) ==> forall t :: t in s.window ==> t in s.queue)
    && (s.executor == FoundEmpty ==> forall t :: t in s.queue ==> t in s.atExchange || t in s.window)
    && (Idle(s) ==> forall t :: t in s.queue ==> t in s.atExchange || t in s.since || t in s.window)
    && (s.executor == Raised ==> recheck)
    && (s.executor == Waiting && recheck ==> forall t :: t in s.queue ==> t in s.atExchange || t in s.since)
  }

  /** Every spawned task has run or is queued, once, and in the order of the pushes. */
  ghost predicate RanOk(s: State) {
    && s.ran + s.queue == s.spawned
    && (forall t :: t in s.spawned <==> t in s.used)
    && forall i, j :: 0 <= i < j < |s.spawned| ==> s.spawned[i] != s.spawned[j]
  }

  ghost predicate Inv(recheck: bool, s: State) {
    HandshakeOk(s) && TasksOk(s) && QueueOk(recheck, s) && RanOk(s)
  }

  lemma RanKept(recheck: bool, s: State, a: Action)
    requires RanOk(s) && Enabled(recheck, s, a)
    ensures RanOk(Do(recheck, s, a))
  {
    match a
    case Push(t) => assert s.ran + s.queue + [t] == s.ran + (s.queue + [t]);
    case Pop => assert s.ran + s.queue == s.ran + [s.queue[0]] + s.queue[1..];
    case _ =>
  }

  lemma HandshakeKept(recheck: bool, s: State, a: Action)
    requires HandshakeOk(s) && Enabled(recheck, s, a)
    ensures HandshakeOk(Do(recheck, s, a))
  {
  }

  lemma TasksKept(recheck: bool, s: State, a: Action)
    requires TasksOk(s) && Enabled(recheck, s, a)
    ensures TasksOk(Do(recheck, s, a))
  {
  }

  lemma QueueKept(recheck: bool, s: State, a: Action)
    requires QueueOk(recheck, s) && TasksOk(s) && Enabled(recheck, s, a)
    ensures QueueOk(recheck, Do(recheck, s, a))
  {
  }

  /** Every step of every thread keeps the invariant. */
  lemma StepKeeps(recheck: bool, s: State, a: Action)
    requires Inv(recheck, s) && Enabled(recheck, s, a)
    ensures Inv(recheck, Do(recheck, s, a))
  {
    HandshakeKept(recheck, s, a);
    TasksKept(recheck, s, a);
    QueueKept(recheck, s, a);
    RanKept(recheck, s, a);
  }

  lemma {:induction false} RunKeeps(recheck: bool, actions: seq<Action>)
    requires Legal(recheck, actions)
    ensures Inv(recheck, Result(recheck, actions))
  {
    hide Inv, Do, Enabled;
    if actions == [] {
      InitialInv(recheck);
    } else {
      var n := |actions| - 1;
      RunKeeps(recheck, actions[..n]);
      StepKeeps(recheck, Result(recheck, actions[..n]), actions[n]);
    }
  }

  lemma InitialInv(recheck: bool)
    ensures Inv(recheck, Initial)
  {
  }

  lemma ReachableInv(recheck: bool, s: State)
    requires Reachable(recheck, s)
    ensures Inv(recheck, s)
  {
    hide Inv;
    var actions :| Legal(recheck, actions) && Result(recheck, actions) == s;
    RunKeeps(recheck, actions);
  }

  // ---------------------------------------------------------------- results

  /**
   Main result: while the executor is in `epoll_wait`, if any spawn has done its exchange since the store at
   line 46, then the eventfd has an edge pending or some spawn has won the exchange and not yet written; and
   if none has, then the next spawn to do its exchange wins it.
   */
  lemma WakeUpOnItsWay(recheck: bool, s: State)
    requires Reachable(recheck, s) && s.executor == Waiting
    ensures s.since != {} ==> s.edge || s.atWrite != {}
    ensures s.since == {} ==> forall t :: t in s.atExchange ==> t in Do(recheck, s, Exchange(t)).atWrite
  {
    hide Reachable;
    ReachableInv(recheck, s);
  }

  /**
   Main result: in every reachable state the tasks that ran, followed by the queued ones, are the spawned ones in
   order. So every task runs at most once, in the order of the pushes, and one that has not run is queued.
   */
  lemma RanInOrder(recheck: bool, s: State)
    requires Reachable(recheck, s)
    ensures s.ran + s.queue == s.spawned
    ensures forall i, j :: 0 <= i < j < |s.ran| ==> s.ran[i] != s.ran[j]
    ensures forall t :: t in s.spawned && t !in s.ran <==> t in s.queue
  {
    hide Reachable;
    ReachableInv(recheck, s);
    RanOnce(s);
  }

  lemma RanOnce(s: State)
    requires RanOk(s)
    ensures forall i, j :: 0 <= i < j < |s.ran| ==> s.ran[i] != s.ran[j]
    ensures forall t :: t in s.spawned && t !in s.ran <==> t in s.queue
  {
    assert forall i :: 0 <= i < |s.ran| ==> s.spawned[i] == s.ran[i];
    assert forall i :: 0 <= i < |s.queue| ==> s.spawned[|s.ran| + i] == s.queue[i];
  }

  /** The executor waits, nothing will wake it, and the task of a spawn that has returned has not run. */
  predicate Stranded(s: State, t: Task) {
    s.executor == Waiting && !s.edge && s.atWrite == {} && t in s.spawned && t !in s.ran && Finished(s, t)
  }

  /**
   Main result: when nothing is about to wake the executor, the stranded tasks are exactly those that were
   queued and did their exchange between the failed pop and the store at line 46.
   */
  lemma StrandedExactly(s: State, t: Task)
    requires Reachable(false, s) && s.executor == Waiting && !s.edge && s.atWrite == {}
    ensures Stranded(s, t) <==> t in s.window
  {
    hide Reachable;
    ReachableInv(false, s);
    RanOnce(s);
  }

  lemma Go(recheck: bool, s: State, a: Action, s': State)
    requires Reachable(recheck, s) && Enabled(recheck, s, a) && Do(recheck, s, a) == s'
    ensures Reachable(recheck, s')
  {
    hide Do, Enabled;
    var actions :| Legal(recheck, actions) && Result(recheck, actions) == s;
    assert (actions + [a])[..|actions|] == actions;
    assert Legal(recheck, actions + [a]) && Result(recheck, actions + [a]) == s';
  }

  /** Pop fails; a task is pushed and its exchange finds the flag down; the flag is raised and the executor waits. */
  const Asleep: State := Initial.(executor := Waiting, queue := [0], flag := true, used := {0}, window := {0}, spawned := [0])

  lemma ReachAsleep()
    ensures Reachable(false, Asleep)
  {
    hide Reachable;
    assert Reachable(false, Initial) by { ReachInitial(); }
    var empty := Initial.(executor := FoundEmpty);
    var pushed := empty.(queue := [0], atExchange := {0}, used := {0}, spawned := [0]);
    var lost := pushed.(atExchange := {}, since := {0}, window := {0});
    Go(false, Initial, PopFails, empty);
    Go(false, empty, Push(0), pushed);
    Go(false, pushed, Exchange(0), lost);
    Go(false, lost, Raise, Asleep);
  }

  lemma ReachInitial()
    ensures Reachable(false, Initial)
  {
    assert Legal(false, []);
  }

  /** Main result: no task is ever stranded exactly when the loop looks at the queue again after raising the flag. */
  lemma NeverStrandedExactlyWhen(recheck: bool)
    ensures (forall s, t :: Reachable(recheck, s) ==> !Stranded(s, t)) <==> recheck
  {
    hide Reachable;
    if recheck {
      forall s, t | Reachable(recheck, s) ensures !Stranded(s, t) {
        ReachableInv(recheck, s);
        RanOnce(s);
      }
    } else {
      ReachAsleep();
      assert Stranded(Asleep, 0);
    }
  }
}
