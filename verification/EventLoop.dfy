/**
 One open connection on the executor thread: the coroutines `recv_fn` and `send_fn`, the awaiters that
 suspend them, and edge-triggered epoll, as a step system in which the kernel's steps come at any moment.

 The kernel keeps one mark for the connection, `listed`: it is on epoll's ready list. Bytes that arrive put it
 there; room that comes free does so while EPOLLOUT is armed; and EPOLL_CTL_MOD does so when an armed
 condition already holds. `epoll_wait` takes it off the list and reports the armed conditions that hold then.
 */
module EventLoop {
  import opened Base

  datatype SendState =
    | SendRuns
    | WaitsForData      // suspended in WaitWriteAwaiter
    | WaitsForSpace     // suspended in WriteAwaiter

  /** What goes on when the send coroutine has suspended. */
  datatype After = ThenBetween | ThenEvent(readable: bool) | ThenReceive

  /** Where the executor thread is. */
  datatype Thread =
    | Between                                           // between closures and events
    | Event(readable: bool, writable: bool)             // scheduler/epoll_executor.cpp:77-89
    | ResumeWrite(after: After)                         // about to call resume_write
    | ResumeRead                                        // about to call resume_read
    | SendHead(after: After)                            // at the loop head of send_fn
    | Sending(need: nat, written: nat, after: After)    // in the loop of async_write
    | SendCommit(need: nat, written: nat, after: After) // after that loop
    | Receive                                           // recv_fn outside async_read
    | Reading(left: nat, got: nat)                      // in the loop of async_read
    | ReadCommit(got: nat)                              // after that loop
    | Crashed                                           // write_view found no node

  /**
   `unread` counts the bytes waiting in the socket and `space` its room for more; `wire` is what it accepted.
   `buffered` counts the bytes in the read buffer, `room` the free ones in its last block, and `hasNode` tells
   whether it has a block.
   `appended` is history: all that was ever put into the write buffer.
   */
  datatype State = State(
    thread: Thread, send: SendState, recvWaits: bool,
    unread: nat, buffered: nat, room: nat, hasNode: bool,
    appended: Bytes, writeBuf: Bytes, wire: Bytes, space: nat,
    outArmed: bool, listed: bool, past: Past)

  /**
   More history: `arrived` counts the bytes that ever reached the socket and `consumed` those that were read out of the
   read buffer; `received` counts those of the latest `async_read`; `sawAgain` and `refused` tell whether the latest
   `read` of an `async_read` answered EAGAIN, and the latest `writev` of an `async_write` EAGAIN or an error.
   */
  datatype Past = Past(arrived: nat, consumed: nat, received: nat, sawAgain: bool, refused: bool)

  /**
   What a system may rely on: whether the last block of the read buffer is never full, whether reading always leaves
   that buffer a node, and whether at most one `writev` per `async_write` accepts bytes.
   */
  datatype Rules = Rules(neverFull: bool, keepsNode: bool, oneAccept: bool)

  datatype Action =
    | Arrive(n: nat) | SpaceFrees(n: nat)                                // the kernel
    | Closure(data: Bytes) | Wake | Handle                               // the executor loop
    | WriteResumes | SendLoop | Accept(n: nat) | WriteFails | WriteAgain | WriteInterrupted | SendEnds | SendCommits
    | ReadResumes | Consume(n: nat, room': nat, node': bool) | Respond(data: Bytes) | AskRead
    | Data(n: nat) | ReadAgain | ReadInterrupted | ReadFull | ReadCommits(room': nat)

  /** Both coroutines have started, and the connection was just registered for reading. */
  ghost predicate Initial(s: State) {
    && s.thread == Receive && s.send == WaitsForData && !s.recvWaits && s.buffered == 0 && s.room > 0 && s.hasNode
    && s.appended == [] && s.writeBuf == [] && s.wire == []
    && s.past.arrived == s.unread && s.past.consumed == 0 && s.past.received == 0
    && !s.outArmed && s.listed == (s.unread > 0)
  }

  predicate Enabled(rules: Rules, s: State, a: Action) {
    match a
    case Arrive(n) => n > 0
    case SpaceFrees(n) => n > 0
    case Closure(data) => s.thread.Between? && data != []
    case Wake => s.thread.Between? && s.listed
    case Handle => s.thread.Event?
    case WriteResumes => s.thread.ResumeWrite? && s.send != SendRuns
    case SendLoop => s.thread.SendHead?
    case Accept(n) =>
      // the socket takes no more than it has room for; a second accepting call may repeat bytes
      && s.thread.Sending? && s.thread.written < s.thread.need && s.thread.need == |s.writeBuf|
      && n <= s.space && s.thread.written + n <= s.thread.need
      && (rules.oneAccept ==> n == 0 || s.thread.written == 0)
    case WriteAgain => s.thread.Sending? && s.thread.written < s.thread.need && s.space == 0
    case WriteInterrupted => s.thread.Sending? && s.thread.written < s.thread.need
    case WriteFails => s.thread.Sending? && s.thread.written < s.thread.need
    case SendEnds => s.thread.Sending? && s.thread.written >= s.thread.need
    case SendCommits => s.thread.SendCommit? && s.thread.written <= |s.writeBuf|
    case ReadResumes => s.thread.ResumeRead? && s.recvWaits
    case Consume(n, room', node') =>
      // only a copying read that takes all there is can leave no node
      && s.thread.Receive? && s.hasNode && n <= s.buffered && (rules.neverFull ==> room' > 0)
      && (!node' ==> 0 < n == s.buffered && !rules.keepsNode)
    case Respond(data) => s.thread.Receive? && data != []
    case AskRead => s.thread.Receive?
    case Data(n) => s.thread.Reading? && 0 < n <= s.thread.left && n <= s.unread
    case ReadAgain => s.thread.Reading? && s.thread.left > 0 && s.unread == 0
    case ReadInterrupted => s.thread.Reading? && s.thread.left > 0
    case ReadFull => s.thread.Reading? && s.thread.left == 0
    case ReadCommits(room') => s.thread.ReadCommit? && (rules.neverFull ==> room' > 0)
  }

  function Return(after: After): Thread {
    match after
    case ThenBetween => Between
    case ThenEvent(readable) => Event(readable, false)
    case ThenReceive => Receive
  }

  function Do(rules: Rules, s: State, a: Action): State
    requires Enabled(rules, s, a)
  {
    match a
    case Arrive(n) => s.(unread := s.unread + n, past := s.past.(arrived := s.past.arrived + n), listed := true)
    case SpaceFrees(n) => s.(space := s.space + n, listed := s.listed || s.outArmed)
    case Closure(data) =>
      s.(appended := s.appended + data, writeBuf := s.writeBuf + data, thread := ResumeWrite(ThenBetween))
    case Wake => s.(listed := false, thread := Event(s.unread > 0, s.outArmed && s.space > 0))
    case Handle =>
      if s.thread.writable then
        // EPOLL_CTL_MOD back to EPOLLIN, then resume_write
        s.(outArmed := false, listed := s.listed || s.unread > 0, thread := ResumeWrite(ThenEvent(s.thread.readable)))
      else if s.thread.readable then s.(thread := ResumeRead)
      else s.(thread := Between)
    case WriteResumes =>
      s.(send := SendRuns, past := s.past.(refused := false),
         thread := if s.send == WaitsForData then Sending(|s.writeBuf|, 0, s.thread.after) else SendHead(s.thread.after))
    case SendLoop =>
      if s.writeBuf != [] then s.(past := s.past.(refused := false), thread := Sending(|s.writeBuf|, 0, s.thread.after))
      else s.(send := WaitsForData, thread := Return(s.thread.after))
    case Accept(n) =>
      s.(wire := s.wire + s.writeBuf[..n], space := s.space - n, past := s.past.(refused := false),
         thread := Sending(s.thread.need, s.thread.written + n, s.thread.after))
    case WriteAgain => s.(past := s.past.(refused := true), thread := SendCommit(s.thread.need, s.thread.written, s.thread.after))
    case WriteInterrupted => s.(past := s.past.(refused := false))
    case WriteFails => s.(past := s.past.(refused := true), thread := SendCommit(s.thread.need, s.thread.written, s.thread.after))
    case SendEnds => s.(thread := SendCommit(s.thread.need, s.thread.written, s.thread.after))
    case SendCommits =>
      var t := s.(writeBuf := s.writeBuf[s.thread.written..]);
      if s.thread.written < s.thread.need then
        // EPOLL_CTL_MOD to EPOLLIN and EPOLLOUT
        t.(send := WaitsForSpace, outArmed := true, listed := s.listed || s.unread > 0 || s.space > 0,
           thread := Return(s.thread.after))
      else t.(thread := SendHead(s.thread.after))
    case ReadResumes => s.(recvWaits := false, thread := Receive)
    case Consume(n, room', node') => s.(buffered := s.buffered - n, past := s.past.(consumed := s.past.consumed + n), room := room', hasNode := node')
    case Respond(data) =>
      s.(appended := s.appended + data, writeBuf := s.writeBuf + data, thread := ResumeWrite(ThenReceive))
    case AskRead => s.(past := s.past.(received := 0, sawAgain := false), thread := if s.hasNode then Reading(s.room, 0) else Crashed)
    case Data(n) => s.(unread := s.unread - n, past := s.past.(received := s.past.received + n, sawAgain := false), thread := Reading(s.thread.left - n, s.thread.got + n))
    case ReadAgain => s.(past := s.past.(sawAgain := true), thread := ReadCommit(s.thread.got))
    case ReadInterrupted => s.(past := s.past.(sawAgain := false))
    case ReadFull => s.(thread := ReadCommit(s.thread.got))
    case ReadCommits(room') =>
      if s.thread.got > 0 then s.(buffered := s.buffered + s.thread.got, room := room', thread := Receive)
      else s.(recvWaits := true, thread := Between)
  }

  // ---------------------------------------------------------------- runs

  ghost predicate Legal(rules: Rules, s: State, actions: seq<Action>)
    decreases |actions|
  {
    actions != [] ==> Enabled(rules, s, actions[0]) && Legal(rules, Do(rules, s, actions[0]), actions[1..])
  }

  ghost function Result(rules: Rules, s: State, actions: seq<Action>): State
    requires Legal(rules, s, actions)
    decreases |actions|
  {
    if actions == [] then s else Result(rules, Do(rules, s, actions[0]), actions[1..])
  }

  ghost predicate RunTo(rules: Rules, s: State, first: State, actions: seq<Action>) {
    Initial(first) && Legal(rules, first, actions) && Result(rules, first, actions) == s
  }

  ghost predicate Reachable(rules: Rules, s: State) {
    exists first, actions :: RunTo(rules, s, first, actions)
  }

  // ---------------------------------------------------------------- the invariant

  predicate SendActive(t: Thread) {
    t.SendHead? || t.Sending? || t.SendCommit?
  }

  /** The receive coroutine is running, or waits for `resume_write` to return. */
  predicate ReceiveActive(t: Thread) {
    t.Receive? || t.Reading? || t.ReadCommit? || t.Crashed? || ((t.ResumeWrite? || SendActive(t)) && t.after.ThenReceive?)
  }

  /** An event that was reported but not yet handled will resume the coroutine. */
  predicate CarriesIn(t: Thread) {
    t.ResumeRead? || (t.Event? && t.readable) || ((t.ResumeWrite? || SendActive(t)) && t.after.ThenEvent? && t.after.readable)
  }

  predicate CarriesOut(t: Thread) {
    t.ResumeWrite? || (t.Event? && t.writable)
  }

  /** Each coroutine runs exactly when the thread is in it. */
  predicate ControlOk(s: State) {
    && (s.send == SendRuns <==> SendActive(s.thread))
    && (s.recvWaits <==> !ReceiveActive(s.thread))
    && (s.thread.Sending? || s.thread.SendCommit? ==> s.thread.need == |s.writeBuf| && s.thread.written <= s.thread.need)
    && (s.thread.Event? && s.thread.writable ==> s.outArmed)
  }

  predicate WritesOk(s: State) {
    && (s.send == WaitsForData && !s.thread.ResumeWrite? ==> s.writeBuf == [])
    && (s.send == WaitsForSpace ==> s.writeBuf != [])
    && (s.send == WaitsForSpace && !CarriesOut(s.thread) ==> s.outArmed && (s.space > 0 ==> s.listed))
  }

  predicate ReadsOk(s: State) {
    && s.room > 0
    && (s.thread.Reading? ==> s.thread.left > 0 || s.thread.got > 0)
    && (s.thread == ReadCommit(0) ==> s.past.sawAgain)
    && (s.recvWaits || s.thread == ReadCommit(0) ==> s.unread > 0 ==> s.listed || CarriesIn(s.thread))
  }

  /** The bytes of the `async_read` in progress. */
  function InRead(t: Thread): nat {
    if t.Reading? || t.ReadCommit? then t.got else 0
  }

  /** No byte is lost or made up between the socket and the parser, and what suspends has been told to. */
  predicate CountsOk(s: State) {
    && s.past.arrived == s.unread + InRead(s.thread) + s.buffered + s.past.consumed
    && (s.thread.Reading? || s.thread.ReadCommit? ==> s.thread.got == s.past.received)
    && (s.recvWaits ==> s.past.received == 0)
    && (s.thread.SendCommit? && s.thread.written < s.thread.need ==> s.past.refused)
  }

  predicate NodeOk(s: State) {
    s.hasNode && !s.thread.Crashed?
  }

  predicate StreamOk(s: State) {
    if s.thread.Sending? || s.thread.SendCommit?
    then s.thread.written <= |s.writeBuf| && s.wire + s.writeBuf[s.thread.written..] == s.appended
    else s.wire + s.writeBuf == s.appended
  }

  predicate Inv(rules: Rules, s: State) {
    && ControlOk(s) && WritesOk(s) && CountsOk(s)
    && (rules.keepsNode ==> NodeOk(s))
    && (rules.neverFull ==> ReadsOk(s))
    && (rules.oneAccept ==> StreamOk(s))
  }

  /** A step of the send coroutine. */
  predicate SendStep(a: Action) {
    a.WriteResumes? || a.SendLoop? || a.Accept? || a.WriteFails? || a.WriteAgain? || a.WriteInterrupted? || a.SendEnds? || a.SendCommits?
  }

  lemma ControlKept(rules: Rules, s: State, a: Action)
    requires ControlOk(s) && WritesOk(s) && Enabled(rules, s, a)
    ensures ControlOk(Do(rules, s, a))
  {
    if SendStep(a) { SendControl(rules, s, a); } else { OtherControl(rules, s, a); }
  }

  lemma SendControl(rules: Rules, s: State, a: Action)
    requires ControlOk(s) && Enabled(rules, s, a) && SendStep(a)
    ensures ControlOk(Do(rules, s, a))
  {
  }

  lemma OtherControl(rules: Rules, s: State, a: Action)
    requires ControlOk(s) && Enabled(rules, s, a) && !SendStep(a)
    ensures ControlOk(Do(rules, s, a))
  {
  }

  lemma WritesKept(rules: Rules, s: State, a: Action)
    requires ControlOk(s) && WritesOk(s) && Enabled(rules, s, a)
    ensures WritesOk(Do(rules, s, a))
  {
  }

  lemma CountsKept(rules: Rules, s: State, a: Action)
    requires ControlOk(s) && CountsOk(s) && Enabled(rules, s, a)
    ensures CountsOk(Do(rules, s, a))
  {
    if SendStep(a) { SendCounts(rules, s, a); } else { OtherCounts(rules, s, a); }
  }

  lemma SendCounts(rules: Rules, s: State, a: Action)
    requires ControlOk(s) && CountsOk(s) && Enabled(rules, s, a) && SendStep(a)
    ensures CountsOk(Do(rules, s, a))
  {
  }

  lemma OtherCounts(rules: Rules, s: State, a: Action)
    requires ControlOk(s) && CountsOk(s) && Enabled(rules, s, a) && !SendStep(a)
    ensures CountsOk(Do(rules, s, a))
  {
  }

  lemma NodeKept(rules: Rules, s: State, a: Action)
    requires rules.keepsNode && NodeOk(s) && Enabled(rules, s, a)
    ensures NodeOk(Do(rules, s, a))
  {
    hide ControlOk, WritesOk;
  }

  lemma ReadsKept(rules: Rules, s: State, a: Action)
    requires rules.neverFull && ControlOk(s) && ReadsOk(s) && Enabled(rules, s, a)
    ensures ReadsOk(Do(rules, s, a))
  {
    if SendStep(a) { SendReads(rules, s, a); } else { OtherReads(rules, s, a); }
  }

  lemma SendReads(rules: Rules, s: State, a: Action)
    requires ReadsOk(s) && Enabled(rules, s, a) && SendStep(a)
    ensures ReadsOk(Do(rules, s, a))
  {
  }

  lemma OtherReads(rules: Rules, s: State, a: Action)
    requires rules.neverFull && ControlOk(s) && ReadsOk(s) && Enabled(rules, s, a) && !SendStep(a)
    ensures ReadsOk(Do(rules, s, a))
  {
  }

  lemma StreamKept(rules: Rules, s: State, a: Action)
    requires rules.oneAccept && ControlOk(s) && StreamOk(s) && Enabled(rules, s, a)
    ensures StreamOk(Do(rules, s, a))
  {
    if a.SendCommits? {
      BytesCommitted(rules, s);
    } else if a.Accept? {
      BytesAccepted(rules, s, a.n);
    } else if a.Closure? || a.Respond? {
      BytesAppended(rules, s, a);
    } else {
      BytesStay(rules, s, a);
    }
  }

  lemma BytesStay(rules: Rules, s: State, a: Action)
    requires ControlOk(s) && StreamOk(s) && Enabled(rules, s, a)
    requires !a.Accept? && !a.Closure? && !a.Respond? && !a.SendCommits?
    ensures StreamOk(Do(rules, s, a))
  {
    hide WritesOk, ReadsOk;
    assert s.writeBuf[0..] == s.writeBuf;
  }

  lemma BytesAccepted(rules: Rules, s: State, n: nat)
    requires rules.oneAccept && StreamOk(s) && Enabled(rules, s, Accept(n))
    ensures StreamOk(Do(rules, s, Accept(n)))
  {
    AcceptedMore(s.wire, s.writeBuf, s.thread.written, n);
  }

  lemma BytesAppended(rules: Rules, s: State, a: Action)
    requires StreamOk(s) && Enabled(rules, s, a) && (a.Closure? || a.Respond?)
    ensures StreamOk(Do(rules, s, a))
  {
    Assoc(s.wire, s.writeBuf, a.data);
  }

  lemma BytesCommitted(rules: Rules, s: State)
    requires StreamOk(s) && Enabled(rules, s, SendCommits)
    ensures StreamOk(Do(rules, s, SendCommits))
  {
  }

  lemma AcceptedMore(wire: Bytes, content: Bytes, written: nat, n: nat)
    requires written + n <= |content| && (n == 0 || written == 0)
    ensures wire + content[..n] + content[written + n..] == wire + content[written..]
  {
    if n == 0 {
      assert wire + content[..0] == wire;
    } else {
      Assoc(wire, content[..n], content[n..]);
      assert content[..n] + content[n..] == content[written..];
    }
  }

  /** Every step of the executor thread and of the kernel keeps the invariant. */
  lemma StepKeeps(rules: Rules, s: State, a: Action)
    requires Inv(rules, s) && Enabled(rules, s, a)
    ensures Inv(rules, Do(rules, s, a))
  {
    hide ControlOk, WritesOk, CountsOk, NodeOk, ReadsOk, StreamOk, Do, Enabled;
    ControlKept(rules, s, a);
    WritesKept(rules, s, a);
    CountsKept(rules, s, a);
    if rules.keepsNode { NodeKept(rules, s, a); }
    if rules.neverFull { ReadsKept(rules, s, a); }
    if rules.oneAccept { StreamKept(rules, s, a); }
  }

  lemma {:induction false} RunKeeps(rules: Rules, s: State, actions: seq<Action>)
    requires Inv(rules, s) && Legal(rules, s, actions)
    ensures Inv(rules, Result(rules, s, actions))
    decreases |actions|
  {
    hide Inv, Do, Enabled;
    if actions != [] {
      StepKeeps(rules, s, actions[0]);
      RunKeeps(rules, Do(rules, s, actions[0]), actions[1..]);
    }
  }

  lemma ReachableInv(rules: Rules, s: State)
    requires Reachable(rules, s)
    ensures Inv(rules, s)
  {
    hide Legal, Result, Do, Enabled;
    var first, actions :| RunTo(rules, s, first, actions);
    RunKeeps(rules, first, actions);
  }

  // ---------------------------------------------------------------- what holds between closures and events

  /**
   Reading goes on; whenever the receive coroutine is suspended its latest `async_read` received nothing, so that what
   is buffered has been looked at; and unread socket bytes have an EPOLLIN edge pending then.
   */
  predicate ReadSafe(s: State) {
    && !s.thread.Crashed? && (s.recvWaits ==> s.past.received == 0)
    && (s.thread.Between? ==> s.recvWaits && (s.unread > 0 ==> s.listed))
  }

  predicate Conserved(s: State) {
    s.thread.Between? ==> s.wire + s.writeBuf == s.appended
  }

  /**
   Main result: between closures and events a non-empty write buffer has its send coroutine suspended in the
   write awaiter with EPOLLOUT armed; and if the socket has room, then the edge is pending: the next
   `epoll_wait` reports it and the send coroutine is resumed.
   */
  lemma NoStuckWrites(rules: Rules, s: State)
    requires Reachable(rules, s) && s.thread.Between? && s.writeBuf != []
    ensures s.send == WaitsForSpace && s.outArmed
    ensures s.space > 0 ==> Enabled(rules, s, Wake)
    ensures s.space > 0 ==> var s' := Do(rules, s, Wake); s'.thread == Event(s.unread > 0, true) && Do(rules, s', Handle).thread.ResumeWrite?
  {
    hide Reachable;
    ReachableInv(rules, s);
  }

  /** Every resume of a coroutine happens while it is suspended, and only one of the two ever runs. */
  lemma ResumedWhileSuspended(rules: Rules, s: State)
    requires Reachable(rules, s)
    ensures s.thread.ResumeWrite? ==> s.send != SendRuns && Enabled(rules, s, WriteResumes)
    ensures s.thread.ResumeRead? ==> s.recvWaits && Enabled(rules, s, ReadResumes)
    ensures s.thread.Between? ==> s.send != SendRuns && s.recvWaits
  {
    hide Reachable;
    ReachableInv(rules, s);
  }

  /** When the connection has nothing pending, nothing is left to do: all was read, and the socket takes no more. */
  lemma NothingPending(rules: Rules, s: State)
    requires Reachable(rules, s) && rules.neverFull && s.thread.Between? && !s.listed
    ensures s.unread == 0 && (s.writeBuf == [] || s.space == 0)
  {
    hide Reachable;
    ReachableInv(rules, s);
  }

  /**
   Main result: the receive coroutine only suspends after an `async_read` that received nothing, so never with bytes it
   has just been given; and, the last block never being full, after its latest `read` answered EAGAIN.
   */
  lemma SuspendsOnEagain(rules: Rules, s: State, a: Action)
    requires Reachable(rules, s) && Enabled(rules, s, a)
    requires !s.recvWaits && Do(rules, s, a).recvWaits
    ensures s.past.received == 0 && Do(rules, s, a).past.received == 0
    ensures rules.neverFull ==> s.past.sawAgain
  {
    hide Reachable;
    ReachableInv(rules, s);
  }

  /** The send coroutine only waits for space after its latest `writev` answered EAGAIN or an error. */
  lemma WaitsWhenRefused(rules: Rules, s: State, a: Action)
    requires Reachable(rules, s) && Enabled(rules, s, a)
    requires s.send != WaitsForSpace && Do(rules, s, a).send == WaitsForSpace
    ensures s.past.refused
  {
    hide Reachable;
    ReachableInv(rules, s);
  }

  /**
   Main result: in every reachable state the bytes that arrived are those still in the socket, in the read in
   progress, in the read buffer, and those consumed.
   */
  lemma BytesAccountedFor(rules: Rules, s: State)
    requires Reachable(rules, s)
    ensures s.past.arrived == s.unread + InRead(s.thread) + s.buffered + s.past.consumed
  {
    hide Reachable;
    ReachableInv(rules, s);
  }

  lemma {:induction false} ReachedOn(rules: Rules, first: State, actions: seq<Action>, s: State, a: Action)
    requires Legal(rules, first, actions) && Result(rules, first, actions) == s && Enabled(rules, s, a)
    ensures Legal(rules, first, actions + [a]) && Result(rules, first, actions + [a]) == Do(rules, s, a)
    decreases |actions|
  {
    hide Do, Enabled;
    var all := actions + [a];
    if actions == [] {
      assert all[1..] == [];
    } else {
      assert all[1..] == actions[1..] + [a];
      ReachedOn(rules, Do(rules, first, actions[0]), actions[1..], s, a);
    }
  }

  lemma Reach(rules: Rules, s: State, a: Action)
    requires Reachable(rules, s) && Enabled(rules, s, a)
    ensures Reachable(rules, Do(rules, s, a))
  {
    hide Do, Enabled, Legal, Result, Initial;
    var first, actions :| RunTo(rules, s, first, actions);
    ReachedOn(rules, first, actions, s, a);
    assert RunTo(rules, Do(rules, s, a), first, actions + [a]);
  }

  lemma ReachInitial(rules: Rules, s: State)
    requires Initial(s)
    ensures Reachable(rules, s)
  {
    assert RunTo(rules, s, s, []);
  }

  const Fresh: State := State(Receive, WaitsForData, false, 0, 0, 1, true, [], [], [], 0, false, false, Past(0, 0, 0, false, false))

  /** A connection whose receive coroutine found nothing and suspended. */
  const Started: State := Fresh.(thread := Between, recvWaits := true, past := Past(0, 0, 0, true, false))

  /** A step leads from a reachable state to `s'`. */
  lemma Go(rules: Rules, s: State, a: Action, s': State)
    requires Reachable(rules, s) && Enabled(rules, s, a) && Do(rules, s, a) == s'
    ensures Reachable(rules, s')
  {
    Reach(rules, s, a);
  }

  lemma ReachStarted(rules: Rules)
    ensures Reachable(rules, Started)
  {
    hide Reachable;
    var reading, read := Fresh.(thread := Reading(1, 0)), Fresh.(thread := ReadCommit(0), past := Past(0, 0, 0, true, false));
    ReachInitial(rules, Fresh);
    assert Reachable(rules, reading) by { Go(rules, Fresh, AskRead, reading); }
    assert Reachable(rules, read) by { Go(rules, reading, ReadAgain, read); }
    Go(rules, read, ReadCommits(1), Started);
  }

  /** Two bytes have arrived, and the receive coroutine is resumed for them. */
  const Resumed: State := Fresh.(unread := 2, past := Past(2, 0, 0, true, false))

  lemma ReachResumed(rules: Rules)
    ensures Reachable(rules, Resumed)
  {
    hide Reachable;
    var arrived := Started.(unread := 2, past := Past(2, 0, 0, true, false), listed := true);
    var woken, resuming := arrived.(listed := false, thread := Event(true, false)), arrived.(listed := false, thread := ResumeRead);
    ReachStarted(rules);
    assert Reachable(rules, arrived) by { Go(rules, Started, Arrive(2), arrived); }
    assert Reachable(rules, woken) by { Go(rules, arrived, Wake, woken); }
    assert Reachable(rules, resuming) by { Go(rules, woken, Handle, resuming); }
    Go(rules, resuming, ReadResumes, Resumed);
  }

  /** The read asked for one byte, and got it. */
  const Asked: State := Resumed.(thread := Reading(1, 0), past := Past(2, 0, 0, false, false))
  const Got: State := Asked.(unread := 1, past := Past(2, 0, 1, false, false), thread := Reading(0, 1))

  /** One byte was read, which filled the last block. */
  const Filled: State := Got.(thread := Receive, buffered := 1, room := 0)

  lemma ReachGot(rules: Rules)
    ensures Reachable(rules, Got.(thread := ReadCommit(1)))
  {
    hide Reachable;
    ReachResumed(rules);
    assert Reachable(rules, Asked) by { Go(rules, Resumed, AskRead, Asked); }
    assert Reachable(rules, Got) by { Go(rules, Asked, Data(1), Got); }
    Go(rules, Got, ReadFull, Got.(thread := ReadCommit(1)));
  }

  lemma ReachFilled(rules: Rules)
    requires !rules.neverFull
    ensures Reachable(rules, Filled)
  {
    hide Reachable;
    ReachGot(rules);
    Go(rules, Got.(thread := ReadCommit(1)), ReadCommits(0), Filled);
  }

  /** A read that meets a full last block suspends with a byte unread and nothing pending. */
  lemma FullBlockSleeps(rules: Rules)
    requires !rules.neverFull
    ensures Reachable(rules, Filled.(thread := Between, recvWaits := true, past := Past(2, 0, 0, false, false)))
  {
    hide Reachable;
    var asked := Filled.(thread := Reading(0, 0), past := Past(2, 0, 0, false, false));
    var ended := asked.(thread := ReadCommit(0));
    ReachFilled(rules);
    assert Reachable(rules, asked) by { Go(rules, Filled, AskRead, asked); }
    assert Reachable(rules, ended) by { Go(rules, asked, ReadFull, ended); }
    Go(rules, ended, ReadCommits(0), ended.(thread := Between, recvWaits := true));
  }

  /** A copying read that takes the last byte of a block that is not full leaves no node, and the next read crashes. */
  lemma NoNodeCrashes(rules: Rules)
    requires !rules.keepsNode
    ensures Reachable(rules, Filled.(buffered := 0, room := 1, past := Past(2, 1, 0, false, false), hasNode := false, thread := Crashed))
  {
    hide Reachable;
    var had := Filled.(room := 1);
    var gone := had.(buffered := 0, past := Past(2, 1, 1, false, false), hasNode := false);
    ReachGot(rules);
    assert Reachable(rules, had) by { Go(rules, Got.(thread := ReadCommit(1)), ReadCommits(1), had); }
    assert Reachable(rules, gone) by { Go(rules, had, Consume(1, 1, false), gone); }
    Go(rules, gone, AskRead, gone.(past := Past(2, 1, 0, false, false), thread := Crashed));
  }

  /** Two bytes were appended and the socket has room for them. */
  const Appended: State :=
    Started.(space := 2, appended := [1, 0], writeBuf := [1, 0], send := SendRuns, thread := Sending(2, 0, ThenBetween))

  lemma ReachAppended(rules: Rules)
    ensures Reachable(rules, Appended)
  {
    hide Reachable;
    var free := Started.(space := 2);
    var appended := free.(appended := [1, 0], writeBuf := [1, 0], thread := ResumeWrite(ThenBetween));
    ReachStarted(rules);
    assert Reachable(rules, free) by { Go(rules, Started, SpaceFrees(2), free); }
    assert Reachable(rules, appended) by {
      assert [] + [1, 0] == [1, 0];
      Go(rules, free, Closure([1, 0]), appended);
    }
    Go(rules, appended, WriteResumes, Appended);
  }

  /** Two accepting calls in one `async_write` send the first byte twice, and never the second. */
  lemma TwoAcceptsRepeat(rules: Rules)
    requires !rules.oneAccept
    ensures Reachable(rules, Started.(appended := [1, 0], wire := [1, 1]))
  {
    hide Reachable;
    var one := Appended.(wire := [1], space := 1, thread := Sending(2, 1, ThenBetween));
    var two := Appended.(wire := [1, 1], space := 0, thread := Sending(2, 2, ThenBetween));
    var ended, head := two.(thread := SendCommit(2, 2, ThenBetween)), two.(writeBuf := [], thread := SendHead(ThenBetween));
    ReachAppended(rules);
    assert [1, 0][..1] == [1] && [] + [1] == [1] && [1] + [1] == [1, 1];
    assert Reachable(rules, one) by { Go(rules, Appended, Accept(1), one); }
    assert Reachable(rules, two) by { Go(rules, one, Accept(1), two); }
    assert Reachable(rules, ended) by { Go(rules, two, SendEnds, ended); }
    assert Reachable(rules, head) by { Go(rules, ended, SendCommits, head); }
    Go(rules, head, SendLoop, Started.(appended := [1, 0], wire := [1, 1]));
  }

  /**
   Main result: no run crashes in a read or leaves unread bytes without a pending edge exactly when the last block of
   the read buffer is never full, as `ChainedBuffer.CommitResv` ensures, and reading always leaves a node, which
   `ChainedBuffer.Read` does not ensure.
   */
  lemma ReadSafeExactlyWhen(rules: Rules)
    ensures (forall s :: Reachable(rules, s) ==> ReadSafe(s)) <==> rules.neverFull && rules.keepsNode
  {
    hide Reachable;
    if rules.neverFull && rules.keepsNode {
      forall s | Reachable(rules, s) ensures ReadSafe(s) {
        ReachableInv(rules, s);
      }
    } else if !rules.keepsNode {
      NoNodeCrashes(rules);
      assert !ReadSafe(Filled.(buffered := 0, room := 1, past := Past(2, 1, 0, false, false), hasNode := false, thread := Crashed));
    } else {
      FullBlockSleeps(rules);
      assert !ReadSafe(Filled.(thread := Between, recvWaits := true, past := Past(2, 0, 0, false, false)));
    }
  }

  /**
   Main result: in every run what the socket accepted followed by what is buffered is all that was appended, in
   order, exactly when at most one `writev` per `async_write` accepts bytes.
   */
  lemma ConservedExactlyWhen(rules: Rules)
    ensures (forall s :: Reachable(rules, s) ==> Conserved(s)) <==> rules.oneAccept
  {
    hide Reachable;
    if rules.oneAccept {
      forall s | Reachable(rules, s) ensures Conserved(s) {
        ReachableInv(rules, s);
      }
    } else {
      TwoAcceptsRepeat(rules);
      assert ([1, 1] + [])[1] != [1, 0][1];
      assert !Conserved(Started.(appended := [1, 0], wire := [1, 1]));
    }
  }
}
