/**
 No push is ever blocked: from every state of a run with grace, whatever the other threads are in the middle of, a
 thread in a `push` comes to its return by steps of its own. Each round through the loop of `push` that claims no slot
 brings `tail_chunk` one chunk closer to the end of the chain, or appends a chunk.
 */
module MpmcProgress {
  import opened Base
  import opened MpmcSteps
  import opened MpmcInvariant
  import opened MpmcEdits
  import opened MpmcRuns
  import opened MpmcResults
  import opened MpmcOnce
  import opened MpmcCalls

  // ---------------------------------------------------------------- how far a push is from its return

  /** Every slot of chunk `c` has been claimed by a push. */
  predicate UsedUp(q: Queue, c: Id) {
    c in q.chunks && q.chunks[c].pushIndex >= CHUNK_SIZE
  }

  /** How many rounds claim nothing when `tail_chunk` is `c`: one for each full chunk from there on. */
  function Ahead(q: Queue, c: Id): nat {
    if c in q.pos && q.pos[c] < |q.chain| then |q.chain| - 1 - q.pos[c] + if UsedUp(q, q.chain[|q.chain| - 1]) then 1 else 0
    else 0
  }

  /** `tail_chunk` after the compare-exchange of line 153. */
  function Helped(q: Queue, tail: Id, expected: Id): Id {
    if q.tail == tail then expected else q.tail
  }

  /** The rounds left once a push that has found chunk `tail` full is back at the start of its loop. */
  function AfterFull(q: Queue, tail: Id): nat {
    if tail in q.chunks && q.chunks[tail].next.Some? then Ahead(q, Helped(q, tail, q.chunks[tail].next.value)) else 0
  }

  function AfterRelease(q: Queue, k: Kont): nat {
    if k.BackToPush? then Ahead(q, Helped(q, k.tail, k.expected)) else 0
  }

  /** It falls with every step of a push on its own. */
  function Rank(q: Queue, pc: Pc): nat {
    match pc
    case PushLoad(_) => 16 * Ahead(q, q.tail) + 6
    case PushClaim(_, tail) => if UsedUp(q, tail) then 16 * AfterFull(q, tail) + 15 else 5
    case PushCheck(_, _, _) => 4
    case PushWrite(_, _, _) => 3
    case PushPublish(_, _, _) => 2
    case PushAlloc(_, tail) => 16 * AfterFull(q, tail) + 14
    case PushLink(_, tail, _) => 16 * AfterFull(q, tail) + 13
    case PushSwing(_, made) => 16 * Ahead(q, made) + 7
    case PushHelp(_, tail, expected) => 16 * Ahead(q, Helped(q, tail, expected)) + 7
    case RelLoad(_, k) => 16 * AfterRelease(q, k) + 12
    case RelStore(_, seen, k) => 16 * AfterRelease(q, k) + if seen == q.free then 9 else 11
    case RelCas(_, seen, k) => 16 * AfterRelease(q, k) + if seen == q.free then 8 else 10
    case _ => 0
  }

  /** Thread `t` can go from `s` to `s'`, which brings its push of `v` closer to the return. */
  ghost predicate Closer(s: State, s': State, t: Tid, v: Value, m: Mode) {
    && t in s.pcs && t in s'.pcs && Next(s, s', t, m)
    && (s'.pcs[t].Idle? || (Pushes(s'.pcs[t], v) && Rank(s'.q, s'.pcs[t]) < Rank(s.q, s.pcs[t])))
  }

  // ---------------------------------------------------------------- one step at a time

  lemma {:induction false} Unused(chunks: map<Id, Chunk>) returns (c: Id)
    ensures forall d :: d in chunks ==> d < c
    decreases |chunks|
  {
    c := 0;
    if d :| d in chunks {
      var b := Unused(chunks - {d});
      c := Max(b, d + 1);
      forall e | e in chunks ensures e < c { if e != d { assert e in chunks - {d}; } }
    }
  }

  lemma LoadCloser(s: State, t: Tid, m: Mode) returns (s': State)
    requires QueueOk(s.q) && t in s.pcs && s.pcs[t].PushLoad?
    ensures Closer(s, s', t, s.pcs[t].v, m)
  {
    hide SlotsOk, PushedOk, PoppedOk, DeliveredOk, ChunkOk;
    var q, v := s.q, s.pcs[t].v;
    s' := State(q, s.pcs[t := PushClaim(v, q.tail)]);
    if UsedUp(q, q.tail) {
      GetNext(q, q.tail);
    }
  }

  lemma ClaimCloser(s: State, t: Tid, m: Mode) returns (s': State)
    requires QueueOk(s.q) && t in s.pcs && s.pcs[t].PushClaim? && Live(s.q, s.pcs[t].tail)
    ensures Closer(s, s', t, s.pcs[t].v, m)
  {
    hide SlotsOk, PushedOk, PoppedOk, DeliveredOk, ChunkOk;
    var q, v, c := s.q, s.pcs[t].v, s.pcs[t].tail;
    GetChunk(q, c);
    ChunkSlots(q, c);
    if UsedUp(q, c) {
      s' := State(SetChunk(q, c, q.chunks[c].(pushIndex := q.chunks[c].pushIndex + 1)), s.pcs[t := PushAlloc(v, c)]);
    } else {
      var i := q.chunks[c].pushIndex;
      s' := State(PushClaimed(q, t, v, c, i), s.pcs[t := PushCheck(v, c, i)]);
    }
  }

  lemma ChunkSlots(q: Queue, c: Id)
    requires ChunkOk(q, c)
    ensures |q.chunks[c].slots| == CHUNK_SIZE
  {
  }

  lemma FillCloser(s: State, t: Tid, m: Mode) returns (s': State)
    requires QueueOk(s.q) && ThreadsOk(s.q, s.pcs) && t in s.pcs && Fills(s.pcs[t])
    ensures Closer(s, s', t, s.pcs[t].v, m)
  {
    hide QueueOk, ThreadsOk;
    var q, pc := s.q, s.pcs[t];
    GetPc(q, s.pcs, t);
    var x := SlotAt(q, pc.tail, pc.index);
    if pc.PushCheck? {
      CheckStep(q, s.pcs, t, pc.v, pc.tail, pc.index);
      s' := State(q, s.pcs[t := PushWrite(pc.v, pc.tail, pc.index)]);
    } else if pc.PushWrite? {
      s' := State(SetSlot(q, pc.tail, pc.index, x.(storage := Some(pc.v))), s.pcs[t := PushPublish(pc.v, pc.tail, pc.index)]);
    } else {
      s' := State(SetSlot(q, pc.tail, pc.index, x.(occupied := true, stage := Full)), s.pcs[t := Idle]);
    }
  }

  lemma AllocCloser(s: State, t: Tid, m: Mode) returns (s': State)
    requires QueueOk(s.q) && t in s.pcs && s.pcs[t].PushAlloc? && Live(s.q, s.pcs[t].tail)
    ensures Closer(s, s', t, s.pcs[t].v, m)
  {
    hide SlotsOk, PushedOk, PoppedOk, DeliveredOk, ChunkOk;
    var q, v, tail := s.q, s.pcs[t].v, s.pcs[t].tail;
    var made := Unused(q.chunks);
    var q' := SetChunk(q, made, NewChunk());
    s' := State(q', s.pcs[t := PushLink(v, tail, made)]);
    assert q.chain[|q.chain| - 1] in q.pos;
    assert forall c :: Ahead(q', c) == Ahead(q, c);
  }

  lemma LinkCloser(s: State, t: Tid, m: Mode) returns (s': State)
    requires QueueOk(s.q) && t in s.pcs && s.pcs[t].PushLink? && PushPcOk(s.q, t, s.pcs[t])
    ensures Closer(s, s', t, s.pcs[t].v, m)
  {
    hide SlotsOk, PushedOk, PoppedOk, DeliveredOk, ChunkOk;
    var q, v, tail, made := s.q, s.pcs[t].v, s.pcs[t].tail, s.pcs[t].made;
    GetNext(q, tail);
    if q.chunks[tail].next == None {
      s' := State(Linked(q, tail, made), s.pcs[t := PushSwing(v, made)]);
      NotPushed(q, made);
    } else {
      s' := State(q, s.pcs[t := RelLoad(made, BackToPush(v, tail, q.chunks[tail].next.value))]);
    }
  }

  lemma NotPushed(q: Queue, c: Id)
    requires QueueOk(q) && c in q.chunks && c !in q.pos
    ensures q.chunks[c].pushIndex == 0
  {
    hide SlotsOk, PushedOk, PoppedOk, DeliveredOk;
  }

  lemma SwingCloser(s: State, t: Tid, m: Mode) returns (s': State)
    requires t in s.pcs && (s.pcs[t].PushSwing? || s.pcs[t].PushHelp?)
    ensures Closer(s, s', t, s.pcs[t].v, m)
  {
    var q, pc := s.q, s.pcs[t];
    var q' := q.(tail := if pc.PushSwing? then pc.made else Helped(q, pc.tail, pc.expected));
    s' := State(q', s.pcs[t := PushLoad(pc.v)]);
    assert Ahead(q', q'.tail) == Ahead(q, q'.tail);
  }

  lemma ReleaseCloser(s: State, t: Tid, v: Value, m: Mode) returns (s': State)
    requires t in s.pcs && ReleasesFor(s.pcs[t], v) && ReleasePcOk(s.q, s.pcs[t])
    ensures Closer(s, s', t, v, m)
  {
    var q, pc := s.q, s.pcs[t];
    if pc.RelStore? {
      s' := StoreCloser(s, t, v, m);
    } else if pc.RelCas? && q.free == pc.seen {
      s' := GiveCloser(s, t, v, m);
    } else {
      s' := State(q, s.pcs[t := RelStore(pc.c, q.free, pc.k)]);
    }
  }

  lemma StoreCloser(s: State, t: Tid, v: Value, m: Mode) returns (s': State)
    requires t in s.pcs && ReleasesFor(s.pcs[t], v) && s.pcs[t].RelStore? && ReleasePcOk(s.q, s.pcs[t])
    ensures Closer(s, s', t, v, m)
  {
    var q, pc := s.q, s.pcs[t];
    var q' := Detached(q, pc.c, pc.seen);
    s' := State(q', s.pcs[t := RelCas(pc.c, pc.seen, pc.k)]);
    assert AfterRelease(q', pc.k) == AfterRelease(q, pc.k);
  }

  lemma GiveCloser(s: State, t: Tid, v: Value, m: Mode) returns (s': State)
    requires t in s.pcs && ReleasesFor(s.pcs[t], v) && s.pcs[t].RelCas? && s.q.free == s.pcs[t].seen
    ensures Closer(s, s', t, v, m)
  {
    var q, pc := s.q, s.pcs[t];
    var q' := q.(free := Some(pc.c));
    s' := State(q', s.pcs[t := PushHelp(v, pc.k.tail, pc.k.expected)]);
    assert AfterRelease(q', pc.k) == AfterRelease(q, pc.k);
  }

  lemma StepCloser(s: State, t: Tid, v: Value, m: Mode) returns (s': State)
    requires Inv(s) && t in s.pcs && Pushes(s.pcs[t], v)
    ensures Closer(s, s', t, v, m)
  {
    hide QueueOk, ThreadsOk, Closer;
    var pc := s.pcs[t];
    GetPc(s.q, s.pcs, t);
    if Fills(pc) { s' := FillCloser(s, t, m); }
    else if pc.PushLoad? { s' := LoadCloser(s, t, m); }
    else if pc.PushClaim? { s' := ClaimCloser(s, t, m); }
    else if pc.PushAlloc? { s' := AllocCloser(s, t, m); }
    else if pc.PushLink? { s' := LinkCloser(s, t, m); }
    else if pc.PushSwing? || pc.PushHelp? { s' := SwingCloser(s, t, m); }
    else { s' := ReleaseCloser(s, t, v, m); }
  }

  // ---------------------------------------------------------------- to the return

  /** A run of steps of thread `t` alone. */
  ghost predicate Alone(steps: seq<State>, t: Tid, m: Mode) {
    forall i :: 0 <= i < |steps| - 1 ==> Next(steps[i], steps[i + 1], t, m)
  }

  lemma {:induction false} Returns(s: State, t: Tid, v: Value, m: Mode) returns (steps: seq<State>)
    requires Inv(s) && m.Grace() && t in s.pcs && Pushes(s.pcs[t], v)
    ensures |steps| > 1 && steps[0] == s && Alone(steps, t, m) && steps[|steps| - 1].pcs == s.pcs[t := Idle]
    decreases Rank(s.q, s.pcs[t])
  {
    hide Inv, Next, Pushes;
    var s' := StepCloser(s, t, v, m);
    OnlyOne(s, s', t, m);
    if s'.pcs[t].Idle? {
      steps := [s, s'];
    } else {
      StepKeeps(s, s', t, m);
      var rest := Returns(s', t, v, m);
      steps := [s] + rest;
      forall i | 0 <= i < |steps| - 1 ensures Next(steps[i], steps[i + 1], t, m) {
        if i > 0 { assert Next(rest[i - 1], rest[i], t, m); }
      }
    }
  }

  lemma OnlyOne(s: State, s': State, t: Tid, m: Mode)
    requires Next(s, s', t, m)
    ensures t in s'.pcs && s'.pcs == s.pcs[t := s'.pcs[t]]
  {
  }

  /**
   Main result: a run with grace that ends with thread `t` in a push of `v` can go on, by steps of that thread alone,
   to its return.
   */
  lemma PushCanReturn(run: seq<State>, m: Mode, t: Tid, v: Value) returns (longer: seq<State>)
    requires IsRun(run, m) && m.Grace() && t in run[|run| - 1].pcs && Pushes(run[|run| - 1].pcs[t], v)
    ensures Continues(run, longer, t, m) && longer[|longer| - 1].pcs == run[|run| - 1].pcs[t := Idle]
  {
    hide Next, Inv, Settled, Init, Pushes;
    RunInv(run, m, |run| - 1);
    var steps := Returns(run[|run| - 1], t, v, m);
    Continued(run, steps, t, m);
    longer := run + steps[1..];
  }

  // ---------------------------------------------------------------- a pop with nobody else at work

  /** A pop that has seen the queue as it is now. */
  ghost predicate UpToDate(q: Queue, pc: Pc) {
    match pc
    case PopLoad => true
    case PopIndex(head) => head == q.head
    case PopPeek(head, i) => head == q.head && head in q.chunks && q.chunks[head].popIndex == i
    case PopNextFull(head) => head == q.head
    case PopNextEmpty(head) => head == q.head
    case PopAdvance(head, next) => head == q.head && next in q.pos && head in q.pos && q.pos[next] == q.pos[head] + 1
    case PopClaim(head, i) => head in q.chunks && q.chunks[head].popIndex == i
    case _ => Waits(pc) || Gave(pc)
  }

  /** Releasing comes after the return of a value, or before the next round. */
  function RankRelease(k: Kont, n: nat): nat {
    if k.BackToPop? then n + 20 else n
  }

  /** It falls with every step of such a pop. */
  function PopRank(q: Queue, pc: Pc): nat {
    var chunks := if q.head in q.pos && q.pos[q.head] < |q.chain| then 40 * (|q.chain| - 1 - q.pos[q.head]) else 0;
    match pc
    case PopLoad => chunks + 18
    case PopIndex(_) => chunks + 17
    case PopPeek(_, _) => chunks + 16
    case PopNextFull(_) => chunks + 15
    case PopNextEmpty(_) => chunks + 15
    case PopAdvance(_, _) => chunks + 14
    case PopRetire(_) => chunks + 30
    case PopClaim(_, _) => chunks + 15
    case PopRegister(_, _) => chunks + 14
    case PopWait(_, _) => chunks + 13
    case PopTake(_, _) => chunks + 12
    case PopDestroy(_, _) => chunks + 11
    case PopUnregister(_) => chunks + 10
    case TryReaders(_, k) => chunks + RankRelease(k, 9)
    case TryRetired(_, k) => chunks + RankRelease(k, 8)
    case RelLoad(_, k) => chunks + RankRelease(k, 7)
    case RelStore(_, seen, k) => chunks + RankRelease(k, if seen == q.free then 2 else 4)
    case RelCas(_, seen, k) => chunks + RankRelease(k, if seen == q.free then 1 else 3)
    case _ => 0
  }

  ghost predicate OthersIdle(s: State, t: Tid) {
    forall u :: u in s.pcs && u != t ==> s.pcs[u].Idle?
  }

  /** All threads but `t` are idle, which is in a pop, and `tail_chunk` is the last chunk. */
  ghost predicate OnlyPopping(s: State, t: Tid) {
    && t in s.pcs && OthersIdle(s, t)
    && s.q.tail in s.q.pos && s.q.pos[s.q.tail] == |s.q.chain| - 1 && UpToDate(s.q, s.pcs[t])
  }

  ghost predicate PopCloser(s: State, s': State, t: Tid, m: Mode) {
    && t in s.pcs && t in s'.pcs && Next(s, s', t, m) && s'.q.tail == s.q.tail && s'.q.pos == s.q.pos && s'.q.chain == s.q.chain
    && (s'.pcs[t].Idle? || (UpToDate(s'.q, s'.pcs[t]) && PopRank(s'.q, s'.pcs[t]) < PopRank(s.q, s.pcs[t])))
  }

  lemma LookCloser(s: State, t: Tid, m: Mode) returns (s': State)
    requires QueueOk(s.q) && t in s.pcs && UpToDate(s.q, s.pcs[t])
    requires var pc := s.pcs[t]; pc.PopLoad? || pc.PopIndex? || pc.PopPeek? || pc.PopNextFull? || pc.PopNextEmpty?
    ensures PopCloser(s, s', t, m)
  {
    hide SlotsOk, PushedOk, PoppedOk, DeliveredOk, ChunkOk;
    var q, pc := s.q, s.pcs[t];
    GetNext(q, q.head);
    var ch := q.chunks[q.head];
    var pc' :=
      if pc.PopLoad? then PopIndex(q.head)
      else if pc.PopIndex? then PopPeek(q.head, ch.popIndex)
      else if !pc.PopPeek? then AfterNext(q.head, ch.next)
      else if pc.index >= CHUNK_SIZE then PopNextFull(q.head)
      else if pc.index < ch.pushIndex then PopClaim(q.head, pc.index)
      else if m.atomicPeek then AfterNext(q.head, ch.next)
      else PopNextEmpty(q.head);
    s' := State(q, s.pcs[t := pc']);
  }

  lemma AdvanceCloser(s: State, t: Tid, m: Mode) returns (s': State)
    requires QueueOk(s.q) && t in s.pcs && s.pcs[t].PopAdvance? && UpToDate(s.q, s.pcs[t])
    ensures PopCloser(s, s', t, m)
  {
    hide SlotsOk, PushedOk, PoppedOk, DeliveredOk, ChunkOk;
    s' := State(s.q.(head := s.pcs[t].next), s.pcs[t := PopRetire(s.pcs[t].head)]);
  }

  lemma ClaimSlotCloser(s: State, t: Tid, m: Mode) returns (s': State)
    requires QueueOk(s.q) && ThreadsOk(s.q, s.pcs) && OnlyPopping(s, t)
    requires var pc := s.pcs[t]; pc.PopClaim? || pc.PopRegister? || pc.PopWait?
    ensures PopCloser(s, s', t, m)
  {
    hide QueueOk, ThreadsOk;
    var q, pc := s.q, s.pcs[t];
    GetPc(q, s.pcs, t);
    if pc.PopClaim? {
      GetChunk(q, pc.head);
      ChunkSlots(q, pc.head);
      s' := State(PopClaimed(q, t, pc.head, pc.index), s.pcs[t := PopRegister(pc.head, pc.index)]);
    } else if pc.PopRegister? {
      s' := Registered(s, t, m);
    } else {
      GetChunk(q, pc.head);
      GetSlot(q, pc.head, pc.index);
      if SlotAt(q, pc.head, pc.index).stage == Reserved { GetPusher(q, s.pcs, pc.head, pc.index); }
      s' := State(q, s.pcs[t := PopTake(pc.head, pc.index)]);
    }
  }

  lemma Registered(s: State, t: Tid, m: Mode) returns (s': State)
    requires t in s.pcs && s.pcs[t].PopRegister? && s.pcs[t].head in s.q.chunks
    ensures PopCloser(s, s', t, m)
  {
    var q, pc := s.q, s.pcs[t];
    var q' := SetChunk(q, pc.head, q.chunks[pc.head].(readers := q.chunks[pc.head].readers + 1));
    s' := State(q', s.pcs[t := PopWait(pc.head, pc.index)]);
  }

  lemma TakeCloser(s: State, t: Tid, m: Mode) returns (s': State)
    requires QueueOk(s.q) && ThreadsOk(s.q, s.pcs) && OnlyPopping(s, t)
    requires var pc := s.pcs[t]; pc.PopTake? || pc.PopDestroy?
    ensures PopCloser(s, s', t, m)
  {
    hide QueueOk, ThreadsOk;
    var q, pc := s.q, s.pcs[t];
    GetPc(q, s.pcs, t);
    GetChunk(q, pc.head);
    GetSlot(q, pc.head, pc.index);
    var x := SlotAt(q, pc.head, pc.index);
    if pc.PopTake? {
      var q' := SetSlot(q, pc.head, pc.index, x.(stage := Moved))
        .(delivered := q.delivered + [Claim(pc.head, pc.index, x.storage.value)]);
      s' := State(q', s.pcs[t := PopDestroy(pc.head, pc.index)]);
    } else {
      s' := State(SetSlot(q, pc.head, pc.index, x.(occupied := false, stage := Spent)), s.pcs[t := PopUnregister(pc.head)]);
    }
  }

  lemma LeaveCloser(s: State, t: Tid, m: Mode) returns (s': State)
    requires t in s.pcs && (s.pcs[t].PopRetire? || s.pcs[t].PopUnregister?) && s.pcs[t].head in s.q.chunks
    ensures PopCloser(s, s', t, m)
  {
    var q, pc := s.q, s.pcs[t];
    if pc.PopRetire? {
      s' := State(SetChunk(q, pc.head, q.chunks[pc.head].(retired := true)), s.pcs[t := TryReaders(pc.head, BackToPop)]);
    } else {
      var q' := SetChunk(q, pc.head, q.chunks[pc.head].(readers := q.chunks[pc.head].readers - 1));
      s' := State(q', s.pcs[t := TryReaders(pc.head, PopReturn)]);
    }
  }

  lemma TryCloser(s: State, t: Tid, m: Mode) returns (s': State)
    requires t in s.pcs && UpToDate(s.q, s.pcs[t]) && (s.pcs[t].TryReaders? || s.pcs[t].TryRetired?) && s.pcs[t].c in s.q.chunks
    ensures PopCloser(s, s', t, m)
  {
    var q, pc := s.q, s.pcs[t];
    if pc.TryReaders? {
      s' := State(q, s.pcs[t := if q.chunks[pc.c].readers == 0 then TryRetired(pc.c, pc.k) else Resume(pc.k)]);
    } else if q.chunks[pc.c].retired {
      s' := State(SetChunk(q, pc.c, q.chunks[pc.c].(retired := false)), s.pcs[t := RelLoad(pc.c, pc.k)]);
    } else {
      s' := State(q, s.pcs[t := Resume(pc.k)]);
    }
  }

  lemma GiveBackCloser(s: State, t: Tid, m: Mode) returns (s': State)
    requires ChainOk(s.q) && OnlyPopping(s, t) && ReleasePcOk(s.q, s.pcs[t])
    requires var pc := s.pcs[t]; pc.RelLoad? || pc.RelStore? || pc.RelCas?
    ensures PopCloser(s, s', t, m)
  {
    var q, pc := s.q, s.pcs[t];
    if pc.RelStore? {
      s' := PopStoreCloser(s, t, m);
    } else if pc.RelCas? && q.free == pc.seen {
      s' := State(q.(free := Some(pc.c)), s.pcs[t := Resume(pc.k)]);
    } else {
      s' := State(q, s.pcs[t := RelStore(pc.c, q.free, pc.k)]);
    }
  }

  lemma PopStoreCloser(s: State, t: Tid, m: Mode) returns (s': State)
    requires ChainOk(s.q) && OnlyPopping(s, t) && ReleasePcOk(s.q, s.pcs[t]) && s.pcs[t].RelStore?
    ensures PopCloser(s, s', t, m)
  {
    var q, pc := s.q, s.pcs[t];
    s' := State(Detached(q, pc.c, pc.seen), s.pcs[t := RelCas(pc.c, pc.seen, pc.k)]);
  }

  lemma PopStepCloser(s: State, t: Tid, m: Mode) returns (s': State)
    requires Inv(s) && OnlyPopping(s, t)
    ensures PopCloser(s, s', t, m)
  {
    hide QueueOk, ThreadsOk, PopCloser, UpToDate;
    var q, pc := s.q, s.pcs[t];
    GetPc(q, s.pcs, t);
    InPopPcs(q, pc);
    GetChunks(q);
    if pc.PopLoad? || pc.PopIndex? || pc.PopPeek? || pc.PopNextFull? || pc.PopNextEmpty? {
      s' := LookCloser(s, t, m);
    } else if pc.PopAdvance? {
      s' := AdvanceCloser(s, t, m);
    } else if pc.PopClaim? || pc.PopRegister? || pc.PopWait? {
      s' := ClaimSlotCloser(s, t, m);
    } else if pc.PopTake? || pc.PopDestroy? {
      s' := TakeCloser(s, t, m);
    } else if pc.PopRetire? || pc.PopUnregister? {
      s' := LeaveCloser(s, t, m);
    } else if pc.TryReaders? || pc.TryRetired? {
      s' := TryCloser(s, t, m);
    } else {
      s' := GiveBackCloser(s, t, m);
    }
  }

  lemma InPopPcs(q: Queue, pc: Pc)
    requires UpToDate(q, pc)
    ensures Waits(pc) || Gave(pc)
  {
  }

  lemma GetChunks(q: Queue)
    requires QueueOk(q)
    ensures ChainOk(q)
  {
  }

  lemma {:induction false} PopReturns(s: State, t: Tid, m: Mode) returns (steps: seq<State>)
    requires Inv(s) && m.Grace() && OnlyPopping(s, t)
    ensures |steps| > 1 && steps[0] == s && Alone(steps, t, m) && steps[|steps| - 1].pcs == s.pcs[t := Idle]
    decreases PopRank(s.q, s.pcs[t])
  {
    hide Inv, Next, UpToDate;
    var s' := PopStepCloser(s, t, m);
    OnlyOne(s, s', t, m);
    if s'.pcs[t].Idle? {
      steps := [s, s'];
    } else {
      StepKeeps(s, s', t, m);
      var rest := PopReturns(s', t, m);
      steps := [s] + rest;
      forall i | 0 <= i < |steps| - 1 ensures Next(steps[i], steps[i + 1], t, m) {
        if i > 0 { assert Next(rest[i - 1], rest[i], t, m); }
      }
    }
  }

  /** A run followed by steps of one thread. */
  ghost predicate Continues(run: seq<State>, longer: seq<State>, t: Tid, m: Mode) {
    IsRun(longer, m) && 0 < |run| < |longer| && run == longer[..|run|] && Alone(longer[|run| - 1..], t, m)
  }

  lemma Continued(run: seq<State>, steps: seq<State>, t: Tid, m: Mode)
    requires IsRun(run, m) && |steps| > 1 && steps[0] == run[|run| - 1] && Alone(steps, t, m)
    ensures Continues(run, run + steps[1..], t, m)
  {
    hide Next, Init;
    var longer := run + steps[1..];
    assert longer[|run| - 1..] == steps;
    forall i | 0 <= i < |longer| - 1 ensures SomeStep(longer[i], longer[i + 1], m) {
      if i < |run| - 1 {
        assert SomeStep(run[i], run[i + 1], m);
      } else {
        assert Next(steps[i + 1 - |run|], steps[i + 2 - |run|], t, m);
      }
    }
  }

  /**
   Main result: when all other threads are idle and `tail_chunk` is the last chunk, a pop that has just begun can go on
   to its return.
   */
  lemma PopCanReturn(run: seq<State>, m: Mode, t: Tid) returns (longer: seq<State>)
    requires IsRun(run, m) && m.Grace() && t in run[|run| - 1].pcs && run[|run| - 1].pcs[t] == PopLoad
    requires OthersIdle(run[|run| - 1], t)
    requires var q := run[|run| - 1].q; q.chain != [] && q.tail == q.chain[|q.chain| - 1]
    ensures Continues(run, longer, t, m) && longer[|longer| - 1].pcs == run[|run| - 1].pcs[t := Idle]
  {
    hide Next, Settled, Init, Alone, SlotsOk, PushedOk, PoppedOk, DeliveredOk, ChunkOk, ThreadsOk;
    RunInv(run, m, |run| - 1);
    var steps := PopReturns(run[|run| - 1], t, m);
    Continued(run, steps, t, m);
    longer := run + steps[1..];
  }
}
