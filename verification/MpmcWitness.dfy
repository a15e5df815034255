/**
 All three conditions of the first-in-first-out result are needed: a run without the one-step reading of lines 169
 and 188 that steps over a full chunk, a run in which a chunk is released while another thread can come back to it
 and a pop returns false although a value is waiting, and one in which it is released while `tail_chunk` still
 leads to it and a push goes to a chunk that pops never reach.
 */
module MpmcWitness {
  import opened Base
  import opened MpmcSteps
  import opened MpmcResults

  // ---------------------------------------------------------------- runs built step by step

  ghost predicate Leads(s: State, s': State, m: Mode, n: nat)
    decreases n
  {
    if n == 0 then s == s' else exists mid :: SomeStep(s, mid, m) && Leads(mid, s', m, n - 1)
  }

  ghost predicate Reaches(s: State, s': State, m: Mode) {
    exists n: nat :: Leads(s, s', m, n)
  }

  lemma ReachesSelf(s: State, m: Mode)
    ensures Reaches(s, s, m)
  {
    assert Leads(s, s, m, 0);
  }

  lemma ReachesFirst(s: State, t: Tid, mid: State, s': State, m: Mode)
    requires Next(s, mid, t, m) && Reaches(mid, s', m)
    ensures Reaches(s, s', m)
  {
    var n: nat :| Leads(mid, s', m, n);
    assert SomeStep(s, mid, m);
    assert Leads(s, s', m, n + 1);
  }

  lemma {:induction false} LeadsTrans(a: State, b: State, c: State, m: Mode, i: nat, j: nat)
    requires Leads(a, b, m, i) && Leads(b, c, m, j)
    ensures Leads(a, c, m, i + j)
    decreases i
  {
    if i > 0 {
      var mid :| SomeStep(a, mid, m) && Leads(mid, b, m, i - 1);
      LeadsTrans(mid, b, c, m, i - 1, j);
    }
  }

  lemma ReachesTrans(a: State, b: State, c: State, m: Mode)
    requires Reaches(a, b, m) && Reaches(b, c, m)
    ensures Reaches(a, c, m)
  {
    var i: nat :| Leads(a, b, m, i);
    var j: nat :| Leads(b, c, m, j);
    LeadsTrans(a, b, c, m, i, j);
  }

  lemma {:induction false} LeadsRun(run: seq<State>, s': State, m: Mode, n: nat) returns (longer: seq<State>)
    requires IsRun(run, m) && Leads(run[|run| - 1], s', m, n)
    ensures IsRun(longer, m) && longer[|longer| - 1] == s'
    decreases n
  {
    if n == 0 {
      longer := run;
    } else {
      var mid :| SomeStep(run[|run| - 1], mid, m) && Leads(mid, s', m, n - 1);
      longer := LeadsRun(run + [mid], s', m, n - 1);
    }
  }

  lemma ReachesRun(s: State, s': State, m: Mode) returns (run: seq<State>)
    requires Init(s) && Reaches(s, s', m)
    ensures IsRun(run, m) && run[|run| - 1] == s'
  {
    var n: nat :| Leads(s, s', m, n);
    run := LeadsRun([s], s', m, n);
  }

  // ---------------------------------------------------------------- filling and draining the first chunk

  /** Slot `i` once `n` values have been pushed by thread 0 and `p` popped by thread 1. */
  function SlotOf(v: Value, n: nat, p: nat, i: nat): Slot {
    if i < p then Slot(false, Some(v), Spent, Some(0), Some(1))
    else if i < n then Slot(true, Some(v), Full, Some(0), None)
    else VacantSlot()
  }

  function ChunkOf(v: Value, n: nat, p: nat): Chunk {
    Chunk(None, seq(CHUNK_SIZE, i requires 0 <= i => SlotOf(v, n, p, i)), n, p, 0, false)
  }

  /** Chunk 0 alone, after `n` pushes and `p` pops. */
  function QueueOf(v: Value, n: nat, p: nat): Queue {
    Queue(map[0 := ChunkOf(v, n, p)], 0, 0, None, [0], map[0 := 0], 0,
      seq(n, i requires 0 <= i => Claim(0, i, v)), seq(p, i requires 0 <= i => Taken(0, i)),
      seq(p, i requires 0 <= i => Claim(0, i, v)))
  }

  function Threads(a: Pc, b: Pc, c: Pc): map<Tid, Pc> {
    map[0 := a, 1 := b, 2 := c]
  }

  lemma InitialState(v: Value)
    ensures Init(State(QueueOf(v, 0, 0), Threads(Idle, Idle, Idle)))
  {
    assert ChunkOf(v, 0, 0) == NewChunk();
  }

  // ---------------------------------------------------------------- one call of a thread, other threads at rest

  lemma PushMove(q: Queue, q': Queue, pcs: map<Tid, Pc>, t: Tid, pc: Pc, pc': Pc, s': State, m: Mode)
    requires PushStep(q, q', t, pc, pc') || StartStep(q, q', pc, pc')
    requires Reaches(State(q', pcs[t := pc']), s', m)
    ensures Reaches(State(q, pcs[t := pc]), s', m)
  {
    hide PushStep, StartStep;
    NotRelStore(q, q', t, pc, pc', m);
    assert pcs[t := pc][t := pc'] == pcs[t := pc'];
    ReachesFirst(State(q, pcs[t := pc]), t, State(q', pcs[t := pc']), s', m);
  }

  lemma PopMove(q: Queue, q': Queue, pcs: map<Tid, Pc>, t: Tid, pc: Pc, pc': Pc, s': State, m: Mode)
    requires PopStep(q, q', t, pc, pc', m)
    requires Reaches(State(q', pcs[t := pc']), s', m)
    ensures Reaches(State(q, pcs[t := pc]), s', m)
  {
    hide PopStep;
    NotRelStore(q, q', t, pc, pc', m);
    assert pcs[t := pc][t := pc'] == pcs[t := pc'];
    ReachesFirst(State(q, pcs[t := pc]), t, State(q', pcs[t := pc']), s', m);
  }

  /** The mode allows the release of `c` while the threads other than `t` stand as in `pcs`. */
  ghost predicate MayRelease(q: Queue, pcs: map<Tid, Pc>, t: Tid, c: Id, m: Mode) {
    (m.tailGrace ==> TailGrace(State(q, pcs), c)) && (m.refsGrace ==> RefsGrace(State(q, pcs), t, c))
  }

  lemma ReleaseMove(q: Queue, q': Queue, pcs: map<Tid, Pc>, t: Tid, pc: Pc, pc': Pc, s': State, m: Mode)
    requires ReleaseStep(q, q', pc, pc') && (pc.RelStore? ==> MayRelease(q, pcs, t, pc.c, m))
    requires Reaches(State(q', pcs[t := pc']), s', m)
    ensures Reaches(State(q, pcs[t := pc]), s', m)
  {
    hide ReleaseStep;
    assert pcs[t := pc][t := pc'] == pcs[t := pc'];
    ReachesFirst(State(q, pcs[t := pc]), t, State(q', pcs[t := pc']), s', m);
  }

  lemma NotRelStore(q: Queue, q': Queue, t: Tid, pc: Pc, pc': Pc, m: Mode)
    ensures pc.RelStore? ==> !PushStep(q, q', t, pc, pc') && !StartStep(q, q', pc, pc') && !PopStep(q, q', t, pc, pc', m)
  {
  }

  /** The queue after a whole push of `v` into slot `i` of `c`. */
  function Pushed(q: Queue, t: Tid, v: Value, c: Id, i: nat): Queue
    requires Addr(q, c, i)
  {
    var q1 := PushClaimed(q, t, v, c, i);
    var q2 := SetSlot(q1, c, i, SlotAt(q1, c, i).(storage := Some(v)));
    SetSlot(q2, c, i, SlotAt(q2, c, i).(occupied := true, stage := Full))
  }

  lemma PushRun(q: Queue, pcs: map<Tid, Pc>, t: Tid, v: Value, c: Id, i: nat, m: Mode)
    requires q.tail == c && Addr(q, c, i) && i == q.chunks[c].pushIndex < CHUNK_SIZE && !SlotAt(q, c, i).occupied
    ensures Reaches(State(q, pcs[t := PushLoad(v)]), State(Pushed(q, t, v, c, i), pcs[t := Idle]), m)
  {
    hide Reaches, PopStep, ReleaseStep;
    var q1 := PushClaimed(q, t, v, c, i);
    var q2 := SetSlot(q1, c, i, SlotAt(q1, c, i).(storage := Some(v)));
    var q3 := Pushed(q, t, v, c, i);
    var s' := State(q3, pcs[t := Idle]);
    ReachesSelf(s', m);
    PushMove(q2, q3, pcs, t, PushPublish(v, c, i), Idle, s', m);
    PushMove(q1, q2, pcs, t, PushWrite(v, c, i), PushPublish(v, c, i), s', m);
    PushMove(q1, q1, pcs, t, PushCheck(v, c, i), PushWrite(v, c, i), s', m);
    PushMove(q, q1, pcs, t, PushClaim(v, c), PushCheck(v, c, i), s', m);
    PushMove(q, q, pcs, t, PushLoad(v), PushClaim(v, c), s', m);
  }

  lemma Start(q: Queue, pcs: map<Tid, Pc>, t: Tid, pc: Pc, s': State, m: Mode)
    requires t in pcs && pcs[t] == Idle && (pc.PushLoad? || pc.PopLoad?) && Reaches(State(q, pcs[t := pc]), s', m)
    ensures Reaches(State(q, pcs), s', m)
  {
    hide Reaches, PushStep;
    PushMove(q, q, pcs, t, Idle, pc, s', m);
    assert pcs[t := Idle] == pcs;
  }

  function SetReaders(q: Queue, c: Id, n: int): Queue
    requires c in q.chunks
  {
    SetChunk(q, c, q.chunks[c].(readers := n))
  }

  function Take(q: Queue, c: Id, i: nat, v: Value): Queue
    requires Addr(q, c, i)
  {
    SetSlot(q, c, i, SlotAt(q, c, i).(stage := Moved)).(delivered := q.delivered + [Claim(c, i, v)])
  }

  function Destroy(q: Queue, c: Id, i: nat): Queue
    requires Addr(q, c, i)
  {
    SetSlot(q, c, i, SlotAt(q, c, i).(occupied := false, stage := Spent))
  }

  /** The queue after a whole pop of `v` from slot `i` of `c`. */
  function Popped(q: Queue, t: Tid, v: Value, c: Id, i: nat): Queue
    requires Addr(q, c, i)
  {
    SetReaders(Destroy(Take(SetReaders(PopClaimed(q, t, c, i), c, 1), c, i, v), c, i), c, 0)
  }

  lemma PopRun(q: Queue, pcs: map<Tid, Pc>, t: Tid, v: Value, c: Id, i: nat, m: Mode)
    requires t in pcs && pcs[t] == Idle
    requires q.head == c && Addr(q, c, i) && i == q.chunks[c].popIndex < q.chunks[c].pushIndex && i < CHUNK_SIZE
    requires SlotAt(q, c, i).occupied && SlotAt(q, c, i).storage == Some(v)
    requires q.chunks[c].readers == 0 && !q.chunks[c].retired
    ensures Reaches(State(q, pcs), State(Popped(q, t, v, c, i), pcs), m)
  {
    hide Reaches, ReleaseStep, StartStep, PushStep, Popped, PopClaimed;
    var s' := State(Popped(q, t, v, c, i), pcs);
    PopRunRead(q, pcs, t, v, c, i, m);
    PopMove(q, q, pcs, t, PopPeek(c, i), PopClaim(c, i), s', m);
    PopMove(q, q, pcs, t, PopIndex(c), PopPeek(c, i), s', m);
    PopMove(q, q, pcs, t, PopLoad, PopIndex(c), s', m);
    Start(q, pcs, t, PopLoad, s', m);
  }

  lemma PopRunRead(q: Queue, pcs: map<Tid, Pc>, t: Tid, v: Value, c: Id, i: nat, m: Mode)
    requires t in pcs && pcs[t] == Idle
    requires Addr(q, c, i) && i == q.chunks[c].popIndex && SlotAt(q, c, i).occupied && SlotAt(q, c, i).storage == Some(v)
    requires q.chunks[c].readers == 0 && !q.chunks[c].retired
    ensures Reaches(State(q, pcs[t := PopClaim(c, i)]), State(Popped(q, t, v, c, i), pcs), m)
  {
    hide Reaches, ReleaseStep, StartStep, PushStep, Take, Destroy;
    var q1 := PopClaimed(q, t, c, i);
    var q2 := SetReaders(q1, c, 1);
    var s' := State(Popped(q, t, v, c, i), pcs);
    TakeRun(q2, pcs, t, v, c, i, m);
    PopMove(q1, q2, pcs, t, PopRegister(c, i), PopWait(c, i), s', m);
    PopMove(q, q1, pcs, t, PopClaim(c, i), PopRegister(c, i), s', m);
  }

  lemma TakeRun(q: Queue, pcs: map<Tid, Pc>, t: Tid, v: Value, c: Id, i: nat, m: Mode)
    requires t in pcs && pcs[t] == Idle && Addr(q, c, i) && SlotAt(q, c, i).occupied && SlotAt(q, c, i).storage == Some(v)
    requires q.chunks[c].readers == 1 && !q.chunks[c].retired
    ensures Addr(Take(q, c, i, v), c, i) && c in Destroy(Take(q, c, i, v), c, i).chunks
    ensures Reaches(State(q, pcs[t := PopWait(c, i)]), State(SetReaders(Destroy(Take(q, c, i, v), c, i), c, 0), pcs), m)
  {
    hide Reaches, ReleaseStep, StartStep, PushStep;
    var q1 := Take(q, c, i, v);
    var s' := State(SetReaders(Destroy(q1, c, i), c, 0), pcs);
    PopRunLeave(q1, pcs, t, c, i, m);
    PopMove(q, q1, pcs, t, PopTake(c, i), PopDestroy(c, i), s', m);
    PopMove(q, q, pcs, t, PopWait(c, i), PopTake(c, i), s', m);
  }

  lemma PopRunLeave(q: Queue, pcs: map<Tid, Pc>, t: Tid, c: Id, i: nat, m: Mode)
    requires t in pcs && pcs[t] == Idle && Addr(q, c, i) && q.chunks[c].readers == 1 && !q.chunks[c].retired
    ensures Reaches(State(q, pcs[t := PopDestroy(c, i)]), State(SetReaders(Destroy(q, c, i), c, 0), pcs), m)
  {
    hide Reaches, StartStep, PushStep;
    var q1 := Destroy(q, c, i);
    var q2 := SetReaders(q1, c, 0);
    var s' := State(q2, pcs);
    ReachesSelf(s', m);
    assert pcs[t := Idle] == pcs;
    ReleaseMove(q2, q2, pcs, t, TryRetired(c, PopReturn), Idle, s', m);
    ReleaseMove(q2, q2, pcs, t, TryReaders(c, PopReturn), TryRetired(c, PopReturn), s', m);
    PopMove(q1, q2, pcs, t, PopUnregister(c), TryReaders(c, PopReturn), s', m);
    PopMove(q, q1, pcs, t, PopDestroy(c, i), PopUnregister(c), s', m);
  }

  lemma PushedQueueOf(v: Value, n: nat)
    requires n < CHUNK_SIZE
    ensures Addr(QueueOf(v, n, 0), 0, n) && Pushed(QueueOf(v, n, 0), 0, v, 0, n) == QueueOf(v, n + 1, 0)
  {
    var a, b := Pushed(QueueOf(v, n, 0), 0, v, 0, n), QueueOf(v, n + 1, 0);
    assert a.chunks[0].slots == b.chunks[0].slots;
    assert a.chunks[0] == b.chunks[0];
    assert a.chunks == b.chunks && a.pushed == b.pushed;
  }

  lemma PoppedQueueOf(v: Value, p: nat)
    requires p < CHUNK_SIZE
    ensures Addr(QueueOf(v, CHUNK_SIZE, p), 0, p)
    ensures Popped(QueueOf(v, CHUNK_SIZE, p), 1, v, 0, p) == QueueOf(v, CHUNK_SIZE, p + 1)
  {
    var a, b := Popped(QueueOf(v, CHUNK_SIZE, p), 1, v, 0, p), QueueOf(v, CHUNK_SIZE, p + 1);
    assert a.chunks[0].slots == b.chunks[0].slots;
    assert a.chunks[0] == b.chunks[0];
    assert a.chunks == b.chunks && a.popped == b.popped && a.delivered == b.delivered;
  }

  lemma {:induction false} Fill(v: Value, n: nat, pcs: map<Tid, Pc>, m: Mode)
    requires n <= CHUNK_SIZE && 0 in pcs && pcs[0] == Idle
    ensures Reaches(State(QueueOf(v, 0, 0), pcs), State(QueueOf(v, n, 0), pcs), m)
  {
    hide Reaches, Pushed;
    if n == 0 {
      ReachesSelf(State(QueueOf(v, 0, 0), pcs), m);
    } else {
      Fill(v, n - 1, pcs, m);
      PushedQueueOf(v, n - 1);
      PushRun(QueueOf(v, n - 1, 0), pcs, 0, v, 0, n - 1, m);
      assert pcs[0 := Idle] == pcs;
      Start(QueueOf(v, n - 1, 0), pcs, 0, PushLoad(v), State(QueueOf(v, n, 0), pcs), m);
      ReachesTrans(State(QueueOf(v, 0, 0), pcs), State(QueueOf(v, n - 1, 0), pcs), State(QueueOf(v, n, 0), pcs), m);
    }
  }

  lemma {:induction false} Drain(v: Value, p: nat, pcs: map<Tid, Pc>, m: Mode)
    requires p <= CHUNK_SIZE && 1 in pcs && pcs[1] == Idle
    ensures Reaches(State(QueueOf(v, CHUNK_SIZE, 0), pcs), State(QueueOf(v, CHUNK_SIZE, p), pcs), m)
  {
    hide Reaches, Popped;
    if p == 0 {
      ReachesSelf(State(QueueOf(v, CHUNK_SIZE, 0), pcs), m);
    } else {
      Drain(v, p - 1, pcs, m);
      PoppedQueueOf(v, p - 1);
      var q := QueueOf(v, CHUNK_SIZE, p - 1);
      PopRun(q, pcs, 1, v, 0, p - 1, m);
      ReachesTrans(State(QueueOf(v, CHUNK_SIZE, 0), pcs), State(q, pcs), State(QueueOf(v, CHUNK_SIZE, p), pcs), m);
    }
  }

  // ---------------------------------------------------------------- the sixty-fifth push

  /** Chunk 1 linked behind the full chunk 0, of which `p` slots have been popped, and nothing in it yet. */
  function TwoChunks(v: Value, p: nat): Queue {
    var q := QueueOf(v, CHUNK_SIZE, p);
    q.(chunks := map[0 := ChunkOf(v, CHUNK_SIZE, p).(pushIndex := CHUNK_SIZE + 1, next := Some(1)), 1 := NewChunk()],
       tail := 1, chain := [0, 1], pos := map[0 := 0, 1 := 1])
  }

  /** Chunk 0 full and once overflowed. */
  function Overflowed(v: Value, p: nat): Queue {
    var q := QueueOf(v, CHUNK_SIZE, p);
    SetChunk(q, 0, q.chunks[0].(pushIndex := CHUNK_SIZE + 1))
  }

  /** ... and after the sixty-fifth push. */
  function SixtyFive(v: Value, p: nat): Queue {
    Pushed(TwoChunks(v, p), 0, v, 1, 0)
  }

  /** Chunk 0 leads to chunk 1, which holds a value nobody has claimed. */
  ghost predicate Waiting(q: Queue) {
    q.head == 0 && 0 in q.chunks && q.chunks[0].next == Some(1) && q.chunks[0].readers == 0 && !q.chunks[0].retired
    && Addr(q, 1, 0) && q.chunks[1].popIndex == 0 && q.chunks[1].pushIndex == 1
  }

  lemma SixtyFiveWaits(v: Value, p: nat)
    ensures Waiting(SixtyFive(v, p)) && SixtyFive(v, p).chunks[0].popIndex == p && SixtyFive(v, p).free == None
    ensures |SixtyFive(v, p).pushed| == CHUNK_SIZE + 1 && |SixtyFive(v, p).popped| == p
    ensures SixtyFive(v, p).chain == [0, 1] && (p == CHUNK_SIZE ==> Spent0(SixtyFive(v, p)))
    ensures var q := SixtyFive(v, p); q.tail in q.pos && 0 in q.pos && q.pos[0] < q.pos[q.tail]
  {
  }

  lemma Overflow(v: Value, p: nat, pcs: map<Tid, Pc>, m: Mode)
    requires p <= CHUNK_SIZE && 0 in pcs && pcs[0] == Idle
    ensures Reaches(State(QueueOf(v, CHUNK_SIZE, p), pcs), State(SixtyFive(v, p), pcs), m)
  {
    hide Reaches, PopStep, ReleaseStep, Pushed;
    var q, q1, q4 := QueueOf(v, CHUNK_SIZE, p), Overflowed(v, p), TwoChunks(v, p);
    var q2 := SetChunk(q1, 1, NewChunk());
    var q3 := Linked(q2, 0, 1);
    var s' := State(Pushed(q4, 0, v, 1, 0), pcs);
    assert q3.(tail := 1) == q4;
    PushRun(q4, pcs, 0, v, 1, 0, m);
    assert pcs[0 := Idle] == pcs;
    PushMove(q3, q4, pcs, 0, PushSwing(v, 1), PushLoad(v), s', m);
    PushMove(q2, q3, pcs, 0, PushLink(v, 0, 1), PushSwing(v, 1), s', m);
    PushMove(q1, q2, pcs, 0, PushAlloc(v, 0), PushLink(v, 0, 1), s', m);
    PushMove(q, q1, pcs, 0, PushClaim(v, 0), PushAlloc(v, 0), s', m);
    PushMove(q, q, pcs, 0, PushLoad(v), PushClaim(v, 0), s', m);
    Start(q, pcs, 0, PushLoad(v), s', m);
  }

  // ---------------------------------------------------------------- the two bad runs

  /** What `ConcurrentFifo` promises of a run. */
  ghost predicate Good(run: seq<State>, m: Mode) {
    && (forall n :: 0 <= n < |run| ==> Fifo(run[n].q))
    && (forall n: nat, t: Tid :: MissedIn(run, m, n, t) ==> |run[n].q.popped| == |run[n].q.pushed|)
  }

  ghost predicate MissedIn(run: seq<State>, m: Mode, n: nat, t: Tid) {
    n + 1 < |run| && Next(run[n], run[n + 1], t, m) && Misses(run[n], run[n + 1], t)
  }

  /** The queue after thread 2 has claimed the first slot of chunk 1, the head having skipped chunk 0. */
  function Skipped(q: Queue): Queue
    requires Addr(q, 1, 0)
  {
    PopClaimed(q.(head := 1), 2, 1, 0)
  }

  /**
   Thread 1 sees an empty first chunk at line 169; thread 0 then pushes sixty-five values; thread 1 finds
   a next chunk at line 188 and moves the head past sixty-four values. The next pop claims the sixty-fifth.
   */
  lemma SplitPeekBreaksOrder(v: Value, m: Mode) returns (run: seq<State>)
    requires !m.atomicPeek
    ensures IsRun(run, m) && !Good(run, m)
  {
    hide Reaches, IsRun, Init, SixtyFive, QueueOf, Skipped;
    var rest, seen := Threads(Idle, Idle, Idle), Threads(Idle, PopNextEmpty(0), Idle);
    var q0, q1, q2 := QueueOf(v, 0, 0), QueueOf(v, CHUNK_SIZE, 0), SixtyFive(v, 0);
    SixtyFiveWaits(v, 0);
    var last := State(Skipped(q2), Threads(Idle, PopRetire(0), PopRegister(1, 0)));
    SkipChunk(q2, m);
    Overflow(v, 0, seen, m);
    ReachesTrans(State(q1, seen), State(q2, seen), last, m);
    Fill(v, CHUNK_SIZE, seen, m);
    ReachesTrans(State(q0, seen), State(q1, seen), last, m);
    SeeEmpty(v, last, m);
    InitialState(v);
    run := ReachesRun(State(q0, rest), last, m);
    SkippedOutOfOrder(q2);
  }

  lemma SkippedOutOfOrder(q: Queue)
    requires Addr(q, 1, 0) && q.popped == [] && q.chain == [0, 1]
    ensures !Fifo(Skipped(q))
  {
    assert Skipped(q).popped[0] == Taken(1, 0);
    assert !KthSlot(Skipped(q), 0, 1, 0);
  }

  lemma SeeEmpty(v: Value, s': State, m: Mode)
    requires !m.atomicPeek && Reaches(State(QueueOf(v, 0, 0), Threads(Idle, PopNextEmpty(0), Idle)), s', m)
    ensures Reaches(State(QueueOf(v, 0, 0), Threads(Idle, Idle, Idle)), s', m)
  {
    hide Reaches, ReleaseStep, PushStep, StartStep;
    var q, pcs := QueueOf(v, 0, 0), Threads(Idle, Idle, Idle);
    assert pcs[1 := PopNextEmpty(0)] == Threads(Idle, PopNextEmpty(0), Idle);
    PopMove(q, q, pcs, 1, PopPeek(0, 0), PopNextEmpty(0), s', m);
    PopMove(q, q, pcs, 1, PopIndex(0), PopPeek(0, 0), s', m);
    PopMove(q, q, pcs, 1, PopLoad, PopIndex(0), s', m);
    Start(q, pcs, 1, PopLoad, s', m);
  }

  /** A pop goes as far as claiming slot 0 of the head chunk `c`. */
  lemma ClaimFirst(q: Queue, pcs: map<Tid, Pc>, t: Tid, c: Id, m: Mode)
    requires t in pcs && pcs[t] == Idle && q.head == c && Addr(q, c, 0) && q.chunks[c].popIndex == 0 < q.chunks[c].pushIndex
    ensures Reaches(State(q, pcs), State(PopClaimed(q, t, c, 0), pcs[t := PopRegister(c, 0)]), m)
  {
    hide Reaches, PushStep, StartStep, ReleaseStep;
    var s' := State(PopClaimed(q, t, c, 0), pcs[t := PopRegister(c, 0)]);
    ReachesSelf(s', m);
    PopMove(q, PopClaimed(q, t, c, 0), pcs, t, PopClaim(c, 0), PopRegister(c, 0), s', m);
    PopMove(q, q, pcs, t, PopPeek(c, 0), PopClaim(c, 0), s', m);
    PopMove(q, q, pcs, t, PopIndex(c), PopPeek(c, 0), s', m);
    PopMove(q, q, pcs, t, PopLoad, PopIndex(c), s', m);
    Start(q, pcs, t, PopLoad, s', m);
  }

  lemma SkipChunk(q: Queue, m: Mode)
    requires !m.atomicPeek && Waiting(q)
    ensures Reaches(State(q, Threads(Idle, PopNextEmpty(0), Idle)),
              State(Skipped(q), Threads(Idle, PopRetire(0), PopRegister(1, 0))), m)
  {
    hide Reaches, PushStep, StartStep, ReleaseStep;
    var pcs, mid := Threads(Idle, Idle, Idle), Threads(Idle, PopRetire(0), Idle);
    var q1 := q.(head := 1);
    var s' := State(Skipped(q), Threads(Idle, PopRetire(0), PopRegister(1, 0)));
    ClaimFirst(q1, mid, 2, 1, m);
    assert mid[2 := PopRegister(1, 0)] == s'.pcs;
    assert pcs[1 := PopRetire(0)] == mid && pcs[1 := PopNextEmpty(0)] == Threads(Idle, PopNextEmpty(0), Idle);
    PopMove(q, q1, pcs, 1, PopAdvance(0, 1), PopRetire(0), s', m);
    PopMove(q, q, pcs, 1, PopNextEmpty(0), PopAdvance(0, 1), s', m);
  }

  /** Chunk 0 passed, retired and released while a value waits in chunk 1. */
  function Released(q: Queue): Queue
    requires 0 in q.chunks
  {
    Detached(q.(head := 1), 0, None)
  }

  /**
   Thread 2 reads line 168 of a used-up chunk 0; thread 1 moves the head to chunk 1, retires chunk 0 and
   releases it, which clears its `next`; thread 2 reads that `next` at line 174 and returns false.
   */
  lemma EarlyReleaseMissesValue(v: Value, m: Mode) returns (run: seq<State>)
    requires !m.refsGrace
    ensures IsRun(run, m) && !Good(run, m)
  {
    hide Reaches, IsRun, Init, SixtyFive, QueueOf, Released, Next, Misses;
    var rest := Threads(Idle, Idle, Idle);
    var q0, q1, q2 := QueueOf(v, 0, 0), QueueOf(v, CHUNK_SIZE, 0), QueueOf(v, CHUNK_SIZE, CHUNK_SIZE);
    var q3 := SixtyFive(v, CHUNK_SIZE);
    SixtyFiveWaits(v, CHUNK_SIZE);
    var last := State(Released(q3), Threads(Idle, RelCas(0, None, BackToPop), PopNextFull(0)));
    ReadUsedUp(q3, last, m);
    Overflow(v, CHUNK_SIZE, rest, m);
    ReachesTrans(State(q2, rest), State(q3, rest), last, m);
    Drain(v, CHUNK_SIZE, rest, m);
    ReachesTrans(State(q1, rest), State(q2, rest), last, m);
    Fill(v, CHUNK_SIZE, rest, m);
    ReachesTrans(State(q0, rest), State(q1, rest), last, m);
    InitialState(v);
    var short := ReachesRun(State(q0, rest), last, m);
    MissAfterRelease(q3, m);
    run := Extend(short, State(Released(q3), last.pcs[2 := Idle]), 2, m);
    assert MissedIn(run, m, |short| - 1, 2);
  }

  lemma Extend(run: seq<State>, s': State, t: Tid, m: Mode) returns (longer: seq<State>)
    requires IsRun(run, m) && Next(run[|run| - 1], s', t, m)
    ensures longer == run + [s'] && IsRun(longer, m)
  {
    longer := run + [s'];
    assert SomeStep(run[|run| - 1], s', m);
  }

  lemma MissAfterRelease(q: Queue, m: Mode)
    requires 0 in q.chunks
    ensures var s := State(Released(q), Threads(Idle, RelCas(0, None, BackToPop), PopNextFull(0)));
      var s' := State(Released(q), s.pcs[2 := Idle]);
      Next(s, s', 2, m) && Misses(s, s', 2)
    ensures Released(q).popped == q.popped && Released(q).pushed == q.pushed
  {
    hide PushStep, StartStep, ReleaseStep;
    var pcs := Threads(Idle, RelCas(0, None, BackToPop), PopNextFull(0));
    assert pcs[2] == PopNextFull(0) && pcs[2 := Idle][2] == Idle;
  }

  /** Chunk 0 is the head, used up, and leads to chunk 1. */
  ghost predicate Spent0(q: Queue) {
    q.head == 0 && 0 in q.chunks && q.chunks[0].next == Some(1) && q.chunks[0].readers == 0 && !q.chunks[0].retired
    && q.chunks[0].popIndex == CHUNK_SIZE && q.free == None && 0 in q.pos
  }

  lemma ReadUsedUp(q: Queue, s': State, m: Mode)
    requires !m.refsGrace && Spent0(q) && q.tail in q.pos && q.pos[0] < q.pos[q.tail]
    requires s' == State(Released(q), Threads(Idle, RelCas(0, None, BackToPop), PopNextFull(0)))
    ensures Reaches(State(q, Threads(Idle, Idle, Idle)), s', m)
  {
    hide Reaches, Released;
    var rest, pcs := Threads(Idle, Idle, Idle), Threads(Idle, Idle, PopNextFull(0));
    assert pcs[1 := RelCas(0, None, BackToPop)] == s'.pcs;
    RetireEarly(q, pcs, s', m);
    assert rest[2 := PopNextFull(0)] == pcs;
    UsedUp(q, pcs, 1, s', m);
    UsedUp(q, rest, 2, s', m);
  }

  lemma UsedUp(q: Queue, pcs: map<Tid, Pc>, t: Tid, s': State, m: Mode)
    requires t in pcs && pcs[t] == Idle && Spent0(q)
    requires Reaches(State(q, pcs[t := PopNextFull(0)]), s', m)
    ensures Reaches(State(q, pcs), s', m)
  {
    hide Reaches, PushStep, StartStep, ReleaseStep;
    PopMove(q, q, pcs, t, PopPeek(0, CHUNK_SIZE), PopNextFull(0), s', m);
    PopMove(q, q, pcs, t, PopIndex(0), PopPeek(0, CHUNK_SIZE), s', m);
    PopMove(q, q, pcs, t, PopLoad, PopIndex(0), s', m);
    Start(q, pcs, t, PopLoad, s', m);
  }

  /** Thread 1 moves the head to chunk 1, and retires and releases chunk 0, if the mode lets it. */
  lemma RetireEarly(q: Queue, pcs: map<Tid, Pc>, s': State, m: Mode)
    requires Spent0(q) && MayRelease(q.(head := 1), pcs, 1, 0, m)
    requires s' == State(Released(q), pcs[1 := RelCas(0, None, BackToPop)])
    ensures Reaches(State(q, pcs[1 := PopNextFull(0)]), s', m)
  {
    hide Reaches, PushStep, StartStep, ReleaseStep, Released, MayRelease;
    var q1 := q.(head := 1);
    var q2 := SetChunk(q1, 0, q1.chunks[0].(retired := true));
    ReleaseEarly(q, pcs, s', m);
    PopMove(q1, q2, pcs, 1, PopRetire(0), TryReaders(0, BackToPop), s', m);
    PopMove(q, q1, pcs, 1, PopAdvance(0, 1), PopRetire(0), s', m);
    PopMove(q, q, pcs, 1, PopNextFull(0), PopAdvance(0, 1), s', m);
  }

  lemma ReleaseEarly(q: Queue, pcs: map<Tid, Pc>, s': State, m: Mode)
    requires Spent0(q) && MayRelease(q.(head := 1), pcs, 1, 0, m)
    requires s' == State(Released(q), pcs[1 := RelCas(0, None, BackToPop)])
    ensures var q1 := q.(head := 1);
      var q2 := SetChunk(q1, 0, q1.chunks[0].(retired := true));
      Reaches(State(q2, pcs[1 := TryReaders(0, BackToPop)]), s', m)
  {
    hide Reaches, PushStep, StartStep, PopStep, MayRelease;
    var q1, k := q.(head := 1), BackToPop;
    var q2 := SetChunk(q1, 0, q1.chunks[0].(retired := true));
    ReleaseRun(q1, pcs, 1, s', m);
    assert SetChunk(q2, 0, q2.chunks[0].(retired := false)) == q1;
    assert ReleaseStep(q2, q1, TryRetired(0, k), RelLoad(0, k)) && ReleaseStep(q2, q2, TryReaders(0, k), TryRetired(0, k));
    hide ReleaseStep;
    ReleaseMove(q2, q1, pcs, 1, TryRetired(0, k), RelLoad(0, k), s', m);
    ReleaseMove(q2, q2, pcs, 1, TryReaders(0, k), TryRetired(0, k), s', m);
  }

  lemma ReleaseRun(q: Queue, pcs: map<Tid, Pc>, t: Tid, s': State, m: Mode)
    requires MayRelease(q, pcs, t, 0, m) && 0 in q.chunks && q.free == None
    requires s' == State(Detached(q, 0, None), pcs[t := RelCas(0, None, BackToPop)])
    ensures Reaches(State(q, pcs[t := RelLoad(0, BackToPop)]), s', m)
  {
    hide Reaches, PushStep, StartStep, PopStep, MayRelease;
    ReachesSelf(s', m);
    ReleaseMove(q, s'.q, pcs, t, RelStore(0, None, BackToPop), RelCas(0, None, BackToPop), s', m);
    ReleaseMove(q, q, pcs, t, RelLoad(0, BackToPop), RelStore(0, None, BackToPop), s', m);
  }

  // ---------------------------------------------------------------- a tail that stays behind

  /** Chunk 1 is linked behind the used-up chunk 0, but `tail_chunk` has not been moved. */
  function TailBehind(v: Value): Queue {
    TwoChunks(v, CHUNK_SIZE).(tail := 0)
  }

  /** Thread 0 overflows chunk 0, links chunk 1 and stalls before the store of line 145. */
  lemma Stall(v: Value, m: Mode)
    ensures Reaches(State(QueueOf(v, CHUNK_SIZE, CHUNK_SIZE), Threads(Idle, Idle, Idle)),
              State(TailBehind(v), Threads(PushSwing(v, 1), Idle, Idle)), m)
  {
    hide Reaches, PopStep, ReleaseStep;
    var p, pcs := CHUNK_SIZE, Threads(Idle, Idle, Idle);
    var q, q1 := QueueOf(v, CHUNK_SIZE, p), Overflowed(v, p);
    var q2 := SetChunk(q1, 1, NewChunk());
    var q3 := Linked(q2, 0, 1);
    var s' := State(TailBehind(v), Threads(PushSwing(v, 1), Idle, Idle));
    assert q3 == TailBehind(v) && pcs[0 := PushSwing(v, 1)] == s'.pcs;
    ReachesSelf(s', m);
    PushMove(q2, q3, pcs, 0, PushLink(v, 0, 1), PushSwing(v, 1), s', m);
    PushMove(q1, q2, pcs, 0, PushAlloc(v, 0), PushLink(v, 0, 1), s', m);
    PushMove(q, q1, pcs, 0, PushClaim(v, 0), PushAlloc(v, 0), s', m);
    PushMove(q, q, pcs, 0, PushLoad(v), PushClaim(v, 0), s', m);
    Start(q, pcs, 0, PushLoad(v), s', m);
  }

  /** The queue after a push of thread 2 has linked chunk 2 behind the released chunk 0 and claimed its first slot. */
  function Astray(q: Queue, v: Value): Queue
    requires 0 in q.chunks
  {
    var q1 := SetChunk(q, 0, q.chunks[0].(pushIndex := q.chunks[0].pushIndex + 1));
    var q2 := Linked(SetChunk(q1, 2, NewChunk()), 0, 2).(tail := 2);
    PushClaimed(q2, 2, v, 2, 0)
  }

  lemma PushAstray(q: Queue, pcs: map<Tid, Pc>, v: Value, m: Mode)
    requires 2 in pcs && pcs[2] == Idle && q.tail == 0 && 0 in q.chunks && 2 !in q.chunks
    requires q.chunks[0].next == None && q.chunks[0].pushIndex >= CHUNK_SIZE
    ensures Reaches(State(q, pcs), State(Astray(q, v), pcs[2 := PushCheck(v, 2, 0)]), m)
  {
    hide Reaches, PopStep, ReleaseStep, Astray;
    var q1 := SetChunk(q, 0, q.chunks[0].(pushIndex := q.chunks[0].pushIndex + 1));
    var q2 := SetChunk(q1, 2, NewChunk());
    var s' := State(Astray(q, v), pcs[2 := PushCheck(v, 2, 0)]);
    LinkAstray(q, pcs, v, m);
    PushMove(q1, q2, pcs, 2, PushAlloc(v, 0), PushLink(v, 0, 2), s', m);
    PushMove(q, q1, pcs, 2, PushClaim(v, 0), PushAlloc(v, 0), s', m);
    PushMove(q, q, pcs, 2, PushLoad(v), PushClaim(v, 0), s', m);
    Start(q, pcs, 2, PushLoad(v), s', m);
  }

  lemma LinkAstray(q: Queue, pcs: map<Tid, Pc>, v: Value, m: Mode)
    requires 2 in pcs && 0 in q.chunks && 2 !in q.chunks && q.chunks[0].next == None
    ensures var q1 := SetChunk(q, 0, q.chunks[0].(pushIndex := q.chunks[0].pushIndex + 1));
      Reaches(State(SetChunk(q1, 2, NewChunk()), pcs[2 := PushLink(v, 0, 2)]), State(Astray(q, v), pcs[2 := PushCheck(v, 2, 0)]), m)
  {
    hide Reaches, PopStep, ReleaseStep;
    var q1 := SetChunk(q, 0, q.chunks[0].(pushIndex := q.chunks[0].pushIndex + 1));
    var q2 := SetChunk(q1, 2, NewChunk());
    var q3 := Linked(q2, 0, 2);
    var q4 := q3.(tail := 2);
    var s' := State(Astray(q, v), pcs[2 := PushCheck(v, 2, 0)]);
    ReachesSelf(s', m);
    PushMove(q4, s'.q, pcs, 2, PushClaim(v, 2), PushCheck(v, 2, 0), s', m);
    PushMove(q4, q4, pcs, 2, PushLoad(v), PushClaim(v, 2), s', m);
    PushMove(q3, q4, pcs, 2, PushSwing(v, 2), PushLoad(v), s', m);
    PushMove(q2, q3, pcs, 2, PushLink(v, 0, 2), PushSwing(v, 2), s', m);
  }

  /**
   Thread 0 links chunk 1 and stalls before moving `tail_chunk`; thread 1 moves the head to chunk 1 and releases
   chunk 0, which clears its `next`; thread 2 pushes by way of chunk 0, links chunk 2 there, and claims a slot that
   no pop will come to, since chunk 1 does not lead to it.
   */
  lemma TailBehindLosesValue(v: Value, m: Mode) returns (run: seq<State>)
    requires !m.tailGrace
    ensures IsRun(run, m) && !Good(run, m)
  {
    hide Reaches, IsRun, Init, QueueOf, TailBehind, Released, Astray, MayRelease;
    var rest, stalled := Threads(Idle, Idle, Idle), Threads(PushSwing(v, 1), Idle, Idle);
    var released := Threads(PushSwing(v, 1), RelCas(0, None, BackToPop), Idle);
    var q0, q1, q2, q3 := QueueOf(v, 0, 0), QueueOf(v, CHUNK_SIZE, 0), QueueOf(v, CHUNK_SIZE, CHUNK_SIZE), TailBehind(v);
    TailBehindFacts(v, m);
    var last := State(Astray(Released(q3), v), released[2 := PushCheck(v, 2, 0)]);
    PushAstray(Released(q3), released, v, m);
    assert stalled[1 := RelCas(0, None, BackToPop)] == released;
    RetireEarly(q3, stalled, State(Released(q3), released), m);
    UsedUp(q3, stalled, 1, State(Released(q3), released), m);
    ReachesTrans(State(q3, stalled), State(Released(q3), released), last, m);
    Stall(v, m);
    ReachesTrans(State(q2, rest), State(q3, stalled), last, m);
    Drain(v, CHUNK_SIZE, rest, m);
    ReachesTrans(State(q1, rest), State(q2, rest), last, m);
    Fill(v, CHUNK_SIZE, rest, m);
    ReachesTrans(State(q0, rest), State(q1, rest), last, m);
    InitialState(v);
    run := ReachesRun(State(q0, rest), last, m);
    AstrayOutOfOrder(v);
  }

  lemma TailBehindFacts(v: Value, m: Mode)
    requires !m.tailGrace
    ensures var q, r := TailBehind(v), Released(TailBehind(v));
      && Spent0(q) && MayRelease(q.(head := 1), Threads(PushSwing(v, 1), Idle, Idle), 1, 0, m)
      && r.tail == 0 && 0 in r.chunks && 2 !in r.chunks && r.chunks[0].next == None && r.chunks[0].pushIndex >= CHUNK_SIZE
  {
  }

  lemma AstrayOutOfOrder(v: Value)
    ensures !Fifo(Astray(Released(TailBehind(v)), v))
  {
    var q := Astray(Released(TailBehind(v)), v);
    assert q.pushed[CHUNK_SIZE] == Claim(2, 0, v) && q.chain[1] == 1;
    assert !KthSlot(q, CHUNK_SIZE, 2, 0);
  }

  // ---------------------------------------------------------------- exactly when

  /** Some run of the mode breaks the promise, so the promise cannot be made for that mode. */
  ghost predicate Broken(m: Mode) {
    exists run :: IsRun(run, m) && !Good(run, m)
  }

  /**
   Main result. Every run of the queue is first in, first out, and misses only on an exhausted queue, if and
   only if pop reads lines 169 and 188 in one step and releases wait until neither `tail_chunk` nor another thread
   can come back to the chunk.
   */
  lemma FifoExactlyWhen(v: Value, m: Mode)
    ensures !Broken(m) <==> m.atomicPeek && m.tailGrace && m.refsGrace
  {
    hide IsRun, Good;
    if !m.atomicPeek {
      var run := SplitPeekBreaksOrder(v, m);
    } else if !m.refsGrace {
      var run := EarlyReleaseMissesValue(v, m);
    } else if !m.tailGrace {
      var run := TailBehindLosesValue(v, m);
    } else {
      forall run | IsRun(run, m) ensures Good(run, m) { GoodRun(run, m); }
    }
  }

  lemma GoodRun(run: seq<State>, m: Mode)
    requires IsRun(run, m) && m == Mode(true, true, true)
    ensures Good(run, m)
  {
    hide IsRun, Fifo;
    forall n | 0 <= n < |run| ensures Fifo(run[n].q) { ConcurrentFifo(run, n); }
    forall n: nat, t: Tid | MissedIn(run, m, n, t)
      ensures |run[n].q.popped| == |run[n].q.pushed|
    {
      ConcurrentFifo(run, n);
      assert MissedAt(run, n, t);
    }
  }
}
