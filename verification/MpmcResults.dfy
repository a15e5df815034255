/** The results about the interleaved queue, for every run. */
module MpmcResults {
  import opened Base
  import opened MpmcSteps
  import opened MpmcInvariant
  import opened MpmcEdits
  import opened MpmcLinks
  import opened MpmcRuns
  import opened MpmcFifo

  // ---------------------------------------------------------------- nothing claimed is forgotten

  /** Thread has claimed slot `i` of `c` for reading and has not moved the value out. */
  predicate BeforeTake(pc: Pc, c: Id, i: nat) {
    (pc.PopRegister? || pc.PopWait? || pc.PopTake?) && pc.head == c && pc.index == i
  }

  predicate Unread(x: Slot) {
    x.taker.Some? && (x.stage == Reserved || x.stage == Full)
  }

  predicate Read(x: Slot) {
    x.stage == Moved || x.stage == Spent
  }

  /** A claimed slot whose value is still in it has a thread about to take it; one without was delivered. */
  ghost predicate Settled(q: Queue, pcs: map<Tid, Pc>) {
    && (forall c, i: nat :: Addr(q, c, i) && Unread(SlotAt(q, c, i)) ==> HasTaker(SlotAt(q, c, i), pcs, c, i))
    && (forall c, i: nat :: Addr(q, c, i) && Read(SlotAt(q, c, i)) ==> WasDelivered(q.delivered, c, i))
  }

  ghost predicate HasTaker(x: Slot, pcs: map<Tid, Pc>, c: Id, i: nat) {
    x.taker.Some? && x.taker.value in pcs && BeforeTake(pcs[x.taker.value], c, i)
  }

  ghost predicate WasDelivered(delivered: seq<Claim>, c: Id, i: nat) {
    exists k :: 0 <= k < |delivered| && delivered[k].chunk == c && delivered[k].index == i
  }

  /** No slot changes hands from `q` to `q'`. */
  ghost predicate SameTakers(q: Queue, q': Queue) {
    && q'.delivered == q.delivered
    && forall c, i: nat :: Addr(q', c, i) && SlotAt(q', c, i).taker.Some? ==>
         && Addr(q, c, i) && SlotAt(q, c, i).taker == SlotAt(q', c, i).taker
         && (Unread(SlotAt(q', c, i)) ==> Unread(SlotAt(q, c, i)))
         && (Read(SlotAt(q', c, i)) ==> Read(SlotAt(q, c, i)))
  }

  lemma SettledFrame(q: Queue, q': Queue, pcs: map<Tid, Pc>, t: Tid, pc: Pc)
    requires Settled(q, pcs) && QueueOk(q') && t in pcs && SameTakers(q, q')
    requires pcs[t].PopRegister? || pcs[t].PopWait? ==> forall c, i :: BeforeTake(pcs[t], c, i) ==> BeforeTake(pc, c, i)
    requires !pcs[t].PopTake?
    ensures Settled(q', pcs[t := pc])
  {
    hide QueueOk;
    forall c, i: nat | Addr(q', c, i) && Unread(SlotAt(q', c, i))
      ensures HasTaker(SlotAt(q', c, i), pcs[t := pc], c, i)
    {
      assert HasTaker(SlotAt(q, c, i), pcs, c, i);
    }
    forall c, i: nat | Addr(q', c, i) && Read(SlotAt(q', c, i))
      ensures WasDelivered(q'.delivered, c, i)
    {
      GetChunk(q', c);
      GetSlot(q', c, i);
    }
  }

  lemma PushSettled(s: State, s': State, t: Tid)
    requires Inv(s) && Inv(s') && Settled(s.q, s.pcs)
    requires t in s.pcs && t in s'.pcs && s'.pcs == s.pcs[t := s'.pcs[t]]
    requires PushStep(s.q, s'.q, t, s.pcs[t], s'.pcs[t])
    ensures Settled(s'.q, s'.pcs)
  {
    hide QueueOk, ThreadsOk, Settled;
    var q, q', pc := s.q, s'.q, s.pcs[t];
    GetPc(q, s.pcs, t);
    if pc.PushClaim? { ClaimTakers(q, q', t, pc.v, pc.tail); }
    if pc.PushAlloc? { AllocTakers(q, s'.pcs[t].made); }
    SettledFrame(q, q', s.pcs, t, s'.pcs[t]);
  }

  lemma AllocTakers(q: Queue, made: Id)
    ensures SameTakers(q, SetChunk(q, made, NewChunk()))
  {
  }

  lemma ClaimTakers(q: Queue, q': Queue, t: Tid, v: Value, c: Id)
    requires QueueOk(q) && c in q.chunks
    requires q.chunks[c].pushIndex < CHUNK_SIZE ==>
               Addr(q, c, q.chunks[c].pushIndex) && q' == PushClaimed(q, t, v, c, q.chunks[c].pushIndex)
    requires q.chunks[c].pushIndex >= CHUNK_SIZE ==> q' == SetChunk(q, c, q.chunks[c].(pushIndex := q.chunks[c].pushIndex + 1))
    ensures SameTakers(q, q')
  {
    hide QueueOk;
    GetChunk(q, c);
    if q.chunks[c].pushIndex < CHUNK_SIZE { GetSlot(q, c, q.chunks[c].pushIndex); }
  }

  lemma PopSettled(s: State, s': State, t: Tid, m: Mode)
    requires Inv(s) && Inv(s') && Settled(s.q, s.pcs)
    requires t in s.pcs && t in s'.pcs && s'.pcs == s.pcs[t := s'.pcs[t]]
    requires PopStep(s.q, s'.q, t, s.pcs[t], s'.pcs[t], m)
    ensures Settled(s'.q, s'.pcs)
  {
    hide QueueOk, ThreadsOk, Settled;
    var q, q', pc := s.q, s'.q, s.pcs[t];
    GetPc(q, s.pcs, t);
    if pc.PopClaim? && s'.pcs[t] != PopLoad {
      PopClaimSettled(q, s.pcs, t, pc.head, pc.index);
    } else if pc.PopTake? {
      TakeSettled(q, s.pcs, t, pc.head, pc.index);
    } else {
      SettledFrame(q, q', s.pcs, t, s'.pcs[t]);
    }
  }

  lemma PopClaimSettled(q: Queue, pcs: map<Tid, Pc>, t: Tid, c: Id, i: nat)
    requires QueueOk(q) && Settled(q, pcs) && t in pcs && pcs[t] == PopClaim(c, i)
    requires Addr(q, c, i) && q.chunks[c].popIndex == i
    ensures Settled(PopClaimed(q, t, c, i), pcs[t := PopRegister(c, i)])
  {
    hide QueueOk;
    GetChunk(q, c);
    if i < CHUNK_SIZE { GetSlot(q, c, i); }
    var q', pcs' := PopClaimed(q, t, c, i), pcs[t := PopRegister(c, i)];
    forall d, j: nat | Addr(q', d, j) && Unread(SlotAt(q', d, j))
      ensures HasTaker(SlotAt(q', d, j), pcs', d, j)
    {
      if d != c || j != i { assert HasTaker(SlotAt(q, d, j), pcs, d, j); }
    }
  }

  lemma TakeSettled(q: Queue, pcs: map<Tid, Pc>, t: Tid, c: Id, i: nat)
    requires Settled(q, pcs) && t in pcs && pcs[t] == PopTake(c, i)
    requires Addr(q, c, i) && SlotAt(q, c, i).storage.Some? && SlotAt(q, c, i).taker == Some(t)
    ensures var q1 := SetSlot(q, c, i, SlotAt(q, c, i).(stage := Moved));
      Settled(Delivered(q1, Claim(c, i, SlotAt(q, c, i).storage.value)), pcs[t := PopDestroy(c, i)])
  {
    var d := Claim(c, i, SlotAt(q, c, i).storage.value);
    var q', pcs' := Delivered(SetSlot(q, c, i, SlotAt(q, c, i).(stage := Moved)), d), pcs[t := PopDestroy(c, i)];
    forall e, j: nat | Addr(q', e, j) && Unread(SlotAt(q', e, j))
      ensures HasTaker(SlotAt(q', e, j), pcs', e, j)
    {
      assert HasTaker(SlotAt(q, e, j), pcs, e, j);
    }
    forall e, j: nat | Addr(q', e, j) && Read(SlotAt(q', e, j))
      ensures WasDelivered(q'.delivered, e, j)
    {
      if e == c && j == i {
        assert q'.delivered[|q.delivered|] == d;
      } else {
        assert Read(SlotAt(q, e, j)) && WasDelivered(q.delivered, e, j);
        var k :| 0 <= k < |q.delivered| && q.delivered[k].chunk == e && q.delivered[k].index == j;
        assert q'.delivered[k] == q.delivered[k];
      }
    }
  }

  lemma ReleaseSettled(s: State, s': State, t: Tid)
    requires Inv(s) && Inv(s') && Settled(s.q, s.pcs)
    requires t in s.pcs && t in s'.pcs && s'.pcs == s.pcs[t := s'.pcs[t]]
    requires ReleaseStep(s.q, s'.q, s.pcs[t], s'.pcs[t])
    ensures Settled(s'.q, s'.pcs)
  {
    hide QueueOk, ThreadsOk, Settled;
    SettledFrame(s.q, s'.q, s.pcs, t, s'.pcs[t]);
  }

  lemma StartSettled(s: State, s': State, t: Tid)
    requires Inv(s') && Settled(s.q, s.pcs)
    requires t in s.pcs && t in s'.pcs && s'.pcs == s.pcs[t := s'.pcs[t]]
    requires StartStep(s.q, s'.q, s.pcs[t], s'.pcs[t])
    ensures Settled(s'.q, s'.pcs)
  {
    hide QueueOk, ThreadsOk, Settled;
    SettledFrame(s.q, s'.q, s.pcs, t, s'.pcs[t]);
  }

  lemma StepSettled(s: State, s': State, t: Tid, m: Mode)
    requires Inv(s) && Inv(s') && Settled(s.q, s.pcs) && Next(s, s', t, m)
    ensures Settled(s'.q, s'.pcs)
  {
    hide Inv, StartStep, PushStep, PopStep, ReleaseStep, TailGrace, RefsGrace, Settled;
    var pc, pc' := s.pcs[t], s'.pcs[t];
    if StartStep(s.q, s'.q, pc, pc') { StartSettled(s, s', t); }
    else if PushStep(s.q, s'.q, t, pc, pc') { PushSettled(s, s', t); }
    else if PopStep(s.q, s'.q, t, pc, pc', m) { PopSettled(s, s', t, m); }
    else { ReleaseSettled(s, s', t); }
  }

  // ---------------------------------------------------------------- runs

  lemma {:induction false} RunInv(run: seq<State>, m: Mode, n: nat)
    requires IsRun(run, m) && m.Grace() && n < |run|
    ensures Inv(run[n]) && Settled(run[n].q, run[n].pcs)
    ensures m.atomicPeek ==> Ordered(run[n])
  {
    if n == 0 {
      InitInv(run[0]);
      InitOrdered(run[0]);
    } else {
      RunInv(run, m, n - 1);
      assert SomeStep(run[n - 1], run[n], m);
      var t :| Next(run[n - 1], run[n], t, m);
      RunStep(run[n - 1], run[n], t, m);
    }
  }

  lemma InitOrdered(s: State)
    requires Init(s)
    ensures Ordered(s) && Settled(s.q, s.pcs)
  {
  }

  lemma RunStep(s: State, s': State, t: Tid, m: Mode)
    requires Inv(s) && Settled(s.q, s.pcs) && Next(s, s', t, m) && m.Grace()
    requires m.atomicPeek ==> Ordered(s)
    ensures Inv(s') && Settled(s'.q, s'.pcs)
    ensures m.atomicPeek ==> Ordered(s')
  {
    hide Inv, Settled, Next, Ordered;
    StepKeeps(s, s', t, m);
    StepSettled(s, s', t, m);
    if m.atomicPeek { StepOrdered(s, s', t, m); }
  }

  /** The slot reached k slots after the first one, walking along the chain. */
  ghost predicate KthSlot(q: Queue, k: nat, c: Id, i: nat) {
    k / 64 < |q.chain| && c == q.chain[k / 64] && i == k % 64
  }

  /**
   First in, first out. The k-th successful push claim and the k-th successful pop claim are both slot
   k mod 64 of the chunk linked k div 64 places after the first; pops never overtake pushes; and whatever
   a pop delivers for its k-th claim is the value of the k-th push.
   */
  ghost predicate Fifo(q: Queue) {
    && (forall k :: 0 <= k < |q.pushed| ==> KthSlot(q, k, q.pushed[k].chunk, q.pushed[k].index))
    && (forall k :: 0 <= k < |q.popped| ==> KthSlot(q, k, q.popped[k].chunk, q.popped[k].index))
    && |q.popped| <= |q.pushed|
    && (forall j :: 0 <= j < |q.delivered| ==> FromPush(q, q.delivered[j]))
  }

  /** Some pop claim took the slot of `d`, and the push claim of the same number put that value there. */
  ghost predicate FromPush(q: Queue, d: Claim) {
    exists k :: 0 <= k < |q.popped| && k < |q.pushed| && q.popped[k] == Taken(d.chunk, d.index) && q.pushed[k] == d
  }

  /** The step in which a `pop` of thread `t` decides to return false. */
  ghost predicate Misses(s: State, s': State, t: Tid) {
    t in s.pcs && t in s'.pcs && s'.pcs[t].Idle?
    && (s.pcs[t].PopPeek? || s.pcs[t].PopNextFull? || s.pcs[t].PopNextEmpty?)
  }

  /** Step n of the run is one in which thread `t` decides to return false. */
  ghost predicate MissedAt(run: seq<State>, n: nat, t: Tid) {
    n + 1 < |run| && Next(run[n], run[n + 1], t, Mode(true, true, true)) && Misses(run[n], run[n + 1], t)
  }

  lemma OrderedFifo(s: State)
    requires Inv(s) && Ordered(s)
    ensures Fifo(s.q)
  {
    hide QueueOk, ThreadsOk, PopPcsOk;
    var q := s.q;
    PopsBehind(q);
    PushedKth(q);
    forall k | 0 <= k < |q.popped| ensures KthSlot(q, k, q.popped[k].chunk, q.popped[k].index) {
      assert At(q, k, q.popped[k].chunk, q.popped[k].index);
    }
    forall j | 0 <= j < |q.delivered| ensures FromPush(q, q.delivered[j]) { DeliveryFromPush(q, j); }
  }

  lemma PushedKth(q: Queue)
    requires QueueOk(q)
    ensures forall k :: 0 <= k < |q.pushed| ==> KthSlot(q, k, q.pushed[k].chunk, q.pushed[k].index)
  {
    forall k | 0 <= k < |q.pushed| ensures KthSlot(q, k, q.pushed[k].chunk, q.pushed[k].index) {
      assert At(q, k, q.pushed[k].chunk, q.pushed[k].index);
    }
  }

  lemma PopsBehind(q: Queue)
    requires QueueOk(q) && PopsOk(q)
    ensures |q.popped| <= |q.pushed|
  {
    hide PopsAt, SlotsOk, PoppedOk, DeliveredOk;
    GetChunk(q, q.head);
    SamePlace(q, q.head, q.chain[|q.chain| - 1]);
  }

  lemma DeliveryFromPush(q: Queue, j: nat)
    requires QueueOk(q) && PopsOk(q) && |q.popped| <= |q.pushed| && j < |q.delivered|
    ensures FromPush(q, q.delivered[j])
  {
    hide PopsAt, SlotsOk, ChunkOk;
    var d := q.delivered[j];
    assert DeliveryOk(q, d);
    var k :| 0 <= k < |q.popped| && q.popped[k] == Taken(d.chunk, d.index);
    assert At(q, k, d.chunk, d.index);
    assert At(q, k, q.pushed[k].chunk, q.pushed[k].index);
    SamePlace(q, d.chunk, d.chunk);
    assert CHUNK_SIZE * q.pos[d.chunk] + d.index == k;
  }

  lemma MissEmpty(s: State, s': State, t: Tid, m: Mode)
    requires Inv(s) && Ordered(s) && m.atomicPeek && Next(s, s', t, m) && Misses(s, s', t)
    ensures |s.q.popped| == |s.q.pushed|
  {
    hide QueueOk, ThreadsOk, PopsOk, PopPcsOk, TailGrace, RefsGrace;
    var q, pc := s.q, s.pcs[t];
    GetPc(q, s.pcs, t);
    NeverNextEmpty(s, t);
    GetNext(q, pc.head);
    GetPlaces(q);
    SamePlace(q, pc.head, q.head);
    if pc.PopPeek? {
      PeekOrdered(q, s.pcs, t, pc.head, pc.index);
    }
    GetChunk(q, q.head);
    AllTaken(q);
  }

  lemma AllTaken(q: Queue)
    requires QueueOk(q) && PopsOk(q) && q.pos[q.head] == |q.chain| - 1
    requires q.chunks[q.head].popIndex == Capped(q.chunks[q.head])
    ensures |q.popped| == |q.pushed|
  {
    hide PopsAt, SlotsOk, PoppedOk, DeliveredOk, ChunkOk;
  }

  /**
   Main result. In every run in which a pop reads lines 169 and 188 in one step and a chunk's `next` is
   overwritten only once nobody can come back to it, the queue is first in, first out; and a pop returns
   false only at a moment when every claimed slot has been taken.
   */
  lemma ConcurrentFifo(run: seq<State>, n: nat)
    requires IsRun(run, Mode(true, true, true)) && n < |run|
    ensures Fifo(run[n].q)
    ensures n + 1 < |run| ==> forall t :: MissedAt(run, n, t) ==> |run[n].q.popped| == |run[n].q.pushed|
  {
    hide Inv, Ordered, Settled, Next, Misses, Fifo;
    RunInv(run, Mode(true, true, true), n);
    OrderedFifo(run[n]);
    if n + 1 < |run| {
      forall t | MissedAt(run, n, t)
        ensures |run[n].q.popped| == |run[n].q.pushed|
      {
        MissEmpty(run[n], run[n + 1], t, Mode(true, true, true));
      }
    }
  }

  /** What the queue holds once every thread has returned. */
  ghost predicate AtRest(q: Queue) {
    && (forall k :: 0 <= k < |q.popped| && k < |q.pushed| ==> q.pushed[k] in q.delivered)
    && (forall k :: |q.popped| <= k < |q.pushed| ==> Holds(q, q.pushed[k]))
  }

  /** The value of the push claim `e` is in its slot. */
  ghost predicate Holds(q: Queue, e: Claim) {
    Addr(q, e.chunk, e.index) && SlotAt(q, e.chunk, e.index).occupied
    && SlotAt(q, e.chunk, e.index).storage == Some(e.value)
  }

  /**
   Nothing is lost: when all threads are idle, the value of every push that was popped has been delivered,
   and the values of the other pushes are in their slots, in order.
   */
  lemma NothingLost(run: seq<State>, n: nat)
    requires IsRun(run, Mode(true, true, true)) && n < |run|
    requires forall t :: t in run[n].pcs ==> run[n].pcs[t].Idle?
    ensures AtRest(run[n].q)
  {
    hide Inv, Ordered, Settled;
    RunInv(run, Mode(true, true, true), n);
    var s := run[n];
    OrderedFifo(s);
    forall k | 0 <= k < |s.q.popped| && k < |s.q.pushed| ensures s.q.pushed[k] in s.q.delivered { PoppedDelivered(s, k); }
    forall k | |s.q.popped| <= k < |s.q.pushed| ensures Holds(s.q, s.q.pushed[k]) { PushedHeld(s, k); }
  }

  lemma PoppedDelivered(s: State, k: nat)
    requires Inv(s) && Settled(s.q, s.pcs) && Fifo(s.q) && k < |s.q.popped|
    requires forall t :: t in s.pcs ==> s.pcs[t].Idle?
    ensures s.q.pushed[k] in s.q.delivered
  {
    hide QueueOk, ThreadsOk;
    var q, c, i := s.q, s.q.popped[k].chunk, s.q.popped[k].index;
    PoppedSlot(q, k);
    assert KthSlot(q, k, q.pushed[k].chunk, q.pushed[k].index);
    GetSlot(q, c, i);
    if SlotAt(q, c, i).stage == Reserved { GetPusher(q, s.pcs, c, i); }
    assert Read(SlotAt(q, c, i));
    var j :| 0 <= j < |q.delivered| && q.delivered[j].chunk == c && q.delivered[j].index == i;
    assert FromPush(q, q.delivered[j]);
    var l :| 0 <= l < |q.popped| && l < |q.pushed| && q.popped[l] == Taken(c, i) && q.pushed[l] == q.delivered[j];
    PoppedOnce(q, k, l);
  }

  lemma PoppedSlot(q: Queue, k: nat)
    requires QueueOk(q) && k < |q.popped|
    ensures var e := q.popped[k];
      e.chunk in q.chunks && e.index < q.chunks[e.chunk].popIndex <= Capped(q.chunks[e.chunk]) && Addr(q, e.chunk, e.index)
  {
    assert TakenOk(q, q.popped[k]);
    GetChunk(q, q.popped[k].chunk);
  }

  lemma PoppedOnce(q: Queue, j: nat, k: nat)
    requires QueueOk(q) && j < |q.popped| && k < |q.popped| && q.popped[j] == q.popped[k]
    ensures j == k
  {
  }

  lemma PushedHeld(s: State, k: nat)
    requires Inv(s) && Ordered(s) && |s.q.popped| <= k < |s.q.pushed|
    requires forall t :: t in s.pcs ==> s.pcs[t].Idle?
    ensures Holds(s.q, s.q.pushed[k])
  {
    hide QueueOk, ThreadsOk;
    var q, c, i := s.q, s.q.pushed[k].chunk, s.q.pushed[k].index;
    PushedSlot(q, k);
    GetChunk(q, c);
    GetSlot(q, c, i);
    assert PopsAt(q, c);
    SamePlace(q, c, q.head);
    if SlotAt(q, c, i).stage == Reserved { GetPusher(q, s.pcs, c, i); }
    assert SlotAt(q, c, i).stage == Full;
  }

  lemma PushedSlot(q: Queue, k: nat)
    requires QueueOk(q) && k < |q.pushed|
    ensures var e := q.pushed[k];
      && e.chunk in q.pos && e.chunk in q.chunks && q.pos[e.chunk] == k / CHUNK_SIZE && e.index == k % CHUNK_SIZE
      && e.index < Capped(q.chunks[e.chunk])
  {
    hide SlotsOk, PoppedOk, DeliveredOk;
    var e := q.pushed[k];
    assert At(q, k, e.chunk, e.index);
    GetChunk(q, e.chunk);
    SamePlace(q, e.chunk, q.chain[|q.chain| - 1]);
  }
}
