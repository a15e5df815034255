/** Steps that change slots or counters inside one chunk keep the invariant. */
module MpmcEdits {
  import opened Base
  import opened MpmcSteps
  import opened MpmcInvariant

  lemma GetChunk(q: Queue, c: Id)
    requires QueueOk(q) && c in q.chunks
    ensures ChunkOk(q, c)
  {
  }

  lemma GetSlot(q: Queue, c: Id, i: nat)
    requires QueueOk(q) && c in q.chunks && i < CHUNK_SIZE
    ensures SlotOk(q, c, i)
  {
  }

  lemma GetPc(q: Queue, pcs: map<Tid, Pc>, t: Tid)
    requires ThreadsOk(q, pcs) && t in pcs
    ensures PushPcOk(q, t, pcs[t]) && PopPcOk(q, t, pcs[t]) && ReleasePcOk(q, pcs[t])
  {
  }

  // ---------------------------------------------------------------- changes inside one chunk

  /** `q'` is `q` with chunk `c` replaced by `ch` and perhaps more history. */
  ghost predicate Edit(q: Queue, q': Queue, c: Id, ch: Chunk) {
    && c in q.chunks
    && q' == q.(chunks := q.chunks[c := ch], pushed := q'.pushed, popped := q'.popped, delivered := q'.delivered)
    && q.pushed <= q'.pushed && q.popped <= q'.popped && q.delivered <= q'.delivered
  }

  /** What an edit must respect whichever slot it is about. */
  ghost predicate Gentle(ch: Chunk, ch': Chunk) {
    && |ch'.slots| == |ch.slots| && ch'.next == ch.next
    && ch.pushIndex <= ch'.pushIndex && ch.popIndex <= ch'.popIndex
    && forall i :: 0 <= i < |ch.slots| && (ch.slots[i].stage == Moved || ch.slots[i].stage == Spent) ==>
         ch'.slots[i].stage == Moved || ch'.slots[i].stage == Spent
  }

  lemma EditKeeps(q: Queue, q': Queue, c: Id, ch: Chunk, u: Tid, pc: Pc)
    requires Edit(q, q', c, ch) && Gentle(q.chunks[c], ch) && ChunkKeeps(q.chunks[c], ch, u)
    requires QueueOk(q)
    ensures Keeps(q, q', u, pc)
  {
    forall d | d in q.chunks
      ensures d in q'.chunks && ChunkKeeps(q.chunks[d], q'.chunks[d], u)
    {
      assert ChunkOk(q, d);
    }
  }

  lemma EditChunks(q: Queue, q': Queue, c: Id, ch: Chunk)
    requires QueueOk(q) && Edit(q, q', c, ch) && ChunkOk(q', c)
    ensures ChainOk(q') && forall d :: d in q'.chunks ==> ChunkOk(q', d)
  {
    forall d | d in q'.chunks
      ensures ChunkOk(q', d)
    {
      if d != c { assert ChunkOk(q, d); }
    }
  }

  lemma EditSlots(q: Queue, q': Queue, c: Id, ch: Chunk)
    requires QueueOk(q) && Edit(q, q', c, ch)
    requires forall i: nat :: i < CHUNK_SIZE ==> SlotOk(q', c, i)
    ensures SlotsOk(q')
  {
    forall d, i: nat | d in q'.chunks && i < CHUNK_SIZE
      ensures SlotOk(q', d, i)
    {
      if d != c { assert SlotOk(q, d, i); }
    }
  }

  lemma EditHistory(q: Queue, q': Queue, c: Id, ch: Chunk)
    requires QueueOk(q) && Edit(q, q', c, ch) && Gentle(q.chunks[c], ch)
    requires q'.popped == q.popped && q'.delivered == q.delivered
    ensures PoppedOk(q') && DeliveredOk(q')
  {
    forall k | 0 <= k < |q'.popped| ensures TakenOk(q', q'.popped[k]) { assert TakenOk(q, q.popped[k]); }
    forall k | 0 <= k < |q'.delivered|
      ensures DeliveryOk(q', q'.delivered[k])
    {
      assert DeliveryOk(q, q.delivered[k]);
    }
  }

  /** An edit that adds no claim: readers, retired, an overflowing `fetch_add`, a slot moved on by its owner. */
  lemma EditQueue(q: Queue, q': Queue, c: Id, ch: Chunk)
    requires QueueOk(q) && Edit(q, q', c, ch) && Gentle(q.chunks[c], ch) && ChunkOk(q', c)
    requires q'.pushed == q.pushed && q'.popped == q.popped && q'.delivered == q.delivered
    requires Capped(ch) == Capped(q.chunks[c])
    requires forall i: nat :: i < CHUNK_SIZE ==> SlotOk(q', c, i)
    ensures QueueOk(q')
  {
    EditChunks(q, q', c, ch);
    EditSlots(q, q', c, ch);
    EditHistory(q, q', c, ch);
    PushedSame(q, q');
  }

  lemma PushedSame(q: Queue, q': Queue)
    requires PushedOk(q) && q'.pushed == q.pushed && q'.chain == q.chain
    requires var last := q.chain[|q.chain| - 1]; last in q'.chunks && Capped(q'.chunks[last]) == Capped(q.chunks[last])
    ensures PushedOk(q')
  {
    forall k | 0 <= k < |q'.pushed|
      ensures At(q', k, q'.pushed[k].chunk, q'.pushed[k].index)
    {
      assert At(q, k, q.pushed[k].chunk, q.pushed[k].index);
    }
  }

  lemma EditThreads(q: Queue, q': Queue, pcs: map<Tid, Pc>, c: Id, ch: Chunk, t: Tid, pc: Pc)
    requires QueueOk(q) && ThreadsOk(q, pcs) && t in pcs && Edit(q, q', c, ch) && Gentle(q.chunks[c], ch)
    requires forall u :: u in pcs && u != t ==> ChunkKeeps(q.chunks[c], ch, u)
    requires PcOk(q', t, pc) && Private(pc) == None && ReservesBy(q, q', t, pc)
    ensures ThreadsOk(q', pcs[t := pc])
  {
    forall u | u in pcs && u != t ensures Keeps(q, q', u, pcs[u]) { EditKeeps(q, q', c, ch, u, pcs[u]); }
    ThreadsStep(q, q', pcs, t, pc);
  }

  /** An edit that leaves the slots alone. */
  lemma FieldStep(q: Queue, pcs: map<Tid, Pc>, c: Id, ch: Chunk, t: Tid, pc: Pc)
    requires QueueOk(q) && ThreadsOk(q, pcs) && t in pcs && c in q.chunks
    requires ch.slots == q.chunks[c].slots && ch.next == q.chunks[c].next && ch.popIndex == q.chunks[c].popIndex
    requires ch.pushIndex == q.chunks[c].pushIndex || CHUNK_SIZE <= q.chunks[c].pushIndex <= ch.pushIndex
    requires ch.retired ==> Passed(q, c)
    requires PcOk(SetChunk(q, c, ch), t, pc) && Private(pc) == None
    requires forall d, i :: !Constructing(pcs[t], d, i)
    ensures QueueOk(SetChunk(q, c, ch)) && ThreadsOk(SetChunk(q, c, ch), pcs[t := pc])
  {
    hide QueueOk, ThreadsOk, PcOk;
    var q' := SetChunk(q, c, ch);
    GetChunk(q, c);
    forall i: nat | i < CHUNK_SIZE ensures SlotOk(q', c, i) { GetSlot(q, c, i); }
    EditQueue(q, q', c, ch);
    SameReserves(q, q', pcs, t, pc);
    EditThreads(q, q', pcs, c, ch, t, pc);
  }

  lemma SameReserves(q: Queue, q': Queue, pcs: map<Tid, Pc>, t: Tid, pc: Pc)
    requires ThreadsOk(q, pcs) && t in pcs && forall d, i :: !Constructing(pcs[t], d, i)
    requires forall d, i: nat :: Addr(q', d, i) && SlotAt(q', d, i).stage == Reserved ==>
               Addr(q, d, i) && SlotAt(q, d, i).stage == Reserved && SlotAt(q, d, i).pusher == SlotAt(q', d, i).pusher
    ensures ReservesBy(q, q', t, pc)
  {
    forall d, i: nat | Addr(q', d, i) && SlotAt(q', d, i).stage == Reserved
      ensures SlotAt(q, d, i).pusher != Some(t)
    {
      assert HasPusher(SlotAt(q, d, i), pcs, d, i);
    }
  }

  /** Slot `i` of `c` is moved on by the thread it belongs to. */
  lemma SlotStep(q: Queue, pcs: map<Tid, Pc>, c: Id, i: nat, x: Slot, t: Tid, pc: Pc)
    requires QueueOk(q) && ThreadsOk(q, pcs) && t in pcs && Addr(q, c, i)
    requires var w := SlotAt(q, c, i);
      && x.pusher == w.pusher && x.taker == w.taker && x.stage != Vacant && w.stage != Vacant
      && (w.stage == Reserved ==> w.pusher == Some(t))
      && ((w.stage == Moved || w.stage == Spent) ==> (x.stage == Moved || x.stage == Spent))
      && (forall u :: u != t ==> SlotKeeps(w, x, u))
      && (x.stage == Reserved ==> w.stage == Reserved && Constructing(pc, c, i))
    requires SlotOk(SetSlot(q, c, i, x), c, i) && PcOk(SetSlot(q, c, i, x), t, pc) && Private(pc) == None
    requires forall d, j :: Constructing(pcs[t], d, j) ==> d == c && j == i
    ensures QueueOk(SetSlot(q, c, i, x)) && ThreadsOk(SetSlot(q, c, i, x), pcs[t := pc])
  {
    hide QueueOk, ThreadsOk, PcOk;
    var q' := SetSlot(q, c, i, x);
    var ch := q'.chunks[c];
    GetChunk(q, c);
    forall j: nat | j < CHUNK_SIZE ensures SlotOk(q', c, j) { if j != i { GetSlot(q, c, j); } }
    EditQueue(q, q', c, ch);
    SlotReserves(q, pcs, c, i, x, t, pc);
    EditThreads(q, q', pcs, c, ch, t, pc);
  }

  lemma SlotReserves(q: Queue, pcs: map<Tid, Pc>, c: Id, i: nat, x: Slot, t: Tid, pc: Pc)
    requires ThreadsOk(q, pcs) && t in pcs && Addr(q, c, i) && x.pusher == SlotAt(q, c, i).pusher
    requires SlotAt(q, c, i).stage == Reserved ==> x.pusher == Some(t)
    requires x.stage == Reserved ==> SlotAt(q, c, i).stage == Reserved && Constructing(pc, c, i)
    requires forall d, j :: Constructing(pcs[t], d, j) ==> d == c && j == i
    ensures ReservesBy(q, SetSlot(q, c, i, x), t, pc)
  {
    var q' := SetSlot(q, c, i, x);
    forall d, j: nat | Addr(q', d, j) && SlotAt(q', d, j).stage == Reserved && !(d == c && j == i)
      ensures SlotAt(q, d, j).pusher == SlotAt(q', d, j).pusher && SlotAt(q, d, j).pusher != Some(t)
    {
      assert HasPusher(SlotAt(q, d, j), pcs, d, j);
    }
  }

  // ---------------------------------------------------------------- steps that move one thread only

  /** Thread may go from `pc` to `pc'` without disturbing what the slots and the other threads rely on. */
  ghost predicate Moves(pc: Pc, pc': Pc) {
    && (forall c, i :: Constructing(pc, c, i) ==> Constructing(pc', c, i))
    && (Private(pc') == None || Private(pc') == Private(pc))
  }

  lemma LocalStep(q: Queue, pcs: map<Tid, Pc>, t: Tid, pc: Pc)
    requires ThreadsOk(q, pcs) && t in pcs && PcOk(q, t, pc) && Moves(pcs[t], pc)
    ensures ThreadsOk(q, pcs[t := pc])
  {
  }

  // ---------------------------------------------------------------- claims

  lemma PushClaimQueue(q: Queue, t: Tid, v: Value, c: Id, i: nat)
    requires QueueOk(q) && c in q.pos && Addr(q, c, i) && i == q.chunks[c].pushIndex < CHUNK_SIZE
    ensures QueueOk(PushClaimed(q, t, v, c, i))
    ensures Claimed(PushClaimed(q, t, v, c, i), c, i, v)
  {
    hide SlotsOk, PushedOk, PoppedOk, DeliveredOk;
    var q' := PushClaimed(q, t, v, c, i);
    GetChunk(q, c);
    assert q.pos[c] == |q.chain| - 1;
    PushClaimHistory(q, t, v, c, i);
    PushClaimSlots(q, t, v, c, i);
    assert ChunkOk(q', c);
    EditChunks(q, q', c, q'.chunks[c]);
  }

  lemma PushClaimHistory(q: Queue, t: Tid, v: Value, c: Id, i: nat)
    requires QueueOk(q) && c in q.pos && Addr(q, c, i) && i == q.chunks[c].pushIndex < CHUNK_SIZE
    requires q.pos[c] == |q.chain| - 1
    ensures PushedOk(PushClaimed(q, t, v, c, i)) && Claimed(PushClaimed(q, t, v, c, i), c, i, v)
    ensures PoppedOk(PushClaimed(q, t, v, c, i)) && DeliveredOk(PushClaimed(q, t, v, c, i))
  {
    hide SlotsOk, SlotOk, ChunkOk, PoppedOk, DeliveredOk;
    var q' := PushClaimed(q, t, v, c, i);
    forall k | 0 <= k < |q'.pushed|
      ensures At(q', k, q'.pushed[k].chunk, q'.pushed[k].index)
    {
      if k < |q.pushed| { assert At(q, k, q.pushed[k].chunk, q.pushed[k].index); }
    }
    PushClaimGentle(q, t, v, c, i);
    EditHistory(q, q', c, q'.chunks[c]);
  }

  lemma PushClaimGentle(q: Queue, t: Tid, v: Value, c: Id, i: nat)
    requires QueueOk(q) && Addr(q, c, i) && i == q.chunks[c].pushIndex < CHUNK_SIZE
    ensures Gentle(q.chunks[c], PushClaimed(q, t, v, c, i).chunks[c])
  {
    hide QueueOk;
    GetSlot(q, c, i);
  }

  lemma PushClaimSlots(q: Queue, t: Tid, v: Value, c: Id, i: nat)
    requires QueueOk(q) && c in q.pos && Addr(q, c, i) && i == q.chunks[c].pushIndex < CHUNK_SIZE
    ensures SlotsOk(PushClaimed(q, t, v, c, i))
  {
    hide QueueOk;
    var q' := PushClaimed(q, t, v, c, i);
    GetChunk(q, c);
    forall d, j: nat | d in q'.chunks && j < CHUNK_SIZE
      ensures SlotOk(q', d, j)
    {
      GetSlot(q, d, j);
      GetChunk(q, d);
    }
  }

  lemma PushClaimStep(q: Queue, pcs: map<Tid, Pc>, t: Tid, v: Value, c: Id, i: nat)
    requires QueueOk(q) && ThreadsOk(q, pcs) && t in pcs && pcs[t] == PushClaim(v, c)
    requires Addr(q, c, i) && i == q.chunks[c].pushIndex < CHUNK_SIZE
    ensures QueueOk(PushClaimed(q, t, v, c, i))
    ensures ThreadsOk(PushClaimed(q, t, v, c, i), pcs[t := PushCheck(v, c, i)])
  {
    hide QueueOk, ThreadsOk;
    var q' := PushClaimed(q, t, v, c, i);
    var pc := PushCheck(v, c, i);
    GetPc(q, pcs, t);
    GetSlot(q, c, i);
    GetChunk(q, c);
    PushClaimQueue(q, t, v, c, i);
    assert ReservesBy(q, q', t, pc) by {
      forall d, j: nat | Addr(q', d, j) && SlotAt(q', d, j).stage == Reserved && !(d == c && j == i)
        ensures SlotAt(q, d, j).pusher == SlotAt(q', d, j).pusher && SlotAt(q, d, j).pusher != Some(t)
      {
        GetPusher(q, pcs, d, j);
      }
    }
    EditThreads(q, q', pcs, c, q'.chunks[c], t, pc);
  }

  lemma GetPusher(q: Queue, pcs: map<Tid, Pc>, c: Id, i: nat)
    requires ThreadsOk(q, pcs) && Addr(q, c, i) && SlotAt(q, c, i).stage == Reserved
    ensures HasPusher(SlotAt(q, c, i), pcs, c, i)
  {
  }

  lemma PopClaimQueue(q: Queue, t: Tid, c: Id, i: nat)
    requires QueueOk(q) && c in q.pos && Addr(q, c, i) && i == q.chunks[c].popIndex < Capped(q.chunks[c])
    ensures QueueOk(PopClaimed(q, t, c, i))
  {
    var q' := PopClaimed(q, t, c, i);
    var ch := q'.chunks[c];
    PopClaimHistory(q, t, c, i);
    GetChunk(q, c);
    EditChunks(q, q', c, ch);
    PopClaimSlots(q, t, c, i);
    PushedSame(q, q');
  }

  lemma PopClaimSlots(q: Queue, t: Tid, c: Id, i: nat)
    requires QueueOk(q) && c in q.pos && Addr(q, c, i) && i == q.chunks[c].popIndex < Capped(q.chunks[c])
    ensures SlotsOk(PopClaimed(q, t, c, i))
  {
    hide QueueOk;
    var q' := PopClaimed(q, t, c, i);
    GetChunk(q, c);
    forall d, j: nat | d in q'.chunks && j < CHUNK_SIZE ensures SlotOk(q', d, j) { GetSlot(q, d, j); }
  }

  lemma PopClaimHistory(q: Queue, t: Tid, c: Id, i: nat)
    requires QueueOk(q) && c in q.pos && Addr(q, c, i) && i == q.chunks[c].popIndex
    ensures PoppedOk(PopClaimed(q, t, c, i)) && DeliveredOk(PopClaimed(q, t, c, i))
  {
    var q' := PopClaimed(q, t, c, i);
    forall k | 0 <= k < |q'.popped|
      ensures TakenOk(q', q'.popped[k]) && (k < |q.popped| ==> q'.popped[k] != Taken(c, i))
    {
      if k < |q.popped| { assert TakenOk(q, q.popped[k]); }
    }
    forall k | 0 <= k < |q'.delivered|
      ensures DeliveryOk(q', q'.delivered[k])
    {
      assert DeliveryOk(q, q.delivered[k]);
    }
  }

  lemma PopClaimStep(q: Queue, pcs: map<Tid, Pc>, t: Tid, c: Id, i: nat)
    requires QueueOk(q) && ThreadsOk(q, pcs) && t in pcs && pcs[t] == PopClaim(c, i)
    requires Addr(q, c, i) && i == q.chunks[c].popIndex
    ensures QueueOk(PopClaimed(q, t, c, i))
    ensures ThreadsOk(PopClaimed(q, t, c, i), pcs[t := PopRegister(c, i)])
  {
    hide QueueOk, ThreadsOk;
    var q' := PopClaimed(q, t, c, i);
    GetPc(q, pcs, t);
    GetSlot(q, c, i);
    GetChunk(q, c);
    PopClaimQueue(q, t, c, i);
    SameReserves(q, q', pcs, t, PopRegister(c, i));
    EditThreads(q, q', pcs, c, q'.chunks[c], t, PopRegister(c, i));
  }

  // ---------------------------------------------------------------- delivery

  function Delivered(q: Queue, d: Claim): Queue {
    q.(delivered := q.delivered + [d])
  }

  /** The value moved out of the slot is the one pushed to it, and this slot was not delivered before. */
  lemma TakeStep(q: Queue, pcs: map<Tid, Pc>, t: Tid, c: Id, i: nat)
    requires QueueOk(q) && ThreadsOk(q, pcs) && t in pcs && pcs[t] == PopTake(c, i)
    requires Addr(q, c, i) && SlotAt(q, c, i).storage.Some?
    ensures var q1 := SetSlot(q, c, i, SlotAt(q, c, i).(stage := Moved));
      var q' := Delivered(q1, Claim(c, i, SlotAt(q, c, i).storage.value));
      QueueOk(q') && ThreadsOk(q', pcs[t := PopDestroy(c, i)])
  {
    hide QueueOk, ThreadsOk;
    var q1 := SetSlot(q, c, i, SlotAt(q, c, i).(stage := Moved));
    var d := Claim(c, i, SlotAt(q, c, i).storage.value);
    GetPc(q, pcs, t);
    GetChunk(q, c);
    GetSlot(q, c, i);
    SlotStep(q, pcs, c, i, SlotAt(q, c, i).(stage := Moved), t, PopDestroy(c, i));
    NotDelivered(q, c, i, d.value);
    MoreDelivered(q1, d);
    MoreDeliveredThreads(q1, pcs[t := PopDestroy(c, i)], d);
  }

  lemma NotDelivered(q: Queue, c: Id, i: nat, v: Value)
    requires QueueOk(q) && Addr(q, c, i) && SlotAt(q, c, i).stage == Full
    ensures forall k :: 0 <= k < |q.delivered| ==> !SameSlot(q.delivered[k], Claim(c, i, v))
  {
    forall k | 0 <= k < |q.delivered|
      ensures !SameSlot(q.delivered[k], Claim(c, i, v))
    {
      assert DeliveryOk(q, q.delivered[k]);
    }
  }

  lemma MoreDelivered(q: Queue, d: Claim)
    requires QueueOk(q) && DeliveryOk(q, d)
    requires forall k :: 0 <= k < |q.delivered| ==> !SameSlot(q.delivered[k], d)
    ensures QueueOk(Delivered(q, d))
  {
    var q' := Delivered(q, d);
    hide SlotsOk, ChunkOk, ChainOk;
    MoreDeliveredSlots(q, d);
    PushedSame(q, q');
    MoreDeliveredHistory(q, d);
  }

  lemma MoreDeliveredHistory(q: Queue, d: Claim)
    requires PoppedOk(q) && DeliveredOk(q) && DeliveryOk(q, d)
    requires forall k :: 0 <= k < |q.delivered| ==> !SameSlot(q.delivered[k], d)
    ensures PoppedOk(Delivered(q, d)) && DeliveredOk(Delivered(q, d))
  {
    var q' := Delivered(q, d);
    forall k | 0 <= k < |q'.popped| ensures TakenOk(q', q'.popped[k]) { assert TakenOk(q, q.popped[k]); }
    forall k | 0 <= k < |q'.delivered|
      ensures DeliveryOk(q', q'.delivered[k])
    {
      assert DeliveryOk(q, q'.delivered[k]);
    }
  }

  lemma MoreDeliveredSlots(q: Queue, d: Claim)
    requires QueueOk(q)
    ensures SlotsOk(Delivered(q, d)) && ChainOk(Delivered(q, d))
    ensures forall c :: c in q.chunks ==> ChunkOk(Delivered(q, d), c)
  {
    var q' := Delivered(q, d);
    hide QueueOk, ChunkOk, SlotOk, ChainOk;
    GetChain(q);
    SameChain(q, q');
    forall c | c in q'.chunks ensures ChunkOk(q', c) {
      GetChunk(q, c);
      SameChunk(q, q', c);
    }
    forall c, i: nat | c in q'.chunks && i < CHUNK_SIZE ensures SlotOk(q', c, i) {
      GetSlot(q, c, i);
      SameSlotOk(q, q', c, i);
    }
  }

  lemma GetChain(q: Queue)
    requires QueueOk(q)
    ensures ChainOk(q)
  {
  }

  /** What is known of the chain, of a chunk and of a slot does not depend on the history of deliveries. */
  lemma SameChain(q: Queue, q': Queue)
    requires ChainOk(q) && q' == q.(delivered := q'.delivered)
    ensures ChainOk(q')
  {
  }

  lemma SameChunk(q: Queue, q': Queue, c: Id)
    requires ChunkOk(q, c) && q' == q.(delivered := q'.delivered)
    ensures ChunkOk(q', c)
  {
  }

  lemma SameSlotOk(q: Queue, q': Queue, c: Id, i: nat)
    requires SlotOk(q, c, i) && q' == q.(delivered := q'.delivered)
    ensures SlotOk(q', c, i)
  {
  }

  lemma MoreDeliveredThreads(q: Queue, pcs: map<Tid, Pc>, d: Claim)
    requires ThreadsOk(q, pcs)
    ensures ThreadsOk(Delivered(q, d), pcs)
  {
    var q' := Delivered(q, d);
    forall u | u in pcs
      ensures PcOk(q', u, pcs[u])
    {
      assert PcOk(q, u, pcs[u]);
    }
    assert forall c, i: nat :: Addr(q', c, i) ==> Addr(q, c, i) && SlotAt(q', c, i) == SlotAt(q, c, i);
  }
}
