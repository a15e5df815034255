/** Steps that make, link or release chunks, or move a queue pointer, keep the invariant. */
module MpmcLinks {
  import opened Base
  import opened MpmcSteps
  import opened MpmcInvariant
  import opened MpmcEdits

  // ---------------------------------------------------------------- making, linking and releasing chunks

  lemma AllocStep(q: Queue, pcs: map<Tid, Pc>, t: Tid, v: Value, tail: Id, made: Id)
    requires QueueOk(q) && ThreadsOk(q, pcs) && t in pcs && pcs[t] == PushAlloc(v, tail) && made !in q.chunks
    ensures var q' := SetChunk(q, made, NewChunk());
      QueueOk(q') && ThreadsOk(q', pcs[t := PushLink(v, tail, made)])
  {
    hide QueueOk, ThreadsOk;
    var q' := SetChunk(q, made, NewChunk());
    GetPc(q, pcs, t);
    AllocQueue(q, made);
    AllocKeeps(q, pcs, t, made);
    SameReserves(q, q', pcs, t, PushLink(v, tail, made));
    ThreadsStep(q, q', pcs, t, PushLink(v, tail, made));
  }

  lemma AllocQueue(q: Queue, made: Id)
    requires QueueOk(q) && made !in q.chunks
    ensures QueueOk(SetChunk(q, made, NewChunk())) && made !in q.pos
  {
    hide SlotOk, ChunkOk;
    var q' := SetChunk(q, made, NewChunk());
    AllocSlots(q, made);
    PushedSame(q, q');
    AllocHistory(q, made);
  }

  lemma AllocSlots(q: Queue, made: Id)
    requires QueueOk(q) && made !in q.chunks
    ensures SlotsOk(SetChunk(q, made, NewChunk()))
    ensures forall c :: c in q.chunks || c == made ==> ChunkOk(SetChunk(q, made, NewChunk()), c)
  {
    hide QueueOk;
    var q' := SetChunk(q, made, NewChunk());
    AllocUnlinked(q, made);
    forall c | c in q.chunks ensures ChunkOk(q', c) { GetChunk(q, c); }
    forall c, i: nat | c in q'.chunks && i < CHUNK_SIZE ensures SlotOk(q', c, i) { if c != made { GetSlot(q, c, i); } }
  }

  lemma AllocUnlinked(q: Queue, made: Id)
    requires QueueOk(q) && made !in q.chunks
    ensures made !in q.pos && q.head in q.pos
  {
  }

  lemma AllocHistory(q: Queue, made: Id)
    requires PoppedOk(q) && DeliveredOk(q) && made !in q.chunks
    ensures PoppedOk(SetChunk(q, made, NewChunk())) && DeliveredOk(SetChunk(q, made, NewChunk()))
  {
    var q' := SetChunk(q, made, NewChunk());
    forall k | 0 <= k < |q'.popped| ensures TakenOk(q', q'.popped[k]) { assert TakenOk(q, q.popped[k]); }
    forall k | 0 <= k < |q'.delivered| ensures DeliveryOk(q', q'.delivered[k]) { assert DeliveryOk(q, q.delivered[k]); }
  }

  /** Nobody else can already know the new chunk, and nobody else notices it. */
  lemma AllocKeeps(q: Queue, pcs: map<Tid, Pc>, t: Tid, made: Id)
    requires QueueOk(q) && ThreadsOk(q, pcs) && made !in q.chunks
    ensures forall u :: u in pcs && u != t ==> Keeps(q, SetChunk(q, made, NewChunk()), u, pcs[u]) && Private(pcs[u]) != Some(made)
  {
    hide QueueOk, ThreadsOk;
    forall u | u in pcs && u != t
      ensures Keeps(q, SetChunk(q, made, NewChunk()), u, pcs[u]) && Private(pcs[u]) != Some(made)
    {
      GetPc(q, pcs, u);
      forall c | c in q.chunks ensures q.chunks[c].popIndex <= CHUNK_SIZE { GetChunk(q, c); }
    }
  }

  /** A successful link extends the chain at its end, since only the last chunk has no next one. */
  lemma LinkQueue(q: Queue, tail: Id, made: Id)
    requires QueueOk(q) && Overfull(q, tail) && q.chunks[tail].next == None
    requires made in q.chunks && made !in q.pos && q.chunks[made].next == None
    ensures QueueOk(Linked(q, tail, made)) && q.pos[tail] == |q.chain| - 1
  {
    hide SlotsOk, PoppedOk, DeliveredOk, PushedOk;
    LinkChain(q, tail, made);
    LinkSlots(q, tail, made);
    LinkHistory(q, tail, made);
    hide ChainOk, ChunkOk, Overfull, Linked;
    LinkPushed(q, tail, made);
  }

  lemma LinkChain(q: Queue, tail: Id, made: Id)
    requires ChainOk(q) && (forall c :: c in q.chunks ==> ChunkOk(q, c)) && Overfull(q, tail) && q.chunks[tail].next == None
    requires made in q.chunks && made !in q.pos && q.chunks[made].next == None
    ensures q.pos[tail] == |q.chain| - 1 && made != tail && q.chunks[made].pushIndex == 0
    ensures ChainOk(Linked(q, tail, made))
    ensures forall c :: c in Linked(q, tail, made).chunks ==> ChunkOk(Linked(q, tail, made), c)
  {
    var q' := Linked(q, tail, made);
    assert ChunkOk(q, tail) && ChunkOk(q, made);
    forall c | c in q'.chunks ensures ChunkOk(q', c) { assert ChunkOk(q, c); }
  }

  lemma LinkSlots(q: Queue, tail: Id, made: Id)
    requires QueueOk(q) && tail in q.chunks && made in q.chunks && made !in q.pos
    ensures SlotsOk(Linked(q, tail, made))
  {
    hide QueueOk;
    var q' := Linked(q, tail, made);
    forall c, i: nat | c in q'.chunks && i < CHUNK_SIZE
      ensures SlotOk(q', c, i)
    {
      GetSlot(q, c, i);
      GetChunk(q, c);
    }
  }

  lemma LinkPushed(q: Queue, tail: Id, made: Id)
    requires ChainOk(q) && PushedOk(q) && Overfull(q, tail) && q.pos[tail] == |q.chain| - 1
    requires made in q.chunks && made != tail && q.chunks[made].pushIndex == 0
    ensures PushedOk(Linked(q, tail, made))
  {
    var q' := Linked(q, tail, made);
    forall k | 0 <= k < |q'.pushed|
      ensures At(q', k, q'.pushed[k].chunk, q'.pushed[k].index)
    {
      assert At(q, k, q.pushed[k].chunk, q.pushed[k].index);
    }
  }

  lemma LinkHistory(q: Queue, tail: Id, made: Id)
    requires PoppedOk(q) && DeliveredOk(q) && tail in q.chunks && made !in q.pos
    ensures PoppedOk(Linked(q, tail, made)) && DeliveredOk(Linked(q, tail, made))
  {
    var q' := Linked(q, tail, made);
    forall k | 0 <= k < |q'.popped| ensures TakenOk(q', q'.popped[k]) { assert TakenOk(q, q.popped[k]); }
    forall k | 0 <= k < |q'.delivered| ensures DeliveryOk(q', q'.delivered[k]) { assert DeliveryOk(q, q.delivered[k]); }
  }

  lemma LinkStep(q: Queue, pcs: map<Tid, Pc>, t: Tid, v: Value, tail: Id, made: Id)
    requires QueueOk(q) && ThreadsOk(q, pcs) && t in pcs && pcs[t] == PushLink(v, tail, made)
    requires tail in q.chunks && q.chunks[tail].next == None
    ensures QueueOk(Linked(q, tail, made)) && ThreadsOk(Linked(q, tail, made), pcs[t := PushSwing(v, made)])
  {
    hide QueueOk, ThreadsOk;
    var q' := Linked(q, tail, made);
    GetPc(q, pcs, t);
    LinkQueue(q, tail, made);
    forall u | u in pcs && u != t
      ensures Keeps(q, q', u, pcs[u])
    {
      LinkKeeps(q, pcs, t, u, v, tail, made);
    }
    SameReserves(q, q', pcs, t, PushSwing(v, made));
    LinkLive(q, tail, made);
    ThreadsStep(q, q', pcs, t, PushSwing(v, made));
  }

  lemma LinkLive(q: Queue, tail: Id, made: Id)
    requires QueueOk(q) && tail in q.chunks
    ensures Live(Linked(q, tail, made), made)
  {
  }

  lemma LinkKeeps(q: Queue, pcs: map<Tid, Pc>, t: Tid, u: Tid, v: Value, tail: Id, made: Id)
    requires QueueOk(q) && ThreadsOk(q, pcs) && t in pcs && pcs[t] == PushLink(v, tail, made)
    requires u in pcs && u != t && tail in q.pos && made !in q.pos && tail in q.chunks
    ensures Keeps(q, Linked(q, tail, made), u, pcs[u])
  {
    hide QueueOk, ThreadsOk;
    GetPc(q, pcs, u);
    GetPrivate(q, pcs, t, u);
    forall c | c in q.chunks ensures q.chunks[c].popIndex <= CHUNK_SIZE { GetChunk(q, c); }
  }

  lemma GetPrivate(q: Queue, pcs: map<Tid, Pc>, t: Tid, u: Tid)
    requires ThreadsOk(q, pcs) && t in pcs && u in pcs && t != u && Private(pcs[t]).Some?
    ensures Private(pcs[t]) != Private(pcs[u])
  {
  }

  /** `release_chunk` overwrites the `next` of a chunk that, by `Grace`, nobody can come back to. */
  lemma DetachStep(s: State, t: Tid, c: Id, seen: Option<Id>, k: Kont)
    requires Inv(s) && t in s.pcs && s.pcs[t] == RelStore(c, seen, k) && Grace(s, t, c)
    ensures c in s.q.chunks ==>
      Inv(State(Detached(s.q, c, seen), s.pcs[t := RelCas(c, seen, k)]))
  {
    hide QueueOk, ThreadsOk;
    if c in s.q.chunks {
      var q, pcs, q' := s.q, s.pcs, Detached(s.q, c, seen);
      GetPc(q, pcs, t);
      DetachQueue(s, t, c, seen, k);
      forall u | u in pcs && u != t
        ensures Keeps(q, q', u, pcs[u])
      {
        DetachKeeps(s, t, u, c, seen, k);
      }
      SameReserves(q, q', pcs, t, RelCas(c, seen, k));
      forall u | u in pcs && u != t && Private(RelCas(c, seen, k)).Some?
        ensures Private(RelCas(c, seen, k)) != Private(pcs[u])
      {
        GetPrivate(q, pcs, t, u);
      }
      ThreadsStep(q, q', pcs, t, RelCas(c, seen, k));
    }
  }

  lemma DetachKeeps(s: State, t: Tid, u: Tid, c: Id, seen: Option<Id>, k: Kont)
    requires Inv(s) && t in s.pcs && s.pcs[t] == RelStore(c, seen, k) && Grace(s, t, c)
    requires u in s.pcs && u != t && c in s.q.chunks
    ensures Keeps(s.q, Detached(s.q, c, seen), u, s.pcs[u])
  {
    hide QueueOk, ThreadsOk, PushPcOk, PopPcOk, ReleasePcOk, Refs, Private;
    var q := s.q;
    OtherPrivate(s, t, u, c, seen, k);
    forall d | d in q.chunks ensures q.chunks[d].popIndex <= CHUNK_SIZE { GetChunk(q, d); }
    assert c in q.pos ==> After(q, c, Refs(s.pcs[u]));
  }

  /** The chunk being released is not one that only another thread knows. */
  lemma OtherPrivate(s: State, t: Tid, u: Tid, c: Id, seen: Option<Id>, k: Kont)
    requires ThreadsOk(s.q, s.pcs) && t in s.pcs && u in s.pcs && u != t && s.pcs[t] == RelStore(c, seen, k)
    ensures Private(s.pcs[u]) != Some(c)
  {
    hide ThreadsOk;
    GetPc(s.q, s.pcs, t);
    GetPc(s.q, s.pcs, u);
    if Private(s.pcs[t]).Some? { GetPrivate(s.q, s.pcs, t, u); }
  }

  lemma DetachQueue(s: State, t: Tid, c: Id, seen: Option<Id>, k: Kont)
    requires QueueOk(s.q) && c in s.q.chunks && Grace(s, t, c)
    requires c in s.q.pos ==> Passed(s.q, c)
    ensures QueueOk(Detached(s.q, c, seen))
  {
    hide SlotsOk, PoppedOk, DeliveredOk;
    var q, q' := s.q, Detached(s.q, c, seen);
    DetachSlots(q, c, seen);
    DetachHistory(q, c, seen);
    assert c in q.pos ==> After(q, c, {q.tail});
    DetachChain(q, c, seen);
    hide ChainOk, ChunkOk;
    PushedSame(q, q');
  }

  lemma DetachChain(q: Queue, c: Id, seen: Option<Id>)
    requires ChainOk(q) && (forall d :: d in q.chunks ==> ChunkOk(q, d)) && c in q.chunks
    requires c in q.pos ==> Passed(q, c) && After(q, c, {q.tail})
    ensures ChainOk(Detached(q, c, seen))
    ensures forall d :: d in Detached(q, c, seen).chunks ==> ChunkOk(Detached(q, c, seen), d)
  {
    var q' := Detached(q, c, seen);
    forall d | d in q'.chunks ensures ChunkOk(q', d) { assert ChunkOk(q, d); }
  }

  lemma DetachSlots(q: Queue, c: Id, seen: Option<Id>)
    requires QueueOk(q) && c in q.chunks
    ensures SlotsOk(Detached(q, c, seen))
  {
    hide QueueOk;
    var q' := Detached(q, c, seen);
    forall d, i: nat | d in q'.chunks && i < CHUNK_SIZE ensures SlotOk(q', d, i) { GetSlot(q, d, i); }
  }

  lemma DetachHistory(q: Queue, c: Id, seen: Option<Id>)
    requires PoppedOk(q) && DeliveredOk(q) && c in q.chunks
    ensures PoppedOk(Detached(q, c, seen)) && DeliveredOk(Detached(q, c, seen))
  {
    var q' := Detached(q, c, seen);
    forall k | 0 <= k < |q'.popped| ensures TakenOk(q', q'.popped[k]) { assert TakenOk(q, q.popped[k]); }
    forall k | 0 <= k < |q'.delivered| ensures DeliveryOk(q', q'.delivered[k]) { assert DeliveryOk(q, q.delivered[k]); }
  }

  // ---------------------------------------------------------------- pointers

  function Pointed(q: Queue, head: Id, tail: Id, free: Option<Id>): Queue {
    q.(head := head, tail := tail, free := free)
  }

  lemma PointerQueue(q: Queue, head: Id, tail: Id, free: Option<Id>)
    requires QueueOk(q) && Live(q, head) && Live(q, tail) && q.pos[q.head] <= q.pos[head]
    ensures QueueOk(Pointed(q, head, tail, free))
  {
    hide SlotOk, PoppedOk, DeliveredOk;
    var q' := Pointed(q, head, tail, free);
    forall c | c in q'.chunks ensures ChunkOk(q', c) { assert ChunkOk(q, c); }
    forall c, i: nat | c in q'.chunks && i < CHUNK_SIZE ensures SlotOk(q', c, i) { PointerSlot(q, head, tail, free, c, i); }
    PushedSame(q, q');
    PointerHistory(q, head, tail, free);
  }

  lemma PointerSlot(q: Queue, head: Id, tail: Id, free: Option<Id>, c: Id, i: nat)
    requires SlotsOk(q) && c in q.chunks && i < CHUNK_SIZE
    ensures SlotOk(Pointed(q, head, tail, free), c, i)
  {
    assert SlotOk(q, c, i);
  }

  lemma PointerHistory(q: Queue, head: Id, tail: Id, free: Option<Id>)
    requires PoppedOk(q) && DeliveredOk(q)
    ensures PoppedOk(Pointed(q, head, tail, free)) && DeliveredOk(Pointed(q, head, tail, free))
  {
    var q' := Pointed(q, head, tail, free);
    forall k | 0 <= k < |q'.popped| ensures TakenOk(q', q'.popped[k]) { assert TakenOk(q, q.popped[k]); }
    forall k | 0 <= k < |q'.delivered| ensures DeliveryOk(q', q'.delivered[k]) { assert DeliveryOk(q, q.delivered[k]); }
  }

  lemma PointerStep(q: Queue, pcs: map<Tid, Pc>, t: Tid, pc: Pc, head: Id, tail: Id, free: Option<Id>)
    requires QueueOk(q) && ThreadsOk(q, pcs) && t in pcs
    requires Live(q, q.head) && Live(q, head) && Live(q, tail) && q.pos[q.head] <= q.pos[head]
    requires PcOk(Pointed(q, head, tail, free), t, pc) && Private(pc) == None
    requires forall d, i :: !Constructing(pcs[t], d, i)
    ensures QueueOk(Pointed(q, head, tail, free)) && ThreadsOk(Pointed(q, head, tail, free), pcs[t := pc])
  {
    hide QueueOk, ThreadsOk;
    var q' := Pointed(q, head, tail, free);
    PointerQueue(q, head, tail, free);
    forall c | c in q.chunks ensures q.chunks[c].popIndex <= CHUNK_SIZE { GetChunk(q, c); }
    forall u | u in pcs && u != t ensures Keeps(q, q', u, pcs[u]) { }
    SameReserves(q, q', pcs, t, pc);
    ThreadsStep(q, q', pcs, t, pc);
  }
}
