/**
 First in, first out, for the interleaved queue: the order of pop claims when lines 169 and 188 of
 `pop` are one step, and what becomes of every claim.
 */
module MpmcFifo {
  import opened Base
  import opened MpmcSteps
  import opened MpmcInvariant
  import opened MpmcEdits
  import opened MpmcLinks
  import opened MpmcRuns

  // ---------------------------------------------------------------- order of pop claims

  /** Chunks before the head chunk are used up, chunks after it untouched, and pops went along the chain. */
  ghost predicate PopsOk(q: Queue) {
    && q.head in q.pos && q.head in q.chunks
    && (forall c :: c in q.pos ==> PopsAt(q, c))
    && |q.popped| == CHUNK_SIZE * q.pos[q.head] + q.chunks[q.head].popIndex
    && forall k :: 0 <= k < |q.popped| ==> At(q, k, q.popped[k].chunk, q.popped[k].index)
  }

  ghost predicate PopsAt(q: Queue, c: Id) {
    c in q.pos && c in q.chunks && q.head in q.pos
    && (q.pos[c] < q.pos[q.head] ==> q.chunks[c].popIndex == CHUNK_SIZE)
    && (q.pos[c] > q.pos[q.head] ==> q.chunks[c].popIndex == 0)
  }

  ghost predicate PopPcsOk(q: Queue, pcs: map<Tid, Pc>) {
    forall t :: t in pcs ==>
      && !pcs[t].PopNextEmpty?
      && (pcs[t].PopAdvance? ==> pcs[t].head in q.chunks && q.chunks[pcs[t].head].popIndex == CHUNK_SIZE)
  }

  ghost predicate Ordered(s: State) {
    PopsOk(s.q) && PopPcsOk(s.q, s.pcs)
  }

  /** Pop indexes are as before, and chunks linked since have pop index 0. */
  ghost predicate SamePops(q: Queue, q': Queue) {
    && q'.head == q.head && q'.popped == q.popped && q.chain <= q'.chain
    && (forall c :: c in q.pos ==> c in q'.pos && q'.pos[c] == q.pos[c])
    && (forall c :: c in q.chunks ==> c in q'.chunks && q'.chunks[c].popIndex == q.chunks[c].popIndex)
    && (forall c :: c in q'.pos && c !in q.pos ==>
          c in q.chunks && q.chunks[c].popIndex == 0 && q'.pos[c] >= |q.chain|)
  }

  lemma SamePopsOk(q: Queue, q': Queue, pcs: map<Tid, Pc>, t: Tid, pc: Pc)
    requires QueueOk(q) && PopsOk(q) && PopPcsOk(q, pcs) && SamePops(q, q')
    requires !pc.PopNextEmpty? && (pc.PopAdvance? ==> pc.head in q.chunks && q.chunks[pc.head].popIndex == CHUNK_SIZE)
    ensures PopsOk(q') && PopPcsOk(q', pcs[t := pc])
  {
    hide QueueOk, PopsAt;
    GetEnds(q);
    GetPlaces(q);
    forall c | c in q'.pos
      ensures PopsAt(q', c)
    {
      if c in q.pos { assert PopsAt(q, c); SamePopsAt(q, q', c); } else { SamePopsNew(q, q', c); }
    }
    forall k | 0 <= k < |q'.popped|
      ensures At(q', k, q'.popped[k].chunk, q'.popped[k].index)
    {
      assert At(q, k, q.popped[k].chunk, q.popped[k].index);
    }
  }

  lemma GetPlaces(q: Queue)
    requires QueueOk(q)
    ensures q.head in q.pos && q.pos[q.head] < |q.chain|
  {
  }

  lemma SamePopsAt(q: Queue, q': Queue, c: Id)
    requires SamePops(q, q') && PopsAt(q, c)
    ensures PopsAt(q', c)
  {
  }

  lemma SamePopsNew(q: Queue, q': Queue, c: Id)
    requires SamePops(q, q') && c in q'.pos && c !in q.pos && q.head in q.pos && q.pos[q.head] < |q.chain|
    ensures PopsAt(q', c)
  {
  }

  lemma UnlinkedPop(q: Queue, c: Id)
    requires QueueOk(q) && c in q.chunks && c !in q.pos
    ensures q.chunks[c].popIndex == 0
  {
    assert ChunkOk(q, c);
  }

  /** No push step moves a pop index. */
  lemma PushOrdered(s: State, s': State, t: Tid)
    requires Inv(s) && Ordered(s) && t in s.pcs && t in s'.pcs && s'.pcs == s.pcs[t := s'.pcs[t]]
    requires PushStep(s.q, s'.q, t, s.pcs[t], s'.pcs[t])
    ensures Ordered(s')
  {
    hide QueueOk, ThreadsOk, PopsOk, PopPcsOk;
    var q, q', pc := s.q, s'.q, s.pcs[t];
    GetPc(q, s.pcs, t);
    if pc.PushLink? && s'.pcs[t].PushSwing? { UnlinkedPop(q, pc.made); LinkedPlaces(q, pc.tail, pc.made); }
    if pc.PushAlloc? { AllocUnlinked(q, s'.pcs[t].made); }
    SamePopsOk(q, q', s.pcs, t, s'.pcs[t]);
  }

  lemma LinkedPlaces(q: Queue, tail: Id, made: Id)
    requires QueueOk(q) && tail in q.chunks && made in q.chunks && made !in q.pos && q.chunks[made].popIndex == 0
    ensures SamePops(q, Linked(q, tail, made))
  {
  }

  lemma ReleaseOrdered(s: State, s': State, t: Tid)
    requires Inv(s) && Ordered(s) && t in s.pcs && t in s'.pcs && s'.pcs == s.pcs[t := s'.pcs[t]]
    requires ReleaseStep(s.q, s'.q, s.pcs[t], s'.pcs[t])
    ensures Ordered(s')
  {
    hide QueueOk, ThreadsOk, PopsOk, PopPcsOk;
    SamePopsOk(s.q, s'.q, s.pcs, t, s'.pcs[t]);
  }

  lemma PopOrdered(s: State, s': State, t: Tid, m: Mode)
    requires Inv(s) && Ordered(s) && m.atomicPeek
    requires t in s.pcs && t in s'.pcs && s'.pcs == s.pcs[t := s'.pcs[t]]
    requires PopStep(s.q, s'.q, t, s.pcs[t], s'.pcs[t], m)
    ensures Ordered(s')
  {
    hide QueueOk, ThreadsOk, PopsOk, PopPcsOk;
    var q, q', pc, pc' := s.q, s'.q, s.pcs[t], s'.pcs[t];
    GetPc(q, s.pcs, t);
    NeverNextEmpty(s, t);
    if pc.PopAdvance? && q.head == pc.head {
      AdvanceOrdered(s, t, pc.head, pc.next);
    } else if pc.PopClaim? && pc' != PopLoad {
      ClaimOrdered(s, t, pc.head, pc.index);
    } else {
      if pc.PopPeek? { PeekOrdered(q, s.pcs, t, pc.head, pc.index); }
      SamePopsOk(q, q', s.pcs, t, pc');
    }
  }

  lemma NeverNextEmpty(s: State, t: Tid)
    requires Ordered(s) && t in s.pcs
    ensures !s.pcs[t].PopNextEmpty?
    ensures s.pcs[t].PopAdvance? ==> s.pcs[t].head in s.q.chunks && s.q.chunks[s.pcs[t].head].popIndex == CHUNK_SIZE
  {
  }

  /** With one-step reading, a chunk without unclaimed values has no next chunk: line 193 is not reached. */
  lemma PeekOrdered(q: Queue, pcs: map<Tid, Pc>, t: Tid, head: Id, i: nat)
    requires QueueOk(q) && ThreadsOk(q, pcs) && t in pcs && pcs[t] == PopPeek(head, i) && head in q.chunks
    ensures i < CHUNK_SIZE && i >= q.chunks[head].pushIndex ==>
      && q.chunks[head].next == None
      && q.pos.Keys >= {head} && q.head in q.pos && q.pos[head] == q.pos[q.head] == |q.chain| - 1
      && i == q.chunks[head].popIndex == q.chunks[head].pushIndex
  {
    hide QueueOk, ThreadsOk;
    GetPc(q, pcs, t);
    GetChunk(q, head);
    GetNext(q, head);
    GetPlaces(q);
  }

  lemma AdvanceOrdered(s: State, t: Tid, head: Id, next: Id)
    requires Inv(s) && Ordered(s) && t in s.pcs && s.pcs[t] == PopAdvance(head, next) && s.q.head == head
    ensures Ordered(State(s.q.(head := next), s.pcs[t := PopRetire(head)]))
  {
    hide QueueOk, ThreadsOk;
    var q, q' := s.q, s.q.(head := next);
    GetPc(q, s.pcs, t);
    GetNextInChunks(q, next);
    forall c | c in q'.pos
      ensures PopsAt(q', c)
    {
      assert PopsAt(q, c);
      SamePlace(q, c, head);
    }
    assert PopsAt(q, next);
    forall k | 0 <= k < |q'.popped|
      ensures At(q', k, q'.popped[k].chunk, q'.popped[k].index)
    {
      assert At(q, k, q.popped[k].chunk, q.popped[k].index);
    }
  }

  lemma GetNextInChunks(q: Queue, c: Id)
    requires QueueOk(q) && c in q.pos
    ensures c in q.chunks
  {
  }

  /** Two chunks at one place are one chunk. */
  lemma SamePlace(q: Queue, c: Id, d: Id)
    requires QueueOk(q) && c in q.pos && d in q.pos
    ensures q.pos[c] == q.pos[d] ==> c == d
    ensures q.pos[c] < |q.chain| && q.chain[q.pos[c]] == c
  {
  }

  /** A pop claim happens in the head chunk, at the next slot in order. */
  lemma ClaimOrdered(s: State, t: Tid, c: Id, i: nat)
    requires Inv(s) && Ordered(s) && t in s.pcs && s.pcs[t] == PopClaim(c, i)
    requires Addr(s.q, c, i) && s.q.chunks[c].popIndex == i
    ensures Ordered(State(PopClaimed(s.q, t, c, i), s.pcs[t := PopRegister(c, i)]))
    ensures c == s.q.head
  {
    hide QueueOk, ThreadsOk;
    var q, q' := s.q, PopClaimed(s.q, t, c, i);
    GetPc(q, s.pcs, t);
    GetChunk(q, c);
    assert PopsAt(q, c);
    SamePlace(q, c, q.head);
    ClaimPlaces(q, t, c, i);
    forall k | 0 <= k < |q'.popped|
      ensures At(q', k, q'.popped[k].chunk, q'.popped[k].index)
    {
      if k < |q.popped| { assert At(q, k, q.popped[k].chunk, q.popped[k].index); }
    }
  }

  lemma ClaimPlaces(q: Queue, t: Tid, c: Id, i: nat)
    requires PopsOk(q) && Addr(q, c, i) && c == q.head
    ensures forall d :: d in q.pos ==> PopsAt(PopClaimed(q, t, c, i), d)
  {
    forall d | d in q.pos ensures PopsAt(PopClaimed(q, t, c, i), d) { assert PopsAt(q, d); }
  }

  lemma StepOrdered(s: State, s': State, t: Tid, m: Mode)
    requires Inv(s) && Ordered(s) && m.atomicPeek && Next(s, s', t, m)
    ensures Ordered(s')
  {
    hide Inv, StartStep, PushStep, PopStep, ReleaseStep, TailGrace, RefsGrace, Ordered;
    var pc, pc' := s.pcs[t], s'.pcs[t];
    if StartStep(s.q, s'.q, pc, pc') { StartOrdered(s, s', t); }
    else if PushStep(s.q, s'.q, t, pc, pc') { PushOrdered(s, s', t); }
    else if PopStep(s.q, s'.q, t, pc, pc', m) { PopOrdered(s, s', t, m); }
    else { ReleaseOrdered(s, s', t); }
  }

  lemma StartOrdered(s: State, s': State, t: Tid)
    requires Ordered(s) && t in s.pcs && t in s'.pcs && s'.pcs == s.pcs[t := s'.pcs[t]]
    requires StartStep(s.q, s'.q, s.pcs[t], s'.pcs[t])
    ensures Ordered(s')
  {
  }
}
