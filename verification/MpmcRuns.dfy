/** Every step keeps the invariant, case by case; then what follows for whole runs. */
module MpmcRuns {
  import opened Base
  import opened MpmcSteps
  import opened MpmcInvariant
  import opened MpmcEdits
  import opened MpmcLinks

  lemma GetEnds(q: Queue)
    requires QueueOk(q)
    ensures Live(q, q.head) && Live(q, q.tail)
  {
  }

  /** The chunk linked after a live one is itself live, one place further on. */
  lemma GetNext(q: Queue, c: Id)
    requires QueueOk(q) && Live(q, c) && c in q.chunks
    ensures q.chunks[c].next == None <==> q.pos[c] == |q.chain| - 1
    ensures var next := q.chunks[c].next; next.Some? ==> Live(q, next.value) && q.pos[next.value] == q.pos[c] + 1
  {
    GetChunk(q, c);
  }

  lemma StartKeeps(s: State, s': State, t: Tid)
    requires Inv(s) && t in s.pcs && t in s'.pcs && s'.pcs == s.pcs[t := s'.pcs[t]]
    requires StartStep(s.q, s'.q, s.pcs[t], s'.pcs[t])
    ensures Inv(s')
  {
    hide QueueOk, ThreadsOk;
    LocalStep(s.q, s.pcs, t, s'.pcs[t]);
  }

  lemma PushKeeps(s: State, s': State, t: Tid)
    requires Inv(s) && t in s.pcs && t in s'.pcs && s'.pcs == s.pcs[t := s'.pcs[t]]
    requires PushStep(s.q, s'.q, t, s.pcs[t], s'.pcs[t])
    ensures Inv(s')
  {
    hide QueueOk, ThreadsOk, SlotOk, ChunkOk, Constructing;
    var q, pcs, pc, pc' := s.q, s.pcs, s.pcs[t], s'.pcs[t];
    GetPc(q, pcs, t);
    match pc
    case PushLoad(v) =>
      GetEnds(q);
      LocalPush(q, pcs, t, pc');
    case PushClaim(v, tail) =>
      if q.chunks[tail].pushIndex < CHUNK_SIZE {
        PushClaimStep(q, pcs, t, v, tail, q.chunks[tail].pushIndex);
      } else {
        OverflowStep(q, pcs, t, v, tail);
      }
    case PushCheck(v, c, i) => CheckStep(q, pcs, t, v, c, i);
    case PushWrite(v, c, i) => WriteStep(q, pcs, t, v, c, i);
    case PushPublish(v, c, i) => PublishStep(q, pcs, t, v, c, i);
    case PushAlloc(v, tail) => AllocStep(q, pcs, t, v, tail, pc'.made);
    case PushLink(v, tail, made) =>
      if q.chunks[tail].next == None {
        LinkStep(q, pcs, t, v, tail, made);
      } else {
        GetNext(q, tail);
        LocalPush(q, pcs, t, pc');
      }
    case PushSwing(v, made) => SwingStep(q, pcs, t, pc', made);
    case PushHelp(v, tail, expected) => SwingStep(q, pcs, t, pc', s'.q.tail);
  }

  lemma LocalPush(q: Queue, pcs: map<Tid, Pc>, t: Tid, pc: Pc)
    requires ThreadsOk(q, pcs) && t in pcs && PcOk(q, t, pc)
    requires pcs[t].PushLoad? || pcs[t].PushLink? || (pcs[t].PushCheck? && pc == PushWrite(pcs[t].v, pcs[t].tail, pcs[t].index))
    requires Private(pc) == None || Private(pc) == Private(pcs[t])
    ensures ThreadsOk(q, pcs[t := pc])
  {
    hide ThreadsOk, PcOk;
    LocalStep(q, pcs, t, pc);
  }

  lemma OverflowStep(q: Queue, pcs: map<Tid, Pc>, t: Tid, v: Value, tail: Id)
    requires QueueOk(q) && ThreadsOk(q, pcs) && t in pcs && pcs[t] == PushClaim(v, tail)
    requires tail in q.chunks && q.chunks[tail].pushIndex >= CHUNK_SIZE
    ensures var q' := SetChunk(q, tail, q.chunks[tail].(pushIndex := q.chunks[tail].pushIndex + 1));
      QueueOk(q') && ThreadsOk(q', pcs[t := PushAlloc(v, tail)])
  {
    hide QueueOk, ThreadsOk;
    GetPc(q, pcs, t);
    GetChunk(q, tail);
    FieldStep(q, pcs, tail, q.chunks[tail].(pushIndex := q.chunks[tail].pushIndex + 1), t, PushAlloc(v, tail));
  }

  /** The slot a push has just claimed is never occupied: the branch at line 132 is always taken. */
  lemma CheckStep(q: Queue, pcs: map<Tid, Pc>, t: Tid, v: Value, c: Id, i: nat)
    requires QueueOk(q) && ThreadsOk(q, pcs) && t in pcs && pcs[t] == PushCheck(v, c, i)
    ensures Addr(q, c, i) && !SlotAt(q, c, i).occupied && ThreadsOk(q, pcs[t := PushWrite(v, c, i)])
  {
    hide QueueOk, ThreadsOk;
    GetPc(q, pcs, t);
    GetChunk(q, c);
    GetSlot(q, c, i);
    LocalPush(q, pcs, t, PushWrite(v, c, i));
  }

  lemma WriteStep(q: Queue, pcs: map<Tid, Pc>, t: Tid, v: Value, c: Id, i: nat)
    requires QueueOk(q) && ThreadsOk(q, pcs) && t in pcs && pcs[t] == PushWrite(v, c, i) && Addr(q, c, i)
    ensures var q' := SetSlot(q, c, i, SlotAt(q, c, i).(storage := Some(v)));
      QueueOk(q') && ThreadsOk(q', pcs[t := PushPublish(v, c, i)])
  {
    hide QueueOk, ThreadsOk;
    GetPc(q, pcs, t);
    GetChunk(q, c);
    GetSlot(q, c, i);
    SlotStep(q, pcs, c, i, SlotAt(q, c, i).(storage := Some(v)), t, PushPublish(v, c, i));
  }

  lemma PublishStep(q: Queue, pcs: map<Tid, Pc>, t: Tid, v: Value, c: Id, i: nat)
    requires QueueOk(q) && ThreadsOk(q, pcs) && t in pcs && pcs[t] == PushPublish(v, c, i) && Addr(q, c, i)
    ensures var q' := SetSlot(q, c, i, SlotAt(q, c, i).(occupied := true, stage := Full));
      QueueOk(q') && ThreadsOk(q', pcs[t := Idle])
  {
    hide QueueOk, ThreadsOk;
    GetPc(q, pcs, t);
    GetChunk(q, c);
    GetSlot(q, c, i);
    SlotStep(q, pcs, c, i, SlotAt(q, c, i).(occupied := true, stage := Full), t, Idle);
  }

  lemma SwingStep(q: Queue, pcs: map<Tid, Pc>, t: Tid, pc: Pc, tail: Id)
    requires QueueOk(q) && ThreadsOk(q, pcs) && t in pcs && (pcs[t].PushSwing? || pcs[t].PushHelp?)
    requires (tail == q.tail || Live(q, tail)) && pc.PushLoad?
    ensures QueueOk(q.(tail := tail)) && ThreadsOk(q.(tail := tail), pcs[t := pc])
  {
    hide QueueOk, ThreadsOk;
    GetEnds(q);
    PointerStep(q, pcs, t, pc, q.head, tail, q.free);
    assert Pointed(q, q.head, tail, q.free) == q.(tail := tail);
  }

  lemma PopKeeps(s: State, s': State, t: Tid, m: Mode)
    requires Inv(s) && t in s.pcs && t in s'.pcs && s'.pcs == s.pcs[t := s'.pcs[t]]
    requires PopStep(s.q, s'.q, t, s.pcs[t], s'.pcs[t], m)
    ensures Inv(s')
  {
    hide QueueOk, ThreadsOk, SlotOk, ChunkOk, Constructing;
    var q, pcs, pc, pc' := s.q, s.pcs, s.pcs[t], s'.pcs[t];
    GetPc(q, pcs, t);
    GetEnds(q);
    match pc
    case PopLoad => LocalPop(q, pcs, t, pc');
    case PopIndex(head) => LocalPop(q, pcs, t, pc');
    case PopPeek(head, i) => PeekStep(q, pcs, t, head, i, pc');
    case PopNextFull(head) => GetNext(q, head); LocalPop(q, pcs, t, pc');
    case PopNextEmpty(head) => GetNext(q, head); LocalPop(q, pcs, t, pc');
    case PopAdvance(head, next) =>
      if q.head == head { AdvanceStep(q, pcs, t, head, next); } else { LocalPop(q, pcs, t, pc'); }
    case PopRetire(head) => CounterStep(q, pcs, t, head, q.chunks[head].(retired := true), pc');
    case PopClaim(head, i) =>
      if s'.q == q && pc' == PopLoad { LocalPop(q, pcs, t, pc'); } else { PopClaimStep(q, pcs, t, head, i); }
    case PopRegister(head, i) => CounterStep(q, pcs, t, head, q.chunks[head].(readers := q.chunks[head].readers + 1), pc');
    case PopWait(head, i) => WaitStep(q, pcs, t, head, i, pc');
    case PopTake(head, i) => TakeStep(q, pcs, t, head, i);
    case PopDestroy(head, i) => DestroyStep(q, pcs, t, head, i);
    case PopUnregister(head) => CounterStep(q, pcs, t, head, q.chunks[head].(readers := q.chunks[head].readers - 1), pc');
  }

  lemma LocalPop(q: Queue, pcs: map<Tid, Pc>, t: Tid, pc: Pc)
    requires ThreadsOk(q, pcs) && t in pcs && PcOk(q, t, pc) && Private(pc) == None
    requires !pcs[t].PushCheck? && !pcs[t].PushWrite? && !pcs[t].PushPublish?
    ensures ThreadsOk(q, pcs[t := pc])
  {
    hide ThreadsOk, PcOk;
    LocalStep(q, pcs, t, pc);
  }

  lemma PeekStep(q: Queue, pcs: map<Tid, Pc>, t: Tid, head: Id, i: nat, pc: Pc)
    requires QueueOk(q) && ThreadsOk(q, pcs) && t in pcs && pcs[t] == PopPeek(head, i)
    requires head in q.chunks
    requires
      || (i >= CHUNK_SIZE && pc == PopNextFull(head))
      || (i < CHUNK_SIZE && i < q.chunks[head].pushIndex && pc == PopClaim(head, i))
      || pc == AfterNext(head, q.chunks[head].next) || pc == PopNextEmpty(head)
    ensures ThreadsOk(q, pcs[t := pc])
  {
    hide QueueOk, ThreadsOk;
    GetPc(q, pcs, t);
    GetChunk(q, head);
    GetNext(q, head);
    LocalPop(q, pcs, t, pc);
  }

  lemma AdvanceStep(q: Queue, pcs: map<Tid, Pc>, t: Tid, head: Id, next: Id)
    requires QueueOk(q) && ThreadsOk(q, pcs) && t in pcs && pcs[t] == PopAdvance(head, next) && q.head == head
    ensures QueueOk(q.(head := next)) && ThreadsOk(q.(head := next), pcs[t := PopRetire(head)])
  {
    hide QueueOk, ThreadsOk;
    GetEnds(q);
    GetPc(q, pcs, t);
    PointerStep(q, pcs, t, PopRetire(head), next, q.tail, q.free);
    assert Pointed(q, next, q.tail, q.free) == q.(head := next);
  }

  lemma CounterStep(q: Queue, pcs: map<Tid, Pc>, t: Tid, c: Id, ch: Chunk, pc: Pc)
    requires QueueOk(q) && ThreadsOk(q, pcs) && t in pcs && c in q.chunks
    requires ch == q.chunks[c].(readers := ch.readers, retired := ch.retired)
    requires ch.retired ==> q.chunks[c].retired || Passed(q, c)
    requires !pcs[t].PushCheck? && !pcs[t].PushWrite? && !pcs[t].PushPublish?
    requires PcOk(SetChunk(q, c, ch), t, pc) && Private(pc) == None
    ensures QueueOk(SetChunk(q, c, ch)) && ThreadsOk(SetChunk(q, c, ch), pcs[t := pc])
  {
    hide QueueOk, ThreadsOk;
    GetChunk(q, c);
    FieldStep(q, pcs, c, ch, t, pc);
  }

  lemma WaitStep(q: Queue, pcs: map<Tid, Pc>, t: Tid, c: Id, i: nat, pc: Pc)
    requires QueueOk(q) && ThreadsOk(q, pcs) && t in pcs && pcs[t] == PopWait(c, i) && Addr(q, c, i)
    requires pc == (if SlotAt(q, c, i).occupied then PopTake(c, i) else PopWait(c, i))
    ensures ThreadsOk(q, pcs[t := pc])
  {
    hide QueueOk, ThreadsOk;
    GetPc(q, pcs, t);
    GetChunk(q, c);
    GetSlot(q, c, i);
    LocalPop(q, pcs, t, pc);
  }

  lemma DestroyStep(q: Queue, pcs: map<Tid, Pc>, t: Tid, c: Id, i: nat)
    requires QueueOk(q) && ThreadsOk(q, pcs) && t in pcs && pcs[t] == PopDestroy(c, i) && Addr(q, c, i)
    ensures var q' := SetSlot(q, c, i, SlotAt(q, c, i).(occupied := false, stage := Spent));
      QueueOk(q') && ThreadsOk(q', pcs[t := PopUnregister(c)])
  {
    hide QueueOk, ThreadsOk;
    GetPc(q, pcs, t);
    GetChunk(q, c);
    GetSlot(q, c, i);
    SlotStep(q, pcs, c, i, SlotAt(q, c, i).(occupied := false, stage := Spent), t, PopUnregister(c));
  }

  lemma ReleaseKeeps(s: State, s': State, t: Tid)
    requires Inv(s) && t in s.pcs && t in s'.pcs && s'.pcs == s.pcs[t := s'.pcs[t]]
    requires ReleaseStep(s.q, s'.q, s.pcs[t], s'.pcs[t])
    requires s.pcs[t].RelStore? ==> Grace(s, t, s.pcs[t].c)
    ensures Inv(s')
  {
    hide QueueOk, ThreadsOk, SlotOk, ChunkOk, Grace;
    var q, pcs, pc, pc' := s.q, s.pcs, s.pcs[t], s'.pcs[t];
    GetPc(q, pcs, t);
    GetEnds(q);
    match pc
    case TryReaders(c, k) => LocalPop(q, pcs, t, pc');
    case TryRetired(c, k) => RetiredStep(q, pcs, t, c, k, s'.q, pc');
    case RelLoad(c, k) => LocalRelease(q, pcs, t, pc');
    case RelStore(c, seen, k) => DetachStep(s, t, c, seen, k);
    case RelCas(c, seen, k) =>
      if pc'.RelStore? { LocalRelease(q, pcs, t, pc'); } else { FreedStep(q, pcs, t, c, k, s'.q, pc'); }
  }

  lemma LocalRelease(q: Queue, pcs: map<Tid, Pc>, t: Tid, pc: Pc)
    requires ThreadsOk(q, pcs) && t in pcs && PcOk(q, t, pc) && Private(pc) == Private(pcs[t])
    requires pcs[t].RelLoad? || pcs[t].RelCas?
    ensures ThreadsOk(q, pcs[t := pc])
  {
    hide ThreadsOk, PcOk;
    LocalStep(q, pcs, t, pc);
  }

  lemma RetiredStep(q: Queue, pcs: map<Tid, Pc>, t: Tid, c: Id, k: Kont, q': Queue, pc: Pc)
    requires QueueOk(q) && ThreadsOk(q, pcs) && t in pcs && pcs[t] == TryRetired(c, k) && c in q.chunks
    requires if q.chunks[c].retired then q' == SetChunk(q, c, q.chunks[c].(retired := false)) && pc == RelLoad(c, k)
             else q' == q && pc == Resume(k)
    ensures QueueOk(q') && ThreadsOk(q', pcs[t := pc])
  {
    hide QueueOk, ThreadsOk;
    GetPc(q, pcs, t);
    GetChunk(q, c);
    if q.chunks[c].retired {
      CounterStep(q, pcs, t, c, q.chunks[c].(retired := false), pc);
    } else {
      LocalPop(q, pcs, t, pc);
    }
  }

  lemma FreedStep(q: Queue, pcs: map<Tid, Pc>, t: Tid, c: Id, k: Kont, q': Queue, pc: Pc)
    requires QueueOk(q) && ThreadsOk(q, pcs) && t in pcs && pcs[t].RelCas? && pcs[t].k == k
    requires q' == q.(free := Some(c)) && pc == Resume(k)
    ensures QueueOk(q') && ThreadsOk(q', pcs[t := pc])
  {
    hide QueueOk, ThreadsOk;
    GetPc(q, pcs, t);
    GetEnds(q);
    PointerStep(q, pcs, t, pc, q.head, q.tail, Some(c));
    assert Pointed(q, q.head, q.tail, Some(c)) == q';
  }

  /** Every step of every thread keeps the invariant, provided releases wait for `Grace`. */
  lemma StepKeeps(s: State, s': State, t: Tid, m: Mode)
    requires Inv(s) && m.Grace() && Next(s, s', t, m)
    ensures Inv(s')
  {
    hide Inv, StartStep, PushStep, PopStep, ReleaseStep, TailGrace, RefsGrace;
    var pc, pc' := s.pcs[t], s'.pcs[t];
    if StartStep(s.q, s'.q, pc, pc') { StartKeeps(s, s', t); }
    else if PushStep(s.q, s'.q, t, pc, pc') { PushKeeps(s, s', t); }
    else if PopStep(s.q, s'.q, t, pc, pc', m) { PopKeeps(s, s', t, m); }
    else { ReleaseKeeps(s, s', t); }
  }
}
