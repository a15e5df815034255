/**
 What becomes of the chunks of the interleaved queue: in every run in which releases wait until nobody can come back
 to a chunk, a chunk that pops have moved past, or that was made in vain, is given back exactly once. When all threads
 are idle, the chunks are those from `head_chunk` on and, each once, those of the free list.
 */
module MpmcReclaim {
  import opened Base
  import opened MpmcSteps
  import opened MpmcInvariant
  import opened MpmcEdits
  import opened MpmcResults

  // ---------------------------------------------------------------- what a thread has in hand

  /** The chunk that this thread alone may link, retire or put on the free list. */
  function Owned(pc: Pc): Option<Id> {
    match pc
    case PushLink(_, _, made) => Some(made)
    case PopRetire(head) => Some(head)
    case RelLoad(c, _) => Some(c)
    case RelStore(c, _, _) => Some(c)
    case RelCas(c, _, _) => Some(c)
    case _ => None
  }

  /** The chunk whose `active_readers` counts this thread. */
  function Reads(pc: Pc): Option<Id> {
    match pc
    case PopWait(head, _) => Some(head)
    case PopTake(head, _) => Some(head)
    case PopDestroy(head, _) => Some(head)
    case PopUnregister(head) => Some(head)
    case _ => None
  }

  /** The chunk this thread is about to look at in `try_release_chunk`. */
  function Tries(pc: Pc): Option<Id> {
    match pc
    case TryReaders(c, _) => Some(c)
    case TryRetired(c, _) => Some(c)
    case _ => None
  }

  /** Linked, and not moved past by `head_chunk`. */
  ghost predicate InUse(q: Queue, c: Id) {
    c in q.pos && q.head in q.pos && q.pos[q.head] <= q.pos[c]
  }

  /** Out of use, and not waiting to be released. */
  ghost predicate Loose(q: Queue, c: Id) {
    c in q.chunks && !InUse(q, c) && !q.chunks[c].retired
  }

  // ---------------------------------------------------------------- the invariant

  /** The chunks of the free list, from `free_list` along `next`. */
  ghost predicate FreeList(q: Queue, from: Option<Id>, list: seq<Id>)
    decreases |list|
  {
    if list == [] then from == None
    else from == Some(list[0]) && list[0] in q.chunks && FreeList(q, q.chunks[list[0]].next, list[1..])
  }

  predicate Distinct(list: seq<Id>) {
    forall i, j :: 0 <= i < j < |list| ==> list[i] != list[j]
  }

  ghost predicate HasOwner(pcs: map<Tid, Pc>, c: Id) {
    exists t :: t in pcs && Owned(pcs[t]) == Some(c)
  }

  /** A loose chunk is on the free list, or in the hands of one thread. */
  ghost predicate OwnersOk(q: Queue, pcs: map<Tid, Pc>, list: seq<Id>) {
    && (forall t, u :: t in pcs && u in pcs && t != u && Owned(pcs[t]).Some? ==> Owned(pcs[t]) != Owned(pcs[u]))
    && (forall t :: t in pcs && Owned(pcs[t]).Some? ==> Loose(q, Owned(pcs[t]).value) && Owned(pcs[t]).value !in list)
    && (forall c :: c in list ==> Loose(q, c))
    && (forall c :: Loose(q, c) ==> c in list || HasOwner(pcs, c))
  }

  ghost predicate ListOk(q: Queue, list: seq<Id>) {
    FreeList(q, q.free, list) && Distinct(list) && forall c :: c in list ==> !Live(q, c)
  }

  /** A thread about to exchange the free list has stored in the chunk's `next` what it expects there. */
  ghost predicate LinkedTo(q: Queue, pc: Pc) {
    pc.RelCas? ==> pc.c in q.chunks && !Live(q, pc.c) && q.chunks[pc.c].next == pc.seen
  }

  ghost predicate StoresOk(q: Queue, pcs: map<Tid, Pc>) {
    forall t :: t in pcs ==> LinkedTo(q, pcs[t])
  }

  function Readers(pcs: map<Tid, Pc>, c: Id): set<Tid> {
    set t | t in pcs && Reads(pcs[t]) == Some(c)
  }

  ghost predicate ReadersOk(q: Queue, pcs: map<Tid, Pc>) {
    forall c :: c in q.chunks ==> q.chunks[c].readers == |Readers(pcs, c)|
  }

  ghost predicate HasTrier(pcs: map<Tid, Pc>, c: Id) {
    exists t :: t in pcs && Tries(pcs[t]) == Some(c)
  }

  /** A retired chunk has a reader, or a thread about to look whether it has one. */
  ghost predicate TriesOk(q: Queue, pcs: map<Tid, Pc>) {
    forall c :: c in q.chunks && q.chunks[c].retired ==> q.chunks[c].readers != 0 || HasTrier(pcs, c)
  }

  ghost predicate Reclaims(s: State, list: seq<Id>) {
    && OwnersOk(s.q, s.pcs, list) && ListOk(s.q, list) && StoresOk(s.q, s.pcs)
    && ReadersOk(s.q, s.pcs) && TriesOk(s.q, s.pcs)
  }

  // ---------------------------------------------------------------- owners

  /** What a step of one thread does to the loose chunks, its own chunk and the free list. */
  ghost predicate OwnStep(q: Queue, q': Queue, pc: Pc, pc': Pc) {
    if Gives(pc, pc') then
      Owned(pc') == None && q.free == pc.seen && q' == q.(free := Some(pc.c)) && SameLoose(q, q')
    else
      && q'.free == q.free
      && (|| (Owned(pc') == Owned(pc) && SameLoose(q, q'))
          || (Owned(pc) == None && Owned(pc').Some? && Adds(q, q', Owned(pc').value))
          || (Owned(pc') == None && Owned(pc).Some? && Removes(q, q', Owned(pc).value)))
  }

  ghost predicate SameLoose(q: Queue, q': Queue) {
    forall c :: Loose(q', c) <==> Loose(q, c)
  }

  ghost predicate Adds(q: Queue, q': Queue, d: Id) {
    !Loose(q, d) && forall c :: Loose(q', c) <==> Loose(q, c) || c == d
  }

  ghost predicate Removes(q: Queue, q': Queue, d: Id) {
    forall c :: Loose(q', c) <==> Loose(q, c) && c != d
  }

  /** The step that puts the chunk of the thread on the free list. */
  predicate Gives(pc: Pc, pc': Pc) {
    pc.RelCas? && !pc'.RelStore?
  }

  /** The free list after a step. */
  function ListAfter(pc: Pc, pc': Pc, list: seq<Id>): seq<Id> {
    if Gives(pc, pc') then [pc.c] + list else list
  }

  lemma OwnersKept(q: Queue, q': Queue, pcs: map<Tid, Pc>, t: Tid, pc': Pc, list: seq<Id>)
    requires OwnersOk(q, pcs, list) && t in pcs && OwnStep(q, q', pcs[t], pc')
    ensures OwnersOk(q', pcs[t := pc'], ListAfter(pcs[t], pc', list))
  {
    hide Loose, OwnStep, Gives, HasOwner;
    var pcs', list' := pcs[t := pc'], ListAfter(pcs[t], pc', list);
    LooseHasOwner(q, q', pcs, t, pc', list);
    StillOwned(q, q', pcs, t, pc', list);
  }

  lemma StillOwned(q: Queue, q': Queue, pcs: map<Tid, Pc>, t: Tid, pc': Pc, list: seq<Id>)
    requires OwnersOk(q, pcs, list) && t in pcs && OwnStep(q, q', pcs[t], pc')
    ensures forall c :: c in ListAfter(pcs[t], pc', list) ==> Loose(q', c)
    ensures var list', pcs' := ListAfter(pcs[t], pc', list), pcs[t := pc'];
      forall u :: u in pcs' && Owned(pcs'[u]).Some? ==>
        Loose(q', Owned(pcs'[u]).value) && Owned(pcs'[u]).value !in list' && (u != t ==> Owned(pc') != Owned(pcs'[u]))
  {
    hide Loose, HasOwner;
  }

  lemma LooseHasOwner(q: Queue, q': Queue, pcs: map<Tid, Pc>, t: Tid, pc': Pc, list: seq<Id>)
    requires OwnersOk(q, pcs, list) && t in pcs && OwnStep(q, q', pcs[t], pc')
    ensures forall c :: Loose(q', c) ==> c in ListAfter(pcs[t], pc', list) || HasOwner(pcs[t := pc'], c)
  {
    hide Loose;
    var pcs', list' := pcs[t := pc'], ListAfter(pcs[t], pc', list);
    forall c: Id | Loose(q', c) ensures c in list' || HasOwner(pcs', c) {
      if Owned(pc') == Some(c) {
        assert pcs'[t] == pc';
      } else if Owned(pcs[t]) != Some(c) && c !in list {
        var u :| u in pcs && Owned(pcs[u]) == Some(c);
        assert pcs'[u] == pcs[u];
      }
    }
  }

  // ---------------------------------------------------------------- the free list

  lemma {:induction false} FreeListKept(q: Queue, q': Queue, from: Option<Id>, list: seq<Id>)
    requires FreeList(q, from, list) && forall c :: c in list && c in q.chunks ==> c in q'.chunks && q'.chunks[c].next == q.chunks[c].next
    ensures FreeList(q', from, list)
    decreases |list|
  {
    if list != [] { FreeListKept(q, q', q.chunks[list[0]].next, list[1..]); }
  }

  lemma InChunks(q: Queue, from: Option<Id>, list: seq<Id>)
    requires FreeList(q, from, list)
    ensures forall c :: c in list ==> c in q.chunks
    decreases |list|
  {
    if list != [] {
      InChunks(q, q.chunks[list[0]].next, list[1..]);
      assert list == [list[0]] + list[1..];
    }
  }

  /** A step of a thread leaves the `next` of every chunk that is not live alone, except its own. */
  ghost predicate NextStep(q: Queue, q': Queue, pc: Pc) {
    forall c :: c in q.chunks && !Live(q, c) && Owned(pc) != Some(c) ==>
      c in q'.chunks && !Live(q', c) && q'.chunks[c].next == q.chunks[c].next
  }

  lemma ListKept(q: Queue, q': Queue, pcs: map<Tid, Pc>, t: Tid, pc': Pc, list: seq<Id>)
    requires OwnersOk(q, pcs, list) && ListOk(q, list) && t in pcs && NextStep(q, q', pcs[t])
    requires !Gives(pcs[t], pc') && q'.free == q.free
    ensures ListOk(q', list)
  {
    InChunks(q, q.free, list);
    FreeListKept(q, q', q.free, list);
  }

  lemma ListGrows(q: Queue, q': Queue, pcs: map<Tid, Pc>, t: Tid, pc': Pc, list: seq<Id>)
    requires OwnersOk(q, pcs, list) && ListOk(q, list) && StoresOk(q, pcs) && t in pcs && Gives(pcs[t], pc')
    requires q' == q.(free := Some(pcs[t].c)) && q.free == pcs[t].seen
    ensures ListOk(q', [pcs[t].c] + list)
  {
    assert LinkedTo(q, pcs[t]);
    FreeListKept(q, q', q.free, list);
    assert ([pcs[t].c] + list)[1..] == list;
  }

  lemma StoresKept(q: Queue, q': Queue, pcs: map<Tid, Pc>, t: Tid, pc': Pc, list: seq<Id>)
    requires OwnersOk(q, pcs, list) && StoresOk(q, pcs) && t in pcs && NextStep(q, q', pcs[t]) && LinkedTo(q', pc')
    ensures StoresOk(q', pcs[t := pc'])
  {
    var pcs' := pcs[t := pc'];
    forall u | u in pcs' ensures LinkedTo(q', pcs'[u]) {
      if u != t && pcs[u].RelCas? {
        assert LinkedTo(q, pcs[u]) && Owned(pcs[u]) == Some(pcs[u].c);
      }
    }
  }

  // ---------------------------------------------------------------- readers

  /** How far a step of the thread counts it in or out of the readers of `c`. */
  function Change(pc: Pc, pc': Pc, c: Id): int {
    (if Reads(pc') == Some(c) then 1 else 0) - (if Reads(pc) == Some(c) then 1 else 0)
  }

  lemma ReadersChange(pcs: map<Tid, Pc>, t: Tid, pc': Pc, c: Id)
    requires t in pcs
    ensures |Readers(pcs[t := pc'], c)| == |Readers(pcs, c)| + Change(pcs[t], pc', c)
  {
    var rest := Readers(pcs, c) - {t};
    assert Readers(pcs, c) == if Reads(pcs[t]) == Some(c) then rest + {t} else rest;
    assert Readers(pcs[t := pc'], c) == if Reads(pc') == Some(c) then rest + {t} else rest;
  }

  ghost predicate ReadersStep(q: Queue, q': Queue, pc: Pc, pc': Pc) {
    forall c :: c in q'.chunks ==> q'.chunks[c].readers == (if c in q.chunks then q.chunks[c].readers else 0) + Change(pc, pc', c)
  }

  lemma ReadersKept(q: Queue, q': Queue, pcs: map<Tid, Pc>, t: Tid, pc': Pc)
    requires ReadersOk(q, pcs) && t in pcs && ReadersStep(q, q', pcs[t], pc')
    requires forall u :: u in pcs && Reads(pcs[u]).Some? ==> Reads(pcs[u]).value in q.chunks
    ensures ReadersOk(q', pcs[t := pc'])
  {
    forall c | c in q'.chunks ensures q'.chunks[c].readers == |Readers(pcs[t := pc'], c)| {
      ReadersChange(pcs, t, pc', c);
      if c !in q.chunks { assert Readers(pcs, c) == {}; }
    }
  }

  /** A step leaves no retired chunk without a reader or a thread about to look. */
  ghost predicate TriesStep(q: Queue, q': Queue, pc: Pc, pc': Pc) {
    forall c :: c in q'.chunks && q'.chunks[c].retired ==>
      || Tries(pc') == Some(c) || q'.chunks[c].readers != 0
      || (c in q.chunks && q.chunks[c].retired && q.chunks[c].readers == 0 && Tries(pc) != Some(c))
  }

  lemma TriesKept(q: Queue, q': Queue, pcs: map<Tid, Pc>, t: Tid, pc': Pc)
    requires TriesOk(q, pcs) && t in pcs && TriesStep(q, q', pcs[t], pc')
    ensures TriesOk(q', pcs[t := pc'])
  {
    var pcs' := pcs[t := pc'];
    forall c | c in q'.chunks && q'.chunks[c].retired ensures q'.chunks[c].readers != 0 || HasTrier(pcs', c) {
      if Tries(pc') == Some(c) {
        assert pcs'[t] == pc';
      } else if q'.chunks[c].readers == 0 {
        var u :| u in pcs && Tries(pcs[u]) == Some(c);
        assert pcs'[u] == pcs[u];
      }
    }
  }

  // ---------------------------------------------------------------- the steps

  ghost predicate Effects(q: Queue, q': Queue, pc: Pc, pc': Pc) {
    && OwnStep(q, q', pc, pc') && NextStep(q, q', pc) && LinkedTo(q', pc')
    && ReadersStep(q, q', pc, pc') && TriesStep(q, q', pc, pc')
  }

  /** A step that changes nothing these properties depend on. */
  ghost predicate Plain(q: Queue, q': Queue) {
    && q'.chunks.Keys == q.chunks.Keys && q'.pos == q.pos && q'.head == q.head && q'.free == q.free && q'.freed == q.freed
    && forall c :: c in q.chunks ==> PlainChunk(q.chunks[c], q'.chunks[c])
  }

  predicate PlainChunk(ch: Chunk, ch': Chunk) {
    ch'.next == ch.next && ch'.readers == ch.readers && ch'.retired == ch.retired
  }

  lemma PlainEffects(q: Queue, q': Queue, pc: Pc, pc': Pc)
    requires Plain(q, q') && Owned(pc') == Owned(pc) && Reads(pc') == Reads(pc) && !pc'.RelCas?
    requires !pc.RelCas? || pc'.RelStore?
    requires Tries(pc).Some? ==>
      || Tries(pc') == Tries(pc)
      || (Tries(pc).value in q.chunks && (q.chunks[Tries(pc).value].readers != 0 || !q.chunks[Tries(pc).value].retired))
    ensures Effects(q, q', pc, pc')
  {
    PlainLoose(q, q');
    PlainNext(q, q', pc);
    PlainReaders(q, q', pc, pc');
    hide Plain, Loose, NextStep, ReadersStep, TriesStep;
  }

  lemma PlainLoose(q: Queue, q': Queue)
    requires Plain(q, q')
    ensures SameLoose(q, q')
  {
  }

  lemma PlainNext(q: Queue, q': Queue, pc: Pc)
    requires Plain(q, q')
    ensures NextStep(q, q', pc)
  {
    hide Owned;
  }

  lemma PlainReaders(q: Queue, q': Queue, pc: Pc, pc': Pc)
    requires Plain(q, q') && Reads(pc') == Reads(pc)
    requires Tries(pc).Some? ==>
      || Tries(pc') == Tries(pc)
      || (Tries(pc).value in q.chunks && (q.chunks[Tries(pc).value].readers != 0 || !q.chunks[Tries(pc).value].retired))
    ensures ReadersStep(q, q', pc, pc') && TriesStep(q, q', pc, pc')
  {
    hide Reads, Tries;
  }

  lemma PushEffects(q: Queue, q': Queue, t: Tid, pc: Pc, pc': Pc)
    requires QueueOk(q) && PcOk(q, t, pc) && PushStep(q, q', t, pc, pc')
    ensures Effects(q, q', pc, pc')
  {
    hide QueueOk, Effects, PcOk;
    if pc.PushAlloc? {
      AllocEffects(q, q', pc, pc');
    } else if pc.PushLink? && pc'.PushSwing? {
      LinkEffects(q, q', t, pc, pc');
    } else {
      PlainEffects(q, q', pc, pc');
    }
  }

  lemma AllocEffects(q: Queue, q': Queue, pc: Pc, pc': Pc)
    requires QueueOk(q) && pc.PushAlloc? && pc'.PushLink? && pc'.made !in q.chunks && q' == SetChunk(q, pc'.made, NewChunk())
    ensures Effects(q, q', pc, pc')
  {
    hide SlotsOk, PushedOk, PoppedOk, DeliveredOk, ChunkOk;
  }

  lemma LinkEffects(q: Queue, q': Queue, t: Tid, pc: Pc, pc': Pc)
    requires QueueOk(q) && PcOk(q, t, pc) && pc.PushLink? && pc'.PushSwing? && PushStep(q, q', t, pc, pc')
    ensures Effects(q, q', pc, pc')
  {
    hide SlotsOk, PushedOk, PoppedOk, DeliveredOk, ChunkOk;
  }

  lemma PopEffects(q: Queue, q': Queue, t: Tid, pc: Pc, pc': Pc, m: Mode)
    requires QueueOk(q) && PcOk(q, t, pc) && PopStep(q, q', t, pc, pc', m)
    requires forall c :: c in q.chunks ==> q.chunks[c].readers >= 0
    ensures Effects(q, q', pc, pc')
  {
    hide QueueOk, Effects, PcOk, Plain, Owned, Reads, Tries, SetSlot, PopClaimed;
    if pc.PopAdvance? && pc'.PopRetire? {
      AdvanceEffects(q, q', t, pc, pc');
    } else if pc.PopRetire? {
      RetireEffects(q, q', t, pc, pc', m);
    } else if pc.PopRegister? || pc.PopUnregister? {
      CountEffects(q, q', pc, pc', pc.head);
    } else if pc.PopClaim? || pc.PopTake? || pc.PopDestroy? {
      SlotIsPlain(q, q', t, pc, pc', m);
      PlainEffects(q, q', pc, pc');
    } else {
      LookIsPlain(q, q', t, pc, pc', m);
      PlainEffects(q, q', pc, pc');
    }
  }

  lemma SlotIsPlain(q: Queue, q': Queue, t: Tid, pc: Pc, pc': Pc, m: Mode)
    requires PopStep(q, q', t, pc, pc', m) && (pc.PopClaim? || pc.PopTake? || pc.PopDestroy?)
    ensures Plain(q, q') && Owned(pc') == Owned(pc) && Reads(pc') == Reads(pc) && Tries(pc) == None && !pc'.RelCas?
  {
  }

  lemma LookIsPlain(q: Queue, q': Queue, t: Tid, pc: Pc, pc': Pc, m: Mode)
    requires PopStep(q, q', t, pc, pc', m) && !(pc.PopAdvance? && pc'.PopRetire?)
    requires pc.PopLoad? || pc.PopIndex? || pc.PopPeek? || pc.PopNextFull? || pc.PopNextEmpty? || pc.PopAdvance? || pc.PopWait?
    ensures Plain(q, q') && Owned(pc') == Owned(pc) && Reads(pc') == Reads(pc) && Tries(pc) == None && !pc'.RelCas?
  {
  }

  lemma AdvanceEffects(q: Queue, q': Queue, t: Tid, pc: Pc, pc': Pc)
    requires QueueOk(q) && PcOk(q, t, pc) && pc.PopAdvance? && q.head == pc.head && q' == q.(head := pc.next)
    requires pc' == PopRetire(pc.head)
    ensures Effects(q, q', pc, pc')
  {
    hide SlotsOk, PushedOk, PoppedOk, DeliveredOk, ChunkOk;
    GetChunk(q, q.head);
    NotRetired(q, q.head);
  }

  lemma NotRetired(q: Queue, c: Id)
    requires ChunkOk(q, c) && !Passed(q, c)
    ensures !q.chunks[c].retired
  {
  }

  lemma RetireEffects(q: Queue, q': Queue, t: Tid, pc: Pc, pc': Pc, m: Mode)
    requires PopStep(q, q', t, pc, pc', m) && pc.PopRetire?
    ensures Effects(q, q', pc, pc')
  {
  }

  lemma CountEffects(q: Queue, q': Queue, pc: Pc, pc': Pc, c: Id)
    requires c in q.chunks && q' == SetChunk(q, c, q.chunks[c].(readers := q.chunks[c].readers + (if pc.PopRegister? then 1 else -1)))
    requires (pc.PopRegister? && pc.head == c && pc' == PopWait(c, pc.index)) || (pc == PopUnregister(c) && pc' == TryReaders(c, PopReturn))
    requires q.chunks[c].readers >= 0
    ensures Effects(q, q', pc, pc')
  {
    assert SameLoose(q, q');
    assert NextStep(q, q', pc);
    hide NextStep, SameLoose;
  }

  lemma ReleaseEffects(q: Queue, q': Queue, t: Tid, pc: Pc, pc': Pc)
    requires QueueOk(q) && PcOk(q, t, pc) && ReleaseStep(q, q', pc, pc')
    ensures Effects(q, q', pc, pc')
  {
    hide QueueOk, PcOk, Effects, Detached;
    if pc.TryRetired? && pc'.RelLoad? {
      GetChunk(q, pc.c);
      UnretireEffects(q, q', pc, pc');
    } else if pc.RelStore? {
      StoreEffects(q, q', pc, pc');
    } else if pc.RelCas? && !pc'.RelStore? {
      GiveEffects(q, q', pc, pc');
    } else {
      PlainEffects(q, q', pc, pc');
    }
  }

  lemma UnretireEffects(q: Queue, q': Queue, pc: Pc, pc': Pc)
    requires pc.TryRetired? && ReleaseStep(q, q', pc, pc') && pc'.RelLoad? && ChunkOk(q, pc.c)
    ensures Effects(q, q', pc, pc')
  {
  }

  lemma StoreEffects(q: Queue, q': Queue, pc: Pc, pc': Pc)
    requires pc.RelStore? && ReleaseStep(q, q', pc, pc')
    ensures Effects(q, q', pc, pc')
  {
  }

  lemma GiveEffects(q: Queue, q': Queue, pc: Pc, pc': Pc)
    requires pc.RelCas? && ReleaseStep(q, q', pc, pc') && !pc'.RelStore?
    ensures Effects(q, q', pc, pc')
  {
  }

  lemma StepEffects(s: State, s': State, t: Tid, m: Mode)
    requires Inv(s) && Next(s, s', t, m) && ReadersOk(s.q, s.pcs)
    ensures Effects(s.q, s'.q, s.pcs[t], s'.pcs[t])
  {
    hide QueueOk, ThreadsOk, PushStep, PopStep, ReleaseStep, Effects, TailGrace, RefsGrace;
    var pc, pc' := s.pcs[t], s'.pcs[t];
    GetPc(s.q, s.pcs, t);
    if PushStep(s.q, s'.q, t, pc, pc') {
      PushEffects(s.q, s'.q, t, pc, pc');
    } else if PopStep(s.q, s'.q, t, pc, pc', m) {
      PopEffects(s.q, s'.q, t, pc, pc', m);
    } else if ReleaseStep(s.q, s'.q, pc, pc') {
      ReleaseEffects(s.q, s'.q, t, pc, pc');
    } else {
      PlainEffects(s.q, s'.q, pc, pc');
    }
  }

  lemma ReadKnown(q: Queue, pcs: map<Tid, Pc>, u: Tid)
    requires QueueOk(q) && ThreadsOk(q, pcs) && u in pcs && Reads(pcs[u]).Some?
    ensures Reads(pcs[u]).value in q.chunks
  {
    hide ThreadsOk;
    GetPc(q, pcs, u);
  }

  /** Every step keeps all of it. */
  lemma StepReclaims(s: State, s': State, t: Tid, m: Mode, list: seq<Id>)
    requires Inv(s) && Next(s, s', t, m) && Reclaims(s, list)
    ensures Reclaims(s', ListAfter(s.pcs[t], s'.pcs[t], list))
  {
    StepEffects(s, s', t, m);
    hide OwnersOk, StoresOk, ReadersOk, TriesOk, NextStep, ReadersStep, TriesStep, LinkedTo, QueueOk, ThreadsOk;
    hide StartStep, PushStep, PopStep, ReleaseStep, TailGrace, RefsGrace, SameLoose, Adds, Removes, Loose;
    var pc, pc' := s.pcs[t], s'.pcs[t];
    OwnersKept(s.q, s'.q, s.pcs, t, pc', list);
    if Gives(pc, pc') { ListGrows(s.q, s'.q, s.pcs, t, pc', list); } else { ListKept(s.q, s'.q, s.pcs, t, pc', list); }
    StoresKept(s.q, s'.q, s.pcs, t, pc', list);
    forall u | u in s.pcs && Reads(s.pcs[u]).Some? ensures Reads(s.pcs[u]).value in s.q.chunks { ReadKnown(s.q, s.pcs, u); }
    ReadersKept(s.q, s'.q, s.pcs, t, pc');
    TriesKept(s.q, s'.q, s.pcs, t, pc');
  }

  // ---------------------------------------------------------------- runs

  lemma InitReclaims(s: State)
    requires Init(s)
    ensures Reclaims(s, [])
  {
    assert forall c :: Readers(s.pcs, c) == {};
  }

  lemma {:induction false} RunReclaims(run: seq<State>, m: Mode, n: nat) returns (list: seq<Id>)
    requires IsRun(run, m) && m.Grace() && n < |run|
    ensures Reclaims(run[n], list)
  {
    hide Next, Reclaims, Inv, Settled;
    if n == 0 {
      InitReclaims(run[0]);
      list := [];
    } else {
      list := RunReclaims(run, m, n - 1);
      RunInv(run, m, n - 1);
      assert SomeStep(run[n - 1], run[n], m);
      var t :| Next(run[n - 1], run[n], t, m);
      Threads(run[n - 1], run[n], t, m);
      StepReclaims(run[n - 1], run[n], t, m, list);
      list := ListAfter(run[n - 1].pcs[t], run[n].pcs[t], list);
    }
  }

  lemma Threads(s: State, s': State, t: Tid, m: Mode)
    requires Next(s, s', t, m)
    ensures t in s.pcs && t in s'.pcs
  {
  }

  /**
   Main result: in every state of a run with grace no chunk is on the free list twice, and none that is on it is in
   use, waits for its readers or is in the hands of a thread; and when all threads are idle, every chunk that is not
   in use is on it.
   */
  lemma ChunksAccountedFor(run: seq<State>, m: Mode, n: nat) returns (list: seq<Id>)
    requires IsRun(run, m) && m.Grace() && n < |run|
    ensures FreeList(run[n].q, run[n].q.free, list) && Distinct(list)
    ensures forall c :: c in list ==> Loose(run[n].q, c) && forall t :: t in run[n].pcs ==> Owned(run[n].pcs[t]) != Some(c)
    ensures (forall t :: t in run[n].pcs ==> run[n].pcs[t].Idle?) ==>
      forall c :: c in run[n].q.chunks ==> (c in list <==> !InUse(run[n].q, c)) && run[n].q.chunks[c].readers == 0
  {
    hide Next;
    list := RunReclaims(run, m, n);
    var s := run[n];
    if forall t :: t in s.pcs ==> s.pcs[t].Idle? {
      forall c | c in s.q.chunks ensures (c in list <==> !InUse(s.q, c)) && s.q.chunks[c].readers == 0 {
        AtRestReclaimed(s, list, c);
      }
    }
  }

  lemma AtRestReclaimed(s: State, list: seq<Id>, c: Id)
    requires Reclaims(s, list) && c in s.q.chunks && forall t :: t in s.pcs ==> s.pcs[t].Idle?
    ensures (c in list <==> !InUse(s.q, c)) && s.q.chunks[c].readers == 0
  {
    assert Readers(s.pcs, c) == {};
  }
}
