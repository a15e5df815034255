/** What every step of the interleaved queue keeps, whatever the mode of `pop`. */
module MpmcInvariant {
  import opened Base
  import opened MpmcSteps

  function Capped(ch: Chunk): nat {
    if ch.pushIndex < CHUNK_SIZE then ch.pushIndex else CHUNK_SIZE
  }

  /** Thread is between claiming slot `i` of `c` and publishing it. */
  predicate Constructing(pc: Pc, c: Id, i: nat) {
    (pc.PushCheck? || pc.PushWrite? || pc.PushPublish?) && pc.tail == c && pc.index == i
  }

  /** A chunk only this thread knows: made by it, and not linked. */
  function Private(pc: Pc): Option<Id> {
    match pc
    case PushLink(_, _, made) => Some(made)
    case RelLoad(c, k) => if k.BackToPush? then Some(c) else None
    case RelStore(c, _, k) => if k.BackToPush? then Some(c) else None
    case RelCas(c, _, k) => if k.BackToPush? then Some(c) else None
    case _ => None
  }

  // ---------------------------------------------------------------- the invariant

  ghost predicate ChainOk(q: Queue) {
    && q.freed < |q.chain|
    && (forall p :: 0 <= p < |q.chain| ==> q.chain[p] in q.pos && q.pos[q.chain[p]] == p)
    && (forall c :: c in q.pos ==> q.pos[c] < |q.chain| && q.chain[q.pos[c]] == c)
    && q.pos.Keys <= q.chunks.Keys
    && Live(q, q.head) && Live(q, q.tail)
  }

  /** A linked chunk whose `next` has not been overwritten. */
  ghost predicate Live(q: Queue, c: Id) {
    c in q.pos && q.freed <= q.pos[c]
  }

  function Following(q: Queue, p: nat): Option<Id> {
    if p + 1 < |q.chain| then Some(q.chain[p + 1]) else None
  }

  ghost predicate ChunkOk(q: Queue, c: Id) {
    c in q.chunks && q.head in q.pos &&
    var ch := q.chunks[c];
    && |ch.slots| == CHUNK_SIZE
    && ch.popIndex <= Capped(ch)
    && (Live(q, c) ==> ch.next == Following(q, q.pos[c]))
    && (ch.retired ==> Passed(q, c))
    && (c in q.pos && q.pos[c] < |q.chain| - 1 ==> ch.pushIndex >= CHUNK_SIZE)
    && (c !in q.pos ==> ch.pushIndex == 0)
  }

  /** A chunk that `head_chunk` has moved past. */
  ghost predicate Passed(q: Queue, c: Id) {
    c in q.pos && q.head in q.pos && q.pos[c] < q.pos[q.head]
  }

  ghost predicate Behind(q: Queue, c: Id) {
    c in q.pos && q.head in q.pos && q.pos[c] <= q.pos[q.head]
  }

  /** Slot `i` of `c` was claimed by a push of `v`. */
  ghost predicate Claimed(q: Queue, c: Id, i: nat, v: Value) {
    && c in q.pos && CHUNK_SIZE * q.pos[c] + i < |q.pushed|
    && q.pushed[CHUNK_SIZE * q.pos[c] + i].value == v
  }

  ghost predicate SlotOk(q: Queue, c: Id, i: nat) {
    Addr(q, c, i) &&
    var ch := q.chunks[c];
    var x := ch.slots[i];
    && (x.stage == Vacant <==> i >= Capped(ch))
    && (x.taker == None <==> i >= ch.popIndex)
    && (x.occupied <==> x.stage == Full || x.stage == Moved)
    && (x.stage == Full ==> x.storage.Some? && Claimed(q, c, i, x.storage.value))
    && (x.stage == Moved || x.stage == Spent ==> x.taker.Some?)
  }

  ghost predicate SlotsOk(q: Queue) {
    forall c, i: nat :: c in q.chunks && i < CHUNK_SIZE ==> SlotOk(q, c, i)
  }

  /** The k-th successful push claim is slot k mod 64 of the chunk linked k div 64 places after the first. */
  ghost predicate PushedOk(q: Queue) {
    && |q.chain| > 0 && q.chain[|q.chain| - 1] in q.chunks
    && |q.pushed| == CHUNK_SIZE * (|q.chain| - 1) + Capped(q.chunks[q.chain[|q.chain| - 1]])
    && forall k :: 0 <= k < |q.pushed| ==> At(q, k, q.pushed[k].chunk, q.pushed[k].index)
  }

  /** Slot `i` of `c` is the k-th slot along the chain. */
  ghost predicate At(q: Queue, k: nat, c: Id, i: nat) {
    k / CHUNK_SIZE < |q.chain| && c == q.chain[k / CHUNK_SIZE] && i == k % CHUNK_SIZE
  }

  /** The popped slots are distinct, and each is below its chunk's pop index. */
  ghost predicate PoppedOk(q: Queue) {
    && (forall k :: 0 <= k < |q.popped| ==> TakenOk(q, q.popped[k]))
    && (forall j, k :: 0 <= j < k < |q.popped| ==> q.popped[j] != q.popped[k])
  }

  ghost predicate TakenOk(q: Queue, e: Taken) {
    e.chunk in q.pos && e.chunk in q.chunks && e.index < q.chunks[e.chunk].popIndex
  }

  /** Each delivered value is the one pushed to that slot, and no slot is delivered twice. */
  ghost predicate DeliveredOk(q: Queue) {
    && (forall k :: 0 <= k < |q.delivered| ==> DeliveryOk(q, q.delivered[k]))
    && (forall j, k :: 0 <= j < k < |q.delivered| ==> !SameSlot(q.delivered[j], q.delivered[k]))
  }

  predicate SameSlot(a: Claim, b: Claim) {
    a.chunk == b.chunk && a.index == b.index
  }

  ghost predicate DeliveryOk(q: Queue, d: Claim) {
    && Claimed(q, d.chunk, d.index, d.value)
    && Taken(d.chunk, d.index) in q.popped
    && Addr(q, d.chunk, d.index)
    && (SlotAt(q, d.chunk, d.index).stage == Moved || SlotAt(q, d.chunk, d.index).stage == Spent)
  }

  ghost predicate QueueOk(q: Queue) {
    && ChainOk(q) && (forall c :: c in q.chunks ==> ChunkOk(q, c))
    && SlotsOk(q) && PushedOk(q) && PoppedOk(q) && DeliveredOk(q)
  }

  // What holds of a thread's locals.

  ghost predicate ConstructOk(q: Queue, t: Tid, v: Value, c: Id, i: nat) {
    && Addr(q, c, i) && Claimed(q, c, i, v)
    && SlotAt(q, c, i).stage == Reserved && SlotAt(q, c, i).pusher == Some(t)
  }

  ghost predicate TakeOk(q: Queue, t: Tid, c: Id, i: nat) {
    && Addr(q, c, i) && c in q.pos && Taken(c, i) in q.popped && SlotAt(q, c, i).taker == Some(t)
  }

  ghost predicate ReleaseOk(q: Queue, c: Id, k: Kont) {
    if k.BackToPush? then c in q.chunks && c !in q.pos && Live(q, k.tail) && Live(q, k.expected) else Passed(q, c)
  }

  ghost predicate PushPcOk(q: Queue, t: Tid, pc: Pc) {
    match pc
    case PushClaim(_, tail) => Live(q, tail)
    case PushCheck(v, c, i) => ConstructOk(q, t, v, c, i)
    case PushWrite(v, c, i) => ConstructOk(q, t, v, c, i)
    case PushPublish(v, c, i) => ConstructOk(q, t, v, c, i) && SlotAt(q, c, i).storage == Some(v)
    case PushAlloc(_, tail) => Overfull(q, tail)
    case PushLink(_, tail, made) =>
      Overfull(q, tail) && made in q.chunks && made !in q.pos && q.chunks[made].next == None
    case PushSwing(_, made) => Live(q, made)
    case PushHelp(_, tail, expected) => Live(q, tail) && Live(q, expected)
    case _ => true
  }

  ghost predicate Overfull(q: Queue, c: Id) {
    Live(q, c) && c in q.chunks && q.chunks[c].pushIndex >= CHUNK_SIZE
  }

  ghost predicate PopPcOk(q: Queue, t: Tid, pc: Pc) {
    match pc
    case PopIndex(head) => Live(q, head) && Behind(q, head)
    case PopPeek(head, i) => Live(q, head) && Behind(q, head) && head in q.chunks && i <= q.chunks[head].popIndex
    case PopNextFull(head) =>
      Live(q, head) && Behind(q, head) && head in q.chunks && q.chunks[head].popIndex == CHUNK_SIZE
    case PopNextEmpty(head) => Live(q, head) && Behind(q, head)
    case PopAdvance(head, next) => Live(q, head) && Live(q, next) && q.pos[next] == q.pos[head] + 1
    case PopRetire(head) => Passed(q, head)
    case PopClaim(head, i) => Live(q, head) && Behind(q, head) && head in q.chunks && i < Capped(q.chunks[head])
    case PopRegister(c, i) => Untaken(q, t, c, i)
    case PopWait(c, i) => Untaken(q, t, c, i)
    case PopTake(c, i) => TakeOk(q, t, c, i) && SlotAt(q, c, i).stage == Full
    case PopDestroy(c, i) => TakeOk(q, t, c, i) && SlotAt(q, c, i).stage == Moved
    case PopUnregister(c) => c in q.pos
    case _ => true
  }

  ghost predicate Untaken(q: Queue, t: Tid, c: Id, i: nat) {
    TakeOk(q, t, c, i) && (SlotAt(q, c, i).stage == Reserved || SlotAt(q, c, i).stage == Full)
  }

  ghost predicate ReleasePcOk(q: Queue, pc: Pc) {
    match pc
    case TryReaders(c, k) => c in q.pos && !k.BackToPush?
    case TryRetired(c, k) => c in q.pos && !k.BackToPush?
    case RelLoad(c, k) => ReleaseOk(q, c, k)
    case RelStore(c, _, k) => ReleaseOk(q, c, k)
    case RelCas(c, _, k) => ReleaseOk(q, c, k)
    case _ => true
  }

  ghost predicate PcOk(q: Queue, t: Tid, pc: Pc) {
    PushPcOk(q, t, pc) && PopPcOk(q, t, pc) && ReleasePcOk(q, pc)
  }

  ghost predicate PrivateOk(pcs: map<Tid, Pc>) {
    forall t, u :: t in pcs && u in pcs && t != u && Private(pcs[t]).Some? ==> Private(pcs[t]) != Private(pcs[u])
  }

  /** A claimed and unpublished slot has a thread at work on it. */
  ghost predicate ReservedOk(q: Queue, pcs: map<Tid, Pc>) {
    forall c, i: nat :: Addr(q, c, i) && SlotAt(q, c, i).stage == Reserved ==> HasPusher(SlotAt(q, c, i), pcs, c, i)
  }

  ghost predicate HasPusher(x: Slot, pcs: map<Tid, Pc>, c: Id, i: nat) {
    x.pusher.Some? && x.pusher.value in pcs && Constructing(pcs[x.pusher.value], c, i)
  }

  ghost predicate ThreadsOk(q: Queue, pcs: map<Tid, Pc>) {
    && (forall t :: t in pcs ==> PcOk(q, t, pcs[t]))
    && PrivateOk(pcs) && ReservedOk(q, pcs)
  }

  ghost predicate Inv(s: State) {
    QueueOk(s.q) && ThreadsOk(s.q, s.pcs)
  }

  lemma InitInv(s: State)
    requires Init(s)
    ensures Inv(s)
  {
  }

  // ---------------------------------------------------------------- what the other threads keep

  predicate SlotKeeps(x: Slot, x': Slot, u: Tid) {
    && (x.stage == Reserved && x.pusher == Some(u) ==>
          x'.stage == Reserved && x'.pusher == x.pusher && x'.storage == x.storage)
    && (x.taker == Some(u) ==> x'.taker == x.taker && (x'.stage == x.stage || (x.stage == Reserved && x'.stage == Full)))
  }

  ghost predicate ChunkKeeps(ch: Chunk, ch': Chunk, u: Tid) {
    && |ch'.slots| == |ch.slots| && ch.pushIndex <= ch'.pushIndex && ch.popIndex <= ch'.popIndex <= CHUNK_SIZE
    && forall i :: 0 <= i < |ch.slots| ==> SlotKeeps(ch.slots[i], ch'.slots[i], u)
  }

  /** Thread `u`, standing at `pc`, sees nothing it relies on change from `q` to `q'`. */
  ghost predicate Keeps(q: Queue, q': Queue, u: Tid, pc: Pc) {
    && (forall c :: c in q.pos ==> c in q'.pos && q'.pos[c] == q.pos[c])
    && (forall c :: c in q.chunks ==> c in q'.chunks && ChunkKeeps(q.chunks[c], q'.chunks[c], u))
    && (forall r :: r in Refs(pc) && Live(q, r) ==> Live(q', r))
    && (forall c :: Passed(q, c) ==> Passed(q', c)) && (forall c :: Behind(q, c) ==> Behind(q', c))
    && q.pushed <= q'.pushed && (forall e :: e in q.popped ==> e in q'.popped)
    && (Private(pc).Some? && Private(pc).value in q.chunks ==>
          && (Private(pc).value in q'.pos ==> Private(pc).value in q.pos)
          && q'.chunks[Private(pc).value].next == q.chunks[Private(pc).value].next)
  }

  lemma PushPcKeeps(q: Queue, q': Queue, u: Tid, pc: Pc)
    requires PushPcOk(q, u, pc) && Keeps(q, q', u, pc)
    ensures PushPcOk(q', u, pc)
  {
  }

  lemma PopPcKeeps(q: Queue, q': Queue, u: Tid, pc: Pc)
    requires PopPcOk(q, u, pc) && Keeps(q, q', u, pc)
    ensures PopPcOk(q', u, pc)
  {
  }

  lemma ReleasePcKeeps(q: Queue, q': Queue, u: Tid, pc: Pc)
    requires ReleasePcOk(q, pc) && Keeps(q, q', u, pc)
    ensures ReleasePcOk(q', pc)
  {
  }

  /** A reserved slot of `q'` was reserved by the same thread before, or by `t`, which is at work on it. */
  ghost predicate ReservesBy(q: Queue, q': Queue, t: Tid, pc: Pc) {
    forall c, i: nat :: Addr(q', c, i) && SlotAt(q', c, i).stage == Reserved ==>
      var x := SlotAt(q', c, i);
      || (x.pusher == Some(t) && Constructing(pc, c, i))
      || (Addr(q, c, i) && SlotAt(q, c, i).stage == Reserved && SlotAt(q, c, i).pusher == x.pusher && x.pusher != Some(t))
  }

  lemma ThreadsStep(q: Queue, q': Queue, pcs: map<Tid, Pc>, t: Tid, pc: Pc)
    requires ThreadsOk(q, pcs) && t in pcs && PcOk(q', t, pc)
    requires forall u :: u in pcs && u != t ==> Keeps(q, q', u, pcs[u])
    requires forall u :: u in pcs && u != t && Private(pc).Some? ==> Private(pc) != Private(pcs[u])
    requires ReservesBy(q, q', t, pc)
    ensures ThreadsOk(q', pcs[t := pc])
  {
    var pcs' := pcs[t := pc];
    forall u | u in pcs'
      ensures PcOk(q', u, pcs'[u])
    {
      if u != t {
        PushPcKeeps(q, q', u, pcs[u]);
        PopPcKeeps(q, q', u, pcs[u]);
        ReleasePcKeeps(q, q', u, pcs[u]);
      }
    }
    forall c, i: nat | Addr(q', c, i) && SlotAt(q', c, i).stage == Reserved
      ensures HasPusher(SlotAt(q', c, i), pcs', c, i)
    {
      if Addr(q, c, i) && SlotAt(q, c, i).stage == Reserved {
        assert HasPusher(SlotAt(q, c, i), pcs, c, i);
      }
    }
  }
}
