/**
 The multi-producer multi-consumer queue of util/mpmc_queue.h as an interleaved step system.

 Any number of threads run `push` and `pop`; each atomic access of the C++ code is one step, and
 memory is sequentially consistent. Every call of `allocate_chunk` makes a new chunk.

 A chunk that has been linked keeps its place in `chain` for ever. `chain`, `pos`, `freed`, `pushed`,
 `popped`, `delivered` and the `stage`, `pusher` and `taker` marks of a slot are history: no step
 reads them.
 */
module MpmcSteps {
  import opened Base

  /** The element type of the queue. */
  type Value(==, !new)

  type Tid = nat

  /** A chunk's address. */
  type Id = nat

  /** How far a slot has come: claimed by a push, published, moved out by a pop, destroyed. */
  datatype Stage = Vacant | Reserved | Full | Moved | Spent

  datatype Slot = Slot(
    occupied: bool, storage: Option<Value>, stage: Stage, pusher: Option<Tid>, taker: Option<Tid>)

  datatype Chunk = Chunk(
    next: Option<Id>, slots: seq<Slot>, pushIndex: nat, popIndex: nat, readers: int, retired: bool)

  /** What a thread does once `release_chunk` or `try_release_chunk` returns. */
  datatype Kont =
    | BackToPush(v: Value, tail: Id, expected: Id)
    | BackToPop
    | PopReturn

  /** The program counter of a thread: the next atomic access, with the locals still needed. */
  datatype Pc =
    | Idle
    | PushLoad(v: Value)                               // tail_chunk.load
    | PushClaim(v: Value, tail: Id)                    // push_index.fetch_add
    | PushCheck(v: Value, tail: Id, index: nat)        // occupied.load
    | PushWrite(v: Value, tail: Id, index: nat)        // placement new
    | PushPublish(v: Value, tail: Id, index: nat)      // occupied.store(true)
    | PushAlloc(v: Value, tail: Id)                    // allocate_chunk
    | PushLink(v: Value, tail: Id, made: Id)           // next.compare_exchange_strong
    | PushSwing(v: Value, made: Id)                    // tail_chunk.store
    | PushHelp(v: Value, tail: Id, expected: Id)       // tail_chunk.compare_exchange_strong
    | PopLoad                                          // head_chunk.load
    | PopIndex(head: Id)                               // pop_index.load
    | PopPeek(head: Id, index: nat)                    // push_index.load
    | PopNextFull(head: Id)                            // next.load, chunk consumed
    | PopNextEmpty(head: Id)                           // next.load, nothing pushed
    | PopAdvance(head: Id, next: Id)                   // head_chunk.compare_exchange_strong
    | PopRetire(head: Id)                              // retired.store(true)
    | PopClaim(head: Id, index: nat)                   // pop_index.compare_exchange_weak
    | PopRegister(head: Id, index: nat)                // active_readers.fetch_add
    | PopWait(head: Id, index: nat)                    // spin on occupied
    | PopTake(head: Id, index: nat)                    // move the value out
    | PopDestroy(head: Id, index: nat)                 // occupied.store(false)
    | PopUnregister(head: Id)                          // active_readers.fetch_sub
    | TryReaders(c: Id, k: Kont)                       // active_readers.load
    | TryRetired(c: Id, k: Kont)                       // retired.compare_exchange_strong
    | RelLoad(c: Id, k: Kont)                          // free_list.load
    | RelStore(c: Id, seen: Option<Id>, k: Kont)       // chunk->next.store
    | RelCas(c: Id, seen: Option<Id>, k: Kont)         // free_list.compare_exchange_weak

  datatype Claim = Claim(chunk: Id, index: nat, value: Value)
  datatype Taken = Taken(chunk: Id, index: nat)

  datatype Queue = Queue(
    chunks: map<Id, Chunk>, head: Id, tail: Id, free: Option<Id>,
    chain: seq<Id>, pos: map<Id, nat>, freed: nat,
    pushed: seq<Claim>, popped: seq<Taken>, delivered: seq<Claim>)

  datatype State = State(q: Queue, pcs: map<Tid, Pc>)

  function VacantSlot(): Slot {
    Slot(false, None, Vacant, None, None)
  }

  function NewChunk(): Chunk {
    Chunk(None, seq(CHUNK_SIZE, i => VacantSlot()), 0, 0, 0, false)
  }

  // ---------------------------------------------------------------- steps

  function InitialQueue(c: Id): Queue {
    Queue(map[c := NewChunk()], c, c, None, [c], map[c := 0], 0, [], [], [])
  }

  ghost predicate Init(s: State) {
    && s.q == InitialQueue(s.q.head)
    && forall t :: t in s.pcs ==> s.pcs[t] == Idle
  }

  function Resume(k: Kont): Pc {
    match k
    case BackToPush(v, tail, expected) => PushHelp(v, tail, expected)
    case BackToPop => PopLoad
    case PopReturn => Idle
  }

  function SetChunk(q: Queue, c: Id, chunk: Chunk): Queue {
    q.(chunks := q.chunks[c := chunk])
  }

  function SetSlot(q: Queue, c: Id, i: nat, x: Slot): Queue
    requires Addr(q, c, i)
  {
    SetChunk(q, c, q.chunks[c].(slots := q.chunks[c].slots[i := x]))
  }

  function SlotAt(q: Queue, c: Id, i: nat): Slot
    requires Addr(q, c, i)
  {
    q.chunks[c].slots[i]
  }

  /** A slot address that can be dereferenced. */
  predicate Addr(q: Queue, c: Id, i: nat) {
    c in q.chunks && i < |q.chunks[c].slots|
  }

  /** The chunk addresses a thread still holds and may follow or update a `next` or tail pointer through. */
  function Refs(pc: Pc): set<Id> {
    match pc
    case PushClaim(_, tail) => {tail}
    case PushAlloc(_, tail) => {tail}
    case PushLink(_, tail, _) => {tail}
    case PushSwing(_, made) => {made}
    case PushHelp(_, tail, expected) => {tail, expected}
    case PopIndex(head) => {head}
    case PopPeek(head, _) => {head}
    case PopNextFull(head) => {head}
    case PopNextEmpty(head) => {head}
    case PopAdvance(head, next) => {head, next}
    case PopClaim(head, _) => {head}
    case TryReaders(_, k) => KontRefs(k)
    case TryRetired(_, k) => KontRefs(k)
    case RelLoad(_, k) => KontRefs(k)
    case RelStore(_, _, k) => KontRefs(k)
    case RelCas(_, _, k) => KontRefs(k)
    case _ => {}
  }

  function KontRefs(k: Kont): set<Id> {
    if k.BackToPush? then {k.tail, k.expected} else {}
  }

  /** Everything in `refs` that was ever linked was linked after `c`. */
  ghost predicate After(q: Queue, c: Id, refs: set<Id>)
    requires c in q.pos
  {
    forall r :: r in refs && r in q.pos ==> q.pos[c] < q.pos[r]
  }

  /**
   Two conditions the C++ code does not enforce before `release_chunk` overwrites the `next` of chunk `c`:
   `tail_chunk` can no longer lead to it,
   */
  ghost predicate TailGrace(s: State, c: Id) {
    c in s.q.pos ==> After(s.q, c, {s.q.tail})
  }

  /** ... and neither can a local of another thread. */
  ghost predicate RefsGrace(s: State, t: Tid, c: Id) {
    c in s.q.pos ==> forall u :: u in s.pcs && u != t ==> After(s.q, c, Refs(s.pcs[u]))
  }

  ghost predicate Grace(s: State, t: Tid, c: Id) {
    TailGrace(s, c) && RefsGrace(s, t, c)
  }

  /** Mode of the system: whether lines 169 and 188 are one step, and what releases wait for. */
  datatype Mode = Mode(atomicPeek: bool, tailGrace: bool, refsGrace: bool) {
    predicate Grace() {
      tailGrace && refsGrace
    }
  }

  /** The successful `fetch_add` of a push: slot `i` of `c` now belongs to thread `t`. */
  function PushClaimed(q: Queue, t: Tid, v: Value, c: Id, i: nat): Queue
    requires Addr(q, c, i)
  {
    var ch := q.chunks[c];
    var x := ch.slots[i].(stage := Reserved, pusher := Some(t));
    SetChunk(q, c, ch.(pushIndex := i + 1, slots := ch.slots[i := x])).(pushed := q.pushed + [Claim(c, i, v)])
  }

  /** The successful exchange of a pop: the value of slot `i` of `c` now belongs to thread `t`. */
  function PopClaimed(q: Queue, t: Tid, c: Id, i: nat): Queue
    requires Addr(q, c, i)
  {
    var ch := q.chunks[c];
    var x := ch.slots[i].(taker := Some(t));
    SetChunk(q, c, ch.(popIndex := i + 1, slots := ch.slots[i := x])).(popped := q.popped + [Taken(c, i)])
  }

  /** The compare-exchange of line 143, when it succeeds. */
  function Linked(q: Queue, tail: Id, made: Id): Queue
    requires tail in q.chunks
  {
    SetChunk(q, tail, q.chunks[tail].(next := Some(made)))
      .(chain := q.chain + [made], pos := q.pos[made := |q.chain|])
  }

  /** The store of line 256 or 260. */
  function Detached(q: Queue, c: Id, seen: Option<Id>): Queue
    requires c in q.chunks
  {
    SetChunk(q, c, q.chunks[c].(next := seen))
      .(freed := if c in q.pos && q.freed <= q.pos[c] then q.pos[c] + 1 else q.freed)
  }

  /** Thread at `pc` may change the queue from `q` to `q'` and go to `pc'` inside `push`. */
  ghost predicate PushStep(q: Queue, q': Queue, t: Tid, pc: Pc, pc': Pc) {
    match pc
    case PushLoad(v) =>
      q' == q && pc' == PushClaim(v, q.tail)
    case PushClaim(v, tail) =>
      && tail in q.chunks
      && var ch := q.chunks[tail];
         var i := ch.pushIndex;
         if i < CHUNK_SIZE then
           && Addr(q, tail, i) && pc' == PushCheck(v, tail, i)
           && q' == PushClaimed(q, t, v, tail, i)
         else
           q' == SetChunk(q, tail, ch.(pushIndex := i + 1)) && pc' == PushAlloc(v, tail)
    case PushCheck(v, tail, i) =>
      && Addr(q, tail, i) && q' == q
      && pc' == (if SlotAt(q, tail, i).occupied then PushLoad(v) else PushWrite(v, tail, i))
    case PushWrite(v, tail, i) =>
      && Addr(q, tail, i)
      && q' == SetSlot(q, tail, i, SlotAt(q, tail, i).(storage := Some(v)))
      && pc' == PushPublish(v, tail, i)
    case PushPublish(v, tail, i) =>
      && Addr(q, tail, i)
      && q' == SetSlot(q, tail, i, SlotAt(q, tail, i).(occupied := true, stage := Full))
      && pc' == Idle
    case PushAlloc(v, tail) =>
      && pc'.PushLink? && pc' == PushLink(v, tail, pc'.made) && pc'.made !in q.chunks
      && q' == SetChunk(q, pc'.made, NewChunk())
    case PushLink(v, tail, made) =>
      && tail in q.chunks
      && var ch := q.chunks[tail];
         if ch.next == None then
           q' == Linked(q, tail, made) && pc' == PushSwing(v, made)
         else
           q' == q && pc' == RelLoad(made, BackToPush(v, tail, ch.next.value))
    case PushSwing(v, made) =>
      q' == q.(tail := made) && pc' == PushLoad(v)
    case PushHelp(v, tail, expected) =>
      q' == q.(tail := if q.tail == tail then expected else q.tail) && pc' == PushLoad(v)
    case _ => false
  }

  ghost predicate PopStep(q: Queue, q': Queue, t: Tid, pc: Pc, pc': Pc, m: Mode) {
    match pc
    case PopLoad =>
      q' == q && pc' == PopIndex(q.head)
    case PopIndex(head) =>
      head in q.chunks && q' == q && pc' == PopPeek(head, q.chunks[head].popIndex)
    case PopPeek(head, i) =>
      && head in q.chunks && q' == q
      && var ch := q.chunks[head];
         pc' == (if i >= CHUNK_SIZE then PopNextFull(head)
                 else if i < ch.pushIndex then PopClaim(head, i)
                 else if m.atomicPeek then AfterNext(head, ch.next)
                 else PopNextEmpty(head))
    case PopNextFull(head) =>
      head in q.chunks && q' == q && pc' == AfterNext(head, q.chunks[head].next)
    case PopNextEmpty(head) =>
      head in q.chunks && q' == q && pc' == AfterNext(head, q.chunks[head].next)
    case PopAdvance(head, next) =>
      if q.head == head then q' == q.(head := next) && pc' == PopRetire(head) else q' == q && pc' == PopLoad
    case PopRetire(head) =>
      && head in q.chunks && q' == SetChunk(q, head, q.chunks[head].(retired := true))
      && pc' == TryReaders(head, BackToPop)
    case PopClaim(head, i) =>
      // the exchange is weak: it may fail although the index has not moved
      || (q' == q && pc' == PopLoad)
      || (&& Addr(q, head, i) && q.chunks[head].popIndex == i
          && q' == PopClaimed(q, t, head, i) && pc' == PopRegister(head, i))
    case PopRegister(head, i) =>
      && head in q.chunks && q' == SetChunk(q, head, q.chunks[head].(readers := q.chunks[head].readers + 1))
      && pc' == PopWait(head, i)
    case PopWait(head, i) =>
      && Addr(q, head, i) && q' == q
      && pc' == (if SlotAt(q, head, i).occupied then PopTake(head, i) else PopWait(head, i))
    case PopTake(head, i) =>
      && Addr(q, head, i) && SlotAt(q, head, i).storage.Some?
      && q' == SetSlot(q, head, i, SlotAt(q, head, i).(stage := Moved))
               .(delivered := q.delivered + [Claim(head, i, SlotAt(q, head, i).storage.value)])
      && pc' == PopDestroy(head, i)
    case PopDestroy(head, i) =>
      && Addr(q, head, i)
      && q' == SetSlot(q, head, i, SlotAt(q, head, i).(occupied := false, stage := Spent))
      && pc' == PopUnregister(head)
    case PopUnregister(head) =>
      && head in q.chunks && q' == SetChunk(q, head, q.chunks[head].(readers := q.chunks[head].readers - 1))
      && pc' == TryReaders(head, PopReturn)
    case _ => false
  }

  /** Lines 179 and 189: without a next chunk `pop` returns false. */
  function AfterNext(head: Id, next: Option<Id>): Pc {
    if next == None then Idle else PopAdvance(head, next.value)
  }

  ghost predicate ReleaseStep(q: Queue, q': Queue, pc: Pc, pc': Pc) {
    match pc
    case TryReaders(c, k) =>
      c in q.chunks && q' == q && pc' == (if q.chunks[c].readers == 0 then TryRetired(c, k) else Resume(k))
    case TryRetired(c, k) =>
      && c in q.chunks
      && if q.chunks[c].retired then q' == SetChunk(q, c, q.chunks[c].(retired := false)) && pc' == RelLoad(c, k)
         else q' == q && pc' == Resume(k)
    case RelLoad(c, k) =>
      q' == q && pc' == RelStore(c, q.free, k)
    case RelStore(c, seen, k) =>
      && c in q.chunks
      && q' == Detached(q, c, seen) && pc' == RelCas(c, seen, k)
    case RelCas(c, seen, k) =>
      // weak: fails at will, and then the store of `next` is repeated with the value just read
      || (q' == q && pc' == RelStore(c, q.free, k))
      || (q.free == seen && q' == q.(free := Some(c)) && pc' == Resume(k))
    case _ => false
  }

  ghost predicate StartStep(q: Queue, q': Queue, pc: Pc, pc': Pc) {
    pc.Idle? && q' == q && (pc'.PushLoad? || pc'.PopLoad?)
  }

  ghost predicate Next(s: State, s': State, t: Tid, m: Mode) {
    && t in s.pcs && t in s'.pcs && s'.pcs == s.pcs[t := s'.pcs[t]]
    && (m.tailGrace && s.pcs[t].RelStore? ==> TailGrace(s, s.pcs[t].c))
    && (m.refsGrace && s.pcs[t].RelStore? ==> RefsGrace(s, t, s.pcs[t].c))
    && var pc, pc' := s.pcs[t], s'.pcs[t];
       || StartStep(s.q, s'.q, pc, pc')
       || PushStep(s.q, s'.q, t, pc, pc')
       || PopStep(s.q, s'.q, t, pc, pc', m)
       || ReleaseStep(s.q, s'.q, pc, pc')
  }

  ghost predicate SomeStep(s: State, s': State, m: Mode) {
    exists t :: Next(s, s', t, m)
  }

  /** A run: it starts in an initial state and each state follows from the one before by a step of some thread. */
  ghost predicate IsRun(run: seq<State>, m: Mode) {
    && |run| > 0 && Init(run[0])
    && forall i :: 0 <= i < |run| - 1 ==> SomeStep(run[i], run[i + 1], m)
  }
}
