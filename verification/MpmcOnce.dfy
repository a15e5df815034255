/**
 At-most-once delivery of the interleaved queue, with nothing assumed about when a pop reads or when a
 released chunk's `next` is overwritten: a slot is claimed by one push and by one pop, wherever its chunk is.
 The invariant says nothing of the chain, which such runs can damage.
 */
module MpmcOnce {
  import opened Base
  import opened MpmcSteps
  import opened MpmcInvariant

  // ---------------------------------------------------------------- the invariant

  ghost predicate SlotSound(q: Queue, c: Id, i: nat) {
    Addr(q, c, i) &&
    var ch := q.chunks[c];
    var x := ch.slots[i];
    && (x.stage == Vacant <==> i >= Capped(ch))
    && (x.taker == None <==> i >= ch.popIndex)
    && (x.occupied <==> x.stage == Full || x.stage == Moved)
    && (x.stage == Full ==> x.storage.Some? && Claim(c, i, x.storage.value) in q.pushed)
    && (x.stage == Moved || x.stage == Spent ==> x.taker.Some?)
  }

  ghost predicate ChunkSound(q: Queue, c: Id) {
    c in q.chunks && |q.chunks[c].slots| == CHUNK_SIZE && q.chunks[c].popIndex <= Capped(q.chunks[c])
  }

  ghost predicate SlotsSound(q: Queue) {
    && (forall c :: c in q.chunks ==> ChunkSound(q, c))
    && (forall c, i: nat :: c in q.chunks && i < CHUNK_SIZE ==> SlotSound(q, c, i))
  }

  /** Each push claim is below its chunk's push index, and no two are of one slot. */
  ghost predicate PushesSound(q: Queue) {
    && (forall k :: 0 <= k < |q.pushed| ==> Below(q, q.pushed[k]))
    && (forall j, k :: 0 <= j < k < |q.pushed| ==> !SameSlot(q.pushed[j], q.pushed[k]))
  }

  ghost predicate Below(q: Queue, e: Claim) {
    e.chunk in q.chunks && e.index < Capped(q.chunks[e.chunk])
  }

  /** Each delivery is of a pushed value, out of a slot that is used up, and no two are of one slot. */
  ghost predicate DeliveriesSound(q: Queue) {
    && (forall k :: 0 <= k < |q.delivered| ==> Given(q, q.delivered[k]))
    && (forall j, k :: 0 <= j < k < |q.delivered| ==> !SameSlot(q.delivered[j], q.delivered[k]))
  }

  ghost predicate Given(q: Queue, d: Claim) {
    && d in q.pushed && Addr(q, d.chunk, d.index)
    && (SlotAt(q, d.chunk, d.index).stage == Moved || SlotAt(q, d.chunk, d.index).stage == Spent)
  }

  ghost predicate QueueSound(q: Queue) {
    SlotsSound(q) && PushesSound(q) && DeliveriesSound(q)
  }

  /** Slot `i` of `c` is being filled by `t` with `v`. */
  ghost predicate Filling(q: Queue, t: Tid, v: Value, c: Id, i: nat) {
    && Addr(q, c, i) && Claim(c, i, v) in q.pushed
    && SlotAt(q, c, i).stage == Reserved && SlotAt(q, c, i).pusher == Some(t)
  }

  /** Slot `i` of `c` was claimed by the pop of `t`. */
  ghost predicate Mine(q: Queue, t: Tid, c: Id, i: nat, stages: set<Stage>) {
    Addr(q, c, i) && SlotAt(q, c, i).taker == Some(t) && SlotAt(q, c, i).stage in stages
  }

  ghost predicate PcSound(q: Queue, t: Tid, pc: Pc) {
    match pc
    case PushCheck(v, c, i) => Filling(q, t, v, c, i)
    case PushWrite(v, c, i) => Filling(q, t, v, c, i)
    case PushPublish(v, c, i) => Filling(q, t, v, c, i) && SlotAt(q, c, i).storage == Some(v)
    case PopClaim(c, i) => c in q.chunks && i < Capped(q.chunks[c])
    case PopRegister(c, i) => Mine(q, t, c, i, {Reserved, Full})
    case PopWait(c, i) => Mine(q, t, c, i, {Reserved, Full})
    case PopTake(c, i) => Mine(q, t, c, i, {Full})
    case PopDestroy(c, i) => Mine(q, t, c, i, {Moved})
    case _ => true
  }

  ghost predicate ThreadsSound(q: Queue, pcs: map<Tid, Pc>) {
    (forall t :: t in pcs ==> PcSound(q, t, pcs[t])) && ReservedOk(q, pcs)
  }

  ghost predicate Sound(s: State) {
    QueueSound(s.q) && ThreadsSound(s.q, s.pcs)
  }

  lemma GetSound(q: Queue, c: Id, i: nat)
    requires SlotsSound(q) && c in q.chunks && i < CHUNK_SIZE
    ensures ChunkSound(q, c) && SlotSound(q, c, i)
  {
  }

  // ---------------------------------------------------------------- what the other threads keep

  ghost predicate KeepsFor(q: Queue, q': Queue, u: Tid) {
    && (forall c :: c in q.chunks ==> c in q'.chunks && ChunkKeeps(q.chunks[c], q'.chunks[c], u))
    && q.pushed <= q'.pushed
  }

  lemma PcKept(q: Queue, q': Queue, u: Tid, pc: Pc)
    requires PcSound(q, u, pc) && KeepsFor(q, q', u)
    ensures PcSound(q', u, pc)
  {
  }

  lemma ThreadsKept(q: Queue, q': Queue, pcs: map<Tid, Pc>, t: Tid, pc: Pc)
    requires ThreadsSound(q, pcs) && t in pcs && PcSound(q', t, pc)
    requires forall u :: u in pcs && u != t ==> KeepsFor(q, q', u)
    requires ReservesBy(q, q', t, pc)
    ensures ThreadsSound(q', pcs[t := pc])
  {
    hide PcSound, KeepsFor;
    var pcs' := pcs[t := pc];
    forall u | u in pcs' ensures PcSound(q', u, pcs'[u]) {
      if u != t { PcKept(q, q', u, pcs[u]); }
    }
    forall c, i: nat | Addr(q', c, i) && SlotAt(q', c, i).stage == Reserved
      ensures HasPusher(SlotAt(q', c, i), pcs', c, i)
    {
      if Addr(q, c, i) && SlotAt(q, c, i).stage == Reserved {
        assert HasPusher(SlotAt(q, c, i), pcs, c, i);
      }
    }
  }

  // ---------------------------------------------------------------- steps that touch no slot

  /** A chunk after a step that changes no slot and claims none. */
  ghost predicate CalmChunk(ch: Chunk, ch': Chunk) {
    ch'.slots == ch.slots && ch'.popIndex == ch.popIndex && ch'.pushIndex >= ch.pushIndex && Capped(ch') == Capped(ch)
  }

  ghost predicate Calm(q: Queue, q': Queue) {
    && (forall c :: c in q.chunks ==> c in q'.chunks && CalmChunk(q.chunks[c], q'.chunks[c]))
    && (forall c :: c in q'.chunks && c !in q.chunks ==> q'.chunks[c] == NewChunk())
    && q'.pushed == q.pushed && q'.delivered == q.delivered
  }

  lemma CalmKeeps(q: Queue, q': Queue)
    requires QueueSound(q) && Calm(q, q')
    ensures QueueSound(q')
  {
    forall c, i: nat | c in q'.chunks && i < CHUNK_SIZE ensures SlotSound(q', c, i) {
      if c in q.chunks { assert SlotSound(q, c, i); }
    }
    forall c | c in q'.chunks ensures ChunkSound(q', c) {
      if c in q.chunks { assert ChunkSound(q, c); }
    }
    forall k | 0 <= k < |q'.pushed| ensures Below(q', q'.pushed[k]) { assert Below(q, q.pushed[k]); }
    forall k | 0 <= k < |q'.delivered| ensures Given(q', q'.delivered[k]) { assert Given(q, q.delivered[k]); }
  }

  lemma CalmKeepsFor(q: Queue, q': Queue, u: Tid)
    requires SlotsSound(q) && Calm(q, q')
    ensures KeepsFor(q, q', u)
  {
    forall c | c in q.chunks ensures c in q'.chunks && ChunkKeeps(q.chunks[c], q'.chunks[c], u) {
      assert ChunkSound(q, c);
    }
  }

  predicate Fills(pc: Pc) {
    pc.PushCheck? || pc.PushWrite? || pc.PushPublish?
  }

  lemma CalmStep(q: Queue, q': Queue, pcs: map<Tid, Pc>, t: Tid, pc: Pc)
    requires QueueSound(q) && ThreadsSound(q, pcs) && t in pcs && Calm(q, q') && PcSound(q', t, pc)
    requires !Fills(pcs[t]) || (pcs[t].PushCheck? && pc == PushWrite(pcs[t].v, pcs[t].tail, pcs[t].index))
    ensures QueueSound(q') && ThreadsSound(q', pcs[t := pc])
  {
    CalmKeeps(q, q');
    forall u | u in pcs && u != t ensures KeepsFor(q, q', u) { CalmKeepsFor(q, q', u); }
    CalmReserves(q, q', pcs, t, pc);
    hide QueueSound, ThreadsSound, PcSound, Calm, KeepsFor, ReservesBy;
    ThreadsKept(q, q', pcs, t, pc);
  }

  lemma CalmReserves(q: Queue, q': Queue, pcs: map<Tid, Pc>, t: Tid, pc: Pc)
    requires ReservedOk(q, pcs) && t in pcs && Calm(q, q')
    requires !Fills(pcs[t]) || (pcs[t].PushCheck? && pc == PushWrite(pcs[t].v, pcs[t].tail, pcs[t].index))
    ensures ReservesBy(q, q', t, pc)
  {
    forall c, i: nat | Addr(q', c, i) && SlotAt(q', c, i).stage == Reserved
      ensures var x := SlotAt(q', c, i);
        || (x.pusher == Some(t) && Constructing(pc, c, i))
        || (Addr(q, c, i) && SlotAt(q, c, i).stage == Reserved && SlotAt(q, c, i).pusher == x.pusher && x.pusher != Some(t))
    {
      if c in q.chunks {
        assert HasPusher(SlotAt(q, c, i), pcs, c, i);
      }
    }
  }

  // ---------------------------------------------------------------- steps on one slot

  /** Slot `i` of `c` becomes `x`, with the indices and perhaps more history. */
  ghost predicate Touch(q: Queue, q': Queue, c: Id, i: nat, x: Slot) {
    && Addr(q, c, i) && Addr(q', c, i)
    && q'.chunks == q.chunks[c := q'.chunks[c]] && q'.chunks[c].slots == q.chunks[c].slots[i := x]
    && q.chunks[c].pushIndex <= q'.chunks[c].pushIndex && q.chunks[c].popIndex <= q'.chunks[c].popIndex
    && q.pushed <= q'.pushed
  }

  /** The slot was reserved or taken by nobody but `t`. */
  ghost predicate Own(q: Queue, c: Id, i: nat, x: Slot, t: Tid) {
    Addr(q, c, i) && forall u :: u != t ==> SlotKeeps(SlotAt(q, c, i), x, u)
  }

  lemma TouchKeepsFor(q: Queue, q': Queue, c: Id, i: nat, x: Slot, t: Tid, u: Tid)
    requires SlotsSound(q) && Touch(q, q', c, i, x) && Own(q, c, i, x, t) && u != t && q'.chunks[c].popIndex <= CHUNK_SIZE
    ensures KeepsFor(q, q', u)
  {
    forall d | d in q.chunks ensures d in q'.chunks && ChunkKeeps(q.chunks[d], q'.chunks[d], u) {
      assert ChunkSound(q, d);
      assert SlotKeeps(SlotAt(q, c, i), x, u);
    }
  }

  lemma TouchThreads(q: Queue, q': Queue, pcs: map<Tid, Pc>, t: Tid, pc: Pc, c: Id, i: nat, x: Slot)
    requires SlotsSound(q) && ThreadsSound(q, pcs) && t in pcs && Touch(q, q', c, i, x) && Own(q, c, i, x, t)
    requires q'.chunks[c].popIndex <= CHUNK_SIZE && PcSound(q', t, pc)
    requires Fills(pcs[t]) ==> Constructing(pcs[t], c, i)
    requires x.stage == Reserved ==>
      || (x.pusher == Some(t) && Constructing(pc, c, i))
      || (!Fills(pcs[t]) && SlotAt(q, c, i).stage == Reserved && SlotAt(q, c, i).pusher == x.pusher)
    ensures ThreadsSound(q', pcs[t := pc])
  {
    forall u | u in pcs && u != t ensures KeepsFor(q, q', u) { TouchKeepsFor(q, q', c, i, x, t, u); }
    TouchReserves(q, q', pcs, t, pc, c, i, x);
    hide SlotsSound, ThreadsSound, PcSound, KeepsFor, Touch, Own, ReservesBy;
    ThreadsKept(q, q', pcs, t, pc);
  }

  lemma TouchReserves(q: Queue, q': Queue, pcs: map<Tid, Pc>, t: Tid, pc: Pc, c: Id, i: nat, x: Slot)
    requires ReservedOk(q, pcs) && t in pcs && Touch(q, q', c, i, x)
    requires Fills(pcs[t]) ==> Constructing(pcs[t], c, i)
    requires x.stage == Reserved ==>
      || (x.pusher == Some(t) && Constructing(pc, c, i))
      || (!Fills(pcs[t]) && SlotAt(q, c, i).stage == Reserved && SlotAt(q, c, i).pusher == x.pusher)
    ensures ReservesBy(q, q', t, pc)
  {
    forall d, j: nat | Addr(q', d, j) && SlotAt(q', d, j).stage == Reserved
      ensures var y := SlotAt(q', d, j);
        || (y.pusher == Some(t) && Constructing(pc, d, j))
        || (Addr(q, d, j) && SlotAt(q, d, j).stage == Reserved && SlotAt(q, d, j).pusher == y.pusher && y.pusher != Some(t))
    {
      if SlotAt(q, d, j).stage == Reserved { assert HasPusher(SlotAt(q, d, j), pcs, d, j); }
    }
  }

  /** An index stays, or moves past slot `i`. */
  predicate MovesAt(k: nat, k': nat, i: nat) {
    k' == k || (k == i && k' == i + 1)
  }

  /** The other slots stay sound when one slot is changed and its chunk stays sound. */
  lemma TouchSlots(q: Queue, q': Queue, c: Id, i: nat, x: Slot)
    requires SlotsSound(q) && Touch(q, q', c, i, x) && ChunkSound(q', c) && SlotSound(q', c, i)
    requires MovesAt(Capped(q.chunks[c]), Capped(q'.chunks[c]), i) && MovesAt(q.chunks[c].popIndex, q'.chunks[c].popIndex, i)
    ensures SlotsSound(q')
  {
    forall d, j: nat | d in q'.chunks && j < CHUNK_SIZE ensures SlotSound(q', d, j) {
      if d != c || j != i {
        GetSound(q, d, j);
        assert forall e :: e in q.pushed ==> e in q'.pushed;
      }
    }
    forall d | d in q'.chunks ensures ChunkSound(q', d) {
      if d != c { GetSound(q, d, 0); }
    }
  }

  lemma TouchPushes(q: Queue, q': Queue, c: Id, i: nat, x: Slot)
    requires PushesSound(q) && Touch(q, q', c, i, x) && q'.pushed == q.pushed
    ensures PushesSound(q')
  {
    forall k | 0 <= k < |q'.pushed| ensures Below(q', q'.pushed[k]) { assert Below(q, q.pushed[k]); }
  }

  lemma TouchDeliveries(q: Queue, q': Queue, c: Id, i: nat, x: Slot)
    requires DeliveriesSound(q) && Touch(q, q', c, i, x) && q'.delivered == q.delivered
    requires SlotAt(q, c, i).stage == Moved || SlotAt(q, c, i).stage == Spent ==> x.stage == Moved || x.stage == Spent
    ensures DeliveriesSound(q')
  {
    forall k | 0 <= k < |q'.delivered| ensures Given(q', q'.delivered[k]) { assert Given(q, q.delivered[k]); }
  }

  // ---------------------------------------------------------------- the steps, one by one

  lemma PushClaimSound(s: State, t: Tid, v: Value, c: Id)
    requires Sound(s) && t in s.pcs && s.pcs[t] == PushClaim(v, c) && c in s.q.chunks
    requires s.q.chunks[c].pushIndex < CHUNK_SIZE && Addr(s.q, c, s.q.chunks[c].pushIndex)
    ensures Sound(State(PushClaimed(s.q, t, v, c, s.q.chunks[c].pushIndex),
                        s.pcs[t := PushCheck(v, c, s.q.chunks[c].pushIndex)]))
  {
    var q, i := s.q, s.q.chunks[c].pushIndex;
    var q', x := PushClaimed(q, t, v, c, i), SlotAt(q, c, i).(stage := Reserved, pusher := Some(t));
    GetSound(q, c, i);
    assert q'.pushed[|q.pushed|] == Claim(c, i, v);
    hide SlotsSound, PushesSound, DeliveriesSound, ThreadsSound;
    TouchSlots(q, q', c, i, x);
    TouchDeliveries(q, q', c, i, x);
    NewPush(q, q', c, i, x, v);
    TouchThreads(q, q', s.pcs, t, PushCheck(v, c, i), c, i, x);
  }

  lemma NewPush(q: Queue, q': Queue, c: Id, i: nat, x: Slot, v: Value)
    requires PushesSound(q) && Touch(q, q', c, i, x) && q'.pushed == q.pushed + [Claim(c, i, v)]
    requires Capped(q.chunks[c]) <= i < Capped(q'.chunks[c])
    ensures PushesSound(q')
  {
    forall k | 0 <= k < |q'.pushed|
      ensures Below(q', q'.pushed[k]) && (k < |q.pushed| ==> !SameSlot(q'.pushed[k], Claim(c, i, v)))
    {
      if k < |q.pushed| { assert Below(q, q.pushed[k]); }
    }
  }

  lemma PopClaimSound(s: State, t: Tid, c: Id, i: nat)
    requires Sound(s) && t in s.pcs && s.pcs[t] == PopClaim(c, i)
    requires Addr(s.q, c, i) && s.q.chunks[c].popIndex == i
    ensures Sound(State(PopClaimed(s.q, t, c, i), s.pcs[t := PopRegister(c, i)]))
  {
    var q := s.q;
    var q', x := PopClaimed(q, t, c, i), SlotAt(q, c, i).(taker := Some(t));
    assert PcSound(q, t, s.pcs[t]);
    GetSound(q, c, i);
    hide SlotsSound, PushesSound, DeliveriesSound, ThreadsSound;
    TouchSlots(q, q', c, i, x);
    TouchDeliveries(q, q', c, i, x);
    TouchPushes(q, q', c, i, x);
    TouchThreads(q, q', s.pcs, t, PopRegister(c, i), c, i, x);
  }

  /** A slot moved on by its owner: filled, published or destroyed. */
  lemma SlotStepSound(s: State, t: Tid, c: Id, i: nat, x: Slot, pc: Pc)
    requires Sound(s) && t in s.pcs && Addr(s.q, c, i)
    requires Own(s.q, c, i, x, t) && (Fills(s.pcs[t]) ==> Constructing(s.pcs[t], c, i))
    requires var q' := SetSlot(s.q, c, i, x); SlotSound(q', c, i) && PcSound(q', t, pc)
    requires SlotAt(s.q, c, i).stage == Moved || SlotAt(s.q, c, i).stage == Spent ==> x.stage == Moved || x.stage == Spent
    requires x.stage == Reserved ==> x.pusher == Some(t) && Constructing(pc, c, i)
    ensures Sound(State(SetSlot(s.q, c, i, x), s.pcs[t := pc]))
  {
    var q, q' := s.q, SetSlot(s.q, c, i, x);
    assert ChunkSound(q, c);
    hide SlotsSound, PushesSound, DeliveriesSound, ThreadsSound, PcSound, SlotSound, Own;
    TouchSlots(q, q', c, i, x);
    TouchDeliveries(q, q', c, i, x);
    TouchPushes(q, q', c, i, x);
    TouchThreads(q, q', s.pcs, t, pc, c, i, x);
  }

  lemma TakeSound(s: State, t: Tid, c: Id, i: nat)
    requires Sound(s) && t in s.pcs && s.pcs[t] == PopTake(c, i) && Addr(s.q, c, i) && SlotAt(s.q, c, i).storage.Some?
    ensures var q1 := SetSlot(s.q, c, i, SlotAt(s.q, c, i).(stage := Moved));
      Sound(State(q1.(delivered := s.q.delivered + [Claim(c, i, SlotAt(s.q, c, i).storage.value)]), s.pcs[t := PopDestroy(c, i)]))
  {
    var q, x, d := s.q, SlotAt(s.q, c, i).(stage := Moved), Claim(c, i, SlotAt(s.q, c, i).storage.value);
    var q1 := SetSlot(q, c, i, x);
    var q' := q1.(delivered := q.delivered + [d]);
    assert PcSound(q, t, s.pcs[t]);
    assert ChunkSound(q, c);
    GetSound(q, c, i);
    NewDelivery(q, q', c, i, x, d);
    hide SlotsSound, PushesSound, DeliveriesSound, ThreadsSound;
    TouchSlots(q, q', c, i, x);
    TouchPushes(q, q', c, i, x);
    TouchThreads(q, q', s.pcs, t, PopDestroy(c, i), c, i, x);
  }

  lemma NewDelivery(q: Queue, q': Queue, c: Id, i: nat, x: Slot, d: Claim)
    requires DeliveriesSound(q) && Touch(q, q', c, i, x) && q'.delivered == q.delivered + [d] && q'.pushed == q.pushed
    requires d in q.pushed && d.chunk == c && d.index == i && SlotAt(q, c, i).stage == Full && x.stage == Moved
    ensures DeliveriesSound(q')
  {
    forall k | 0 <= k < |q'.delivered|
      ensures Given(q', q'.delivered[k]) && (k < |q.delivered| ==> !SameSlot(q'.delivered[k], d))
    {
      if k < |q.delivered| { assert Given(q, q.delivered[k]); }
    }
  }

  lemma GetPcSound(q: Queue, pcs: map<Tid, Pc>, t: Tid)
    requires ThreadsSound(q, pcs) && t in pcs
    ensures PcSound(q, t, pcs[t])
  {
  }

  lemma GetSlotSound(q: Queue, c: Id, i: nat)
    requires QueueSound(q) && Addr(q, c, i)
    ensures ChunkSound(q, c) && i < CHUNK_SIZE && SlotSound(q, c, i)
  {
    assert ChunkSound(q, c);
  }

  lemma PushSound(s: State, s': State, t: Tid)
    requires Sound(s) && t in s.pcs && t in s'.pcs && s'.pcs == s.pcs[t := s'.pcs[t]]
    requires PushStep(s.q, s'.q, t, s.pcs[t], s'.pcs[t])
    ensures Sound(s')
  {
    hide QueueSound, ThreadsSound, Fills;
    var q, pc, pc' := s.q, s.pcs[t], s'.pcs[t];
    GetPcSound(q, s.pcs, t);
    match pc
    case PushClaim(v, c) =>
      if q.chunks[c].pushIndex < CHUNK_SIZE { PushClaimSound(s, t, v, c); } else { CalmPush(s, s', t); }
    case PushWrite(v, c, i) =>
      GetSlotSound(q, c, i);
      SlotStepSound(s, t, c, i, SlotAt(q, c, i).(storage := Some(v)), pc');
    case PushPublish(v, c, i) =>
      GetSlotSound(q, c, i);
      SlotStepSound(s, t, c, i, SlotAt(q, c, i).(occupied := true, stage := Full), pc');
    case PushCheck(v, c, i) =>
      GetSlotSound(q, c, i);
      CalmPush(s, s', t);
    case _ => CalmPush(s, s', t);
  }

  lemma CalmPush(s: State, s': State, t: Tid)
    requires Sound(s) && t in s.pcs && t in s'.pcs && s'.pcs == s.pcs[t := s'.pcs[t]]
    requires PushStep(s.q, s'.q, t, s.pcs[t], s'.pcs[t]) && !s.pcs[t].PushWrite? && !s.pcs[t].PushPublish?
    requires s.pcs[t].PushClaim? ==> s.pcs[t].tail in s.q.chunks && s.q.chunks[s.pcs[t].tail].pushIndex >= CHUNK_SIZE
    requires s.pcs[t].PushCheck? ==>
      Addr(s.q, s.pcs[t].tail, s.pcs[t].index) && !SlotAt(s.q, s.pcs[t].tail, s.pcs[t].index).occupied
    ensures Sound(s')
  {
    hide QueueSound, ThreadsSound;
    GetPcSound(s.q, s.pcs, t);
    CalmStep(s.q, s'.q, s.pcs, t, s'.pcs[t]);
  }

  lemma PopSound(s: State, s': State, t: Tid, m: Mode)
    requires Sound(s) && t in s.pcs && t in s'.pcs && s'.pcs == s.pcs[t := s'.pcs[t]]
    requires PopStep(s.q, s'.q, t, s.pcs[t], s'.pcs[t], m)
    ensures Sound(s')
  {
    hide QueueSound, ThreadsSound;
    var q, pc, pc' := s.q, s.pcs[t], s'.pcs[t];
    GetPcSound(q, s.pcs, t);
    match pc
    case PopClaim(c, i) =>
      if s'.q == q && pc' == PopLoad { CalmPop(s, s', t, m); } else { PopClaimSound(s, t, c, i); }
    case PopTake(c, i) => TakeSound(s, t, c, i);
    case PopDestroy(c, i) =>
      GetSlotSound(q, c, i);
      SlotStepSound(s, t, c, i, SlotAt(q, c, i).(occupied := false, stage := Spent), pc');
    case _ => CalmPop(s, s', t, m);
  }

  lemma CalmPop(s: State, s': State, t: Tid, m: Mode)
    requires Sound(s) && t in s.pcs && t in s'.pcs && s'.pcs == s.pcs[t := s'.pcs[t]]
    requires PopStep(s.q, s'.q, t, s.pcs[t], s'.pcs[t], m) && !s.pcs[t].PopTake? && !s.pcs[t].PopDestroy?
    requires s.pcs[t].PopClaim? ==> s'.q == s.q && s'.pcs[t] == PopLoad
    ensures Sound(s')
  {
    hide QueueSound, ThreadsSound;
    GetPcSound(s.q, s.pcs, t);
    if s.pcs[t].PopWait? { GetSlotSound(s.q, s.pcs[t].head, s.pcs[t].index); }
    CalmStep(s.q, s'.q, s.pcs, t, s'.pcs[t]);
  }

  lemma ReleaseSound(s: State, s': State, t: Tid)
    requires Sound(s) && t in s.pcs && t in s'.pcs && s'.pcs == s.pcs[t := s'.pcs[t]]
    requires ReleaseStep(s.q, s'.q, s.pcs[t], s'.pcs[t]) || StartStep(s.q, s'.q, s.pcs[t], s'.pcs[t])
    ensures Sound(s')
  {
    hide QueueSound, ThreadsSound;
    CalmStep(s.q, s'.q, s.pcs, t, s'.pcs[t]);
  }

  /** Every step keeps the invariant, whatever the mode. */
  lemma StepSound(s: State, s': State, t: Tid, m: Mode)
    requires Sound(s) && Next(s, s', t, m)
    ensures Sound(s')
  {
    hide Sound, PushStep, PopStep, ReleaseStep, StartStep;
    if PushStep(s.q, s'.q, t, s.pcs[t], s'.pcs[t]) {
      PushSound(s, s', t);
    } else if PopStep(s.q, s'.q, t, s.pcs[t], s'.pcs[t], m) {
      PopSound(s, s', t, m);
    } else {
      ReleaseSound(s, s', t);
    }
  }

  lemma InitSound(s: State)
    requires Init(s)
    ensures Sound(s)
  {
  }

  lemma {:induction false} RunSound(run: seq<State>, m: Mode, n: nat)
    requires IsRun(run, m) && n < |run|
    ensures Sound(run[n])
  {
    hide Sound, Next, Init;
    if n == 0 {
      InitSound(run[0]);
    } else {
      RunSound(run, m, n - 1);
      assert SomeStep(run[n - 1], run[n], m);
      var t :| Next(run[n - 1], run[n], t, m);
      StepSound(run[n - 1], run[n], t, m);
    }
  }

  // ---------------------------------------------------------------- the result

  /** No two deliveries are of one slot, and each delivers the value some push put in that slot. */
  ghost predicate AtMostOnce(q: Queue) {
    && (forall j, k :: 0 <= j < k < |q.delivered| ==> !SameSlot(q.delivered[j], q.delivered[k]))
    && (forall j, k :: 0 <= j < k < |q.pushed| ==> !SameSlot(q.pushed[j], q.pushed[k]))
    && (forall j :: 0 <= j < |q.delivered| ==> q.delivered[j] in q.pushed)
  }

  /** Thread `t` spins at line 208 on a slot that some thread has claimed for a push and not yet published. */
  ghost predicate WaitsForPush(s: State, t: Tid) {
    t in s.pcs && s.pcs[t].PopWait? && Addr(s.q, s.pcs[t].head, s.pcs[t].index) &&
    (!SlotAt(s.q, s.pcs[t].head, s.pcs[t].index).occupied ==>
       exists u :: u in s.pcs && Constructing(s.pcs[u], s.pcs[t].head, s.pcs[t].index))
  }

  /**
   Main result, in every interleaving in which chunks are always fresh: distinct successful pops return values
   of distinct pushes, no value is invented, and a waiting pop waits for a push that is still at work on its slot.
   */
  lemma ConcurrentAtMostOnce(run: seq<State>, m: Mode, n: nat)
    requires IsRun(run, m) && n < |run|
    ensures AtMostOnce(run[n].q)
    ensures forall t :: t in run[n].pcs && run[n].pcs[t].PopWait? ==> WaitsForPush(run[n], t)
  {
    RunSound(run, m, n);
    var s := run[n];
    OnceSound(s.q);
    forall t | t in s.pcs && s.pcs[t].PopWait? ensures WaitsForPush(s, t) { WaitSound(s, t); }
  }

  lemma OnceSound(q: Queue)
    requires QueueSound(q)
    ensures AtMostOnce(q)
  {
    forall j | 0 <= j < |q.delivered| ensures q.delivered[j] in q.pushed { assert Given(q, q.delivered[j]); }
  }

  lemma WaitSound(s: State, t: Tid)
    requires Sound(s) && t in s.pcs && s.pcs[t].PopWait?
    ensures WaitsForPush(s, t)
  {
    hide QueueSound;
    var c, i := s.pcs[t].head, s.pcs[t].index;
    GetPcSound(s.q, s.pcs, t);
    GetSlotSound(s.q, c, i);
    if SlotAt(s.q, c, i).stage == Reserved { assert HasPusher(SlotAt(s.q, c, i), s.pcs, c, i); }
  }
}
