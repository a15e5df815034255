/**
 Calls of the interleaved queue: what a thread's `push` and `pop` do between the step that begins them and their
 return, in every interleaving and whatever the mode. A push claims exactly one slot, for the value it was given, and
 publishes it; a pop that returns true delivers exactly one value, and one that returns false none.
 */
module MpmcCalls {
  import opened Base
  import opened MpmcSteps
  import opened MpmcInvariant
  import opened MpmcOnce
  import opened MpmcResults

  // ---------------------------------------------------------------- whose claims and deliveries

  /** The thread that claimed slot number `k` of the pushes. */
  ghost function Pusher(q: Queue, k: nat): Option<Tid>
    requires k < |q.pushed|
  {
    var e := q.pushed[k];
    if Addr(q, e.chunk, e.index) then SlotAt(q, e.chunk, e.index).pusher else None
  }

  /** The thread whose pop made delivery number `k`. */
  ghost function Taker(q: Queue, k: nat): Option<Tid>
    requires k < |q.delivered|
  {
    var d := q.delivered[k];
    if Addr(q, d.chunk, d.index) then SlotAt(q, d.chunk, d.index).taker else None
  }

  /** The push claims of thread `t` since the queue was `q0`. */
  ghost function Claims(q0: Queue, q: Queue, t: Tid): set<nat> {
    set k: nat | |q0.pushed| <= k < |q.pushed| && Pusher(q, k) == Some(t)
  }

  /** The deliveries to thread `t` since then. */
  ghost function Deliveries(q0: Queue, q: Queue, t: Tid): set<nat> {
    set k: nat | |q0.delivered| <= k < |q.delivered| && Taker(q, k) == Some(t)
  }

  // ---------------------------------------------------------------- one step

  /** A step of thread `t` from `pc` to `pc'` adds no push claim, or one of its own. */
  ghost predicate ClaimsStep(q: Queue, q': Queue, t: Tid, pc: Pc, pc': Pc) {
    && q.pushed <= q'.pushed && (forall k :: 0 <= k < |q.pushed| ==> Pusher(q', k) == Pusher(q, k))
    && (|| q'.pushed == q.pushed
        || (&& pc.PushClaim? && pc'.PushCheck? && pc' == PushCheck(pc.v, pc.tail, pc'.index)
            && q'.pushed == q.pushed + [Claim(pc.tail, pc'.index, pc.v)] && Pusher(q', |q.pushed|) == Some(t)))
    && (pc.PushClaim? && pc'.PushCheck? ==> |q'.pushed| > |q.pushed|)
  }

  /** ... and no delivery, or one of its own. */
  ghost predicate DeliveriesStep(q: Queue, q': Queue, t: Tid, pc: Pc, pc': Pc) {
    && q.delivered <= q'.delivered && (forall k :: 0 <= k < |q.delivered| ==> Taker(q', k) == Taker(q, k))
    && (|| q'.delivered == q.delivered
        || (&& pc.PopTake? && |q'.delivered| == |q.delivered| + 1 && Taker(q', |q.delivered|) == Some(t)))
    && (pc.PopTake? ==> |q'.delivered| > |q.delivered|)
  }

  /** A step that marks no slot. */
  ghost predicate SameMarks(q: Queue, q': Queue) {
    forall c :: c in q.chunks ==> c in q'.chunks && SameMarked(q.chunks[c], q'.chunks[c])
  }

  predicate SameMarked(ch: Chunk, ch': Chunk) {
    && |ch'.slots| == |ch.slots|
    && forall i :: 0 <= i < |ch.slots| ==> ch'.slots[i].pusher == ch.slots[i].pusher && ch'.slots[i].taker == ch.slots[i].taker
  }

  lemma MarksPushers(q: Queue, q': Queue)
    requires SameMarks(q, q') && PushesSound(q) && SlotsSound(q) && q.pushed <= q'.pushed
    ensures forall k :: 0 <= k < |q.pushed| ==> Pusher(q', k) == Pusher(q, k)
  {
    forall k | 0 <= k < |q.pushed| ensures Pusher(q', k) == Pusher(q, k) {
      assert Below(q, q.pushed[k]);
      GetSound(q, q.pushed[k].chunk, q.pushed[k].index);
    }
  }

  lemma MarksTakers(q: Queue, q': Queue)
    requires SameMarks(q, q') && DeliveriesSound(q) && q.delivered <= q'.delivered
    ensures forall k :: 0 <= k < |q.delivered| ==> Taker(q', k) == Taker(q, k)
  {
    forall k | 0 <= k < |q.delivered| ensures Taker(q', k) == Taker(q, k) {
      assert Given(q, q.delivered[k]);
    }
  }

  lemma PushClaimMarks(q: Queue, t: Tid, v: Value, c: Id)
    requires QueueSound(q) && c in q.chunks && q.chunks[c].pushIndex < CHUNK_SIZE && Addr(q, c, q.chunks[c].pushIndex)
    ensures var i := q.chunks[c].pushIndex;
      var q' := PushClaimed(q, t, v, c, i);
      && ClaimsStep(q, q', t, PushClaim(v, c), PushCheck(v, c, i)) && DeliveriesStep(q, q', t, PushClaim(v, c), PushCheck(v, c, i))
  {
    var i := q.chunks[c].pushIndex;
    var q' := PushClaimed(q, t, v, c, i);
    forall k | 0 <= k < |q.pushed| ensures Pusher(q', k) == Pusher(q, k) {
      assert Below(q, q.pushed[k]);
      GetSound(q, q.pushed[k].chunk, q.pushed[k].index);
    }
    forall k | 0 <= k < |q.delivered| ensures Taker(q', k) == Taker(q, k) {
      assert Given(q, q.delivered[k]);
    }
    assert q'.pushed[|q.pushed|] == Claim(c, i, v);
  }

  lemma PopClaimMarks(q: Queue, t: Tid, c: Id, i: nat)
    requires QueueSound(q) && Addr(q, c, i) && q.chunks[c].popIndex == i
    ensures var q' := PopClaimed(q, t, c, i);
      && ClaimsStep(q, q', t, PopClaim(c, i), PopRegister(c, i)) && DeliveriesStep(q, q', t, PopClaim(c, i), PopRegister(c, i))
  {
    var q' := PopClaimed(q, t, c, i);
    forall k | 0 <= k < |q.pushed| ensures Pusher(q', k) == Pusher(q, k) {
      assert Below(q, q.pushed[k]);
      GetSound(q, q.pushed[k].chunk, q.pushed[k].index);
    }
    forall k | 0 <= k < |q.delivered| ensures Taker(q', k) == Taker(q, k) {
      assert Given(q, q.delivered[k]);
      GetSlotSound(q, q.delivered[k].chunk, q.delivered[k].index);
    }
  }

  lemma TakeMarks(q: Queue, q': Queue, t: Tid, c: Id, i: nat)
    requires QueueSound(q) && PcSound(q, t, PopTake(c, i)) && Addr(q, c, i) && SlotAt(q, c, i).storage.Some?
    requires q' == SetSlot(q, c, i, SlotAt(q, c, i).(stage := Moved))
                   .(delivered := q.delivered + [Claim(c, i, SlotAt(q, c, i).storage.value)])
    ensures ClaimsStep(q, q', t, PopTake(c, i), PopDestroy(c, i)) && DeliveriesStep(q, q', t, PopTake(c, i), PopDestroy(c, i))
  {
    assert SameMarks(q, q');
    MarksPushers(q, q');
    MarksTakers(q, q');
    assert q'.delivered[|q.delivered|].chunk == c && q'.delivered[|q.delivered|].index == i;
  }

  lemma QuietMarks(q: Queue, q': Queue, t: Tid, pc: Pc, pc': Pc)
    requires QueueSound(q) && SameMarks(q, q') && q'.pushed == q.pushed && q'.delivered == q.delivered
    requires !pc.PopTake? && !(pc.PushClaim? && pc'.PushCheck?)
    ensures ClaimsStep(q, q', t, pc, pc') && DeliveriesStep(q, q', t, pc, pc')
  {
    hide SlotsSound, SameMarks;
    MarksPushers(q, q');
    MarksTakers(q, q');
  }

  lemma PushMarks(q: Queue, q': Queue, t: Tid, pc: Pc, pc': Pc)
    requires QueueSound(q) && PushStep(q, q', t, pc, pc')
    ensures ClaimsStep(q, q', t, pc, pc') && DeliveriesStep(q, q', t, pc, pc')
  {
    hide QueueSound, ClaimsStep, DeliveriesStep;
    if pc.PushClaim? && q.chunks[pc.tail].pushIndex < CHUNK_SIZE {
      PushClaimMarks(q, t, pc.v, pc.tail);
    } else {
      QuietMarks(q, q', t, pc, pc');
    }
  }

  lemma PopMarks(q: Queue, q': Queue, t: Tid, pc: Pc, pc': Pc, m: Mode)
    requires QueueSound(q) && PcSound(q, t, pc) && PopStep(q, q', t, pc, pc', m)
    ensures ClaimsStep(q, q', t, pc, pc') && DeliveriesStep(q, q', t, pc, pc')
  {
    hide QueueSound, ClaimsStep, DeliveriesStep, PcSound;
    if pc.PopTake? {
      TakeMarks(q, q', t, pc.head, pc.index);
    } else if pc.PopClaim? && !(q' == q && pc' == PopLoad) {
      PopClaimMarks(q, t, pc.head, pc.index);
    } else {
      QuietMarks(q, q', t, pc, pc');
    }
  }

  lemma ReleaseMarks(q: Queue, q': Queue, t: Tid, pc: Pc, pc': Pc)
    requires QueueSound(q) && (ReleaseStep(q, q', pc, pc') || StartStep(q, q', pc, pc'))
    ensures ClaimsStep(q, q', t, pc, pc') && DeliveriesStep(q, q', t, pc, pc')
  {
    hide QueueSound, ClaimsStep, DeliveriesStep;
    QuietMarks(q, q', t, pc, pc');
  }

  lemma StepMarks(s: State, s': State, t: Tid, m: Mode)
    requires Sound(s) && Next(s, s', t, m)
    ensures ClaimsStep(s.q, s'.q, t, s.pcs[t], s'.pcs[t]) && DeliveriesStep(s.q, s'.q, t, s.pcs[t], s'.pcs[t])
  {
    hide QueueSound, ThreadsSound, PushStep, PopStep, ReleaseStep, StartStep, ClaimsStep, DeliveriesStep, TailGrace, RefsGrace;
    var pc, pc' := s.pcs[t], s'.pcs[t];
    GetPcSound(s.q, s.pcs, t);
    if PushStep(s.q, s'.q, t, pc, pc') {
      PushMarks(s.q, s'.q, t, pc, pc');
    } else if PopStep(s.q, s'.q, t, pc, pc', m) {
      PopMarks(s.q, s'.q, t, pc, pc', m);
    } else {
      ReleaseMarks(s.q, s'.q, t, pc, pc');
    }
  }

  /** What a step of thread `u` adds to the claims and deliveries of thread `t`. */
  lemma StepAdds(q0: Queue, s: State, s': State, t: Tid, u: Tid, m: Mode)
    requires Sound(s) && Next(s, s', u, m) && |q0.pushed| <= |s.q.pushed| && |q0.delivered| <= |s.q.delivered|
    ensures s.q.pushed <= s'.q.pushed && |q0.delivered| <= |s'.q.delivered|
    ensures Claims(q0, s'.q, t) == Claims(q0, s.q, t) + if u == t && |s'.q.pushed| > |s.q.pushed| then {|s.q.pushed|} else {}
    ensures Deliveries(q0, s'.q, t) ==
      Deliveries(q0, s.q, t) + if u == t && |s'.q.delivered| > |s.q.delivered| then {|s.q.delivered|} else {}
  {
    hide Sound, Next, Pusher, Taker;
    StepMarks(s, s', u, m);
  }

  // ---------------------------------------------------------------- inside a call of push

  /** Releasing a chunk that was made in vain, and then back to pushing `v`. */
  predicate ReleasesFor(pc: Pc, v: Value) {
    (pc.TryReaders? || pc.TryRetired? || pc.RelLoad? || pc.RelStore? || pc.RelCas?) && pc.k.BackToPush? && pc.k.v == v
  }

  /** In a push of `v` that has not claimed a slot. */
  predicate Seeks(pc: Pc, v: Value) {
    || ((pc.PushLoad? || pc.PushClaim? || pc.PushAlloc? || pc.PushLink? || pc.PushSwing? || pc.PushHelp?) && pc.v == v)
    || ReleasesFor(pc, v)
  }

  /** In a push of `v` that has claimed slot number `k`. */
  ghost predicate Has(q: Queue, pc: Pc, v: Value, k: nat) {
    Fills(pc) && pc.v == v && k < |q.pushed| && q.pushed[k] == Claim(pc.tail, pc.index, v)
  }

  /** Thread `t` is in a push of `v` that began when the queue was `q0`. */
  ghost predicate InPush(q0: Queue, s: State, t: Tid, v: Value) {
    && t in s.pcs && |q0.pushed| <= |s.q.pushed| && |q0.delivered| <= |s.q.delivered| && Deliveries(q0, s.q, t) == {}
    && (|| (Seeks(s.pcs[t], v) && Claims(q0, s.q, t) == {})
        || (exists k :: Claims(q0, s.q, t) == {k} && Has(s.q, s.pcs[t], v, k)))
  }

  /** The steps of a push before its claim: they do not return. */
  lemma SeekMoves(s: State, s': State, t: Tid, v: Value, m: Mode)
    requires Sound(s) && Next(s, s', t, m) && Seeks(s.pcs[t], v)
    ensures Seeks(s'.pcs[t], v) || (s.pcs[t].PushClaim? && s'.pcs[t].PushCheck?)
    ensures Seeks(s'.pcs[t], v) ==> !(s.pcs[t].PushClaim? && s'.pcs[t].PushCheck?)
  {
    hide Sound, SetChunk, PushClaimed, Linked, Detached, TailGrace, RefsGrace;
  }

  /** The steps after it: they keep the slot, and return when its value is published. */
  lemma FillMoves(s: State, s': State, t: Tid, m: Mode)
    requires Sound(s) && Next(s, s', t, m) && Fills(s.pcs[t])
    ensures s'.q.pushed == s.q.pushed
    ensures
      || (Fills(s'.pcs[t]) && s'.pcs[t].v == s.pcs[t].v && s'.pcs[t].tail == s.pcs[t].tail && s'.pcs[t].index == s.pcs[t].index)
      || (s'.pcs[t].Idle? && Holds(s'.q, Claim(s.pcs[t].tail, s.pcs[t].index, s.pcs[t].v)))
  {
    hide QueueSound, ThreadsSound, TailGrace, RefsGrace;
    GetPcSound(s.q, s.pcs, t);
    GetSlotSound(s.q, s.pcs[t].tail, s.pcs[t].index);
  }

  /** A step of another thread leaves a thread where it is. */
  lemma OthersStay(s: State, s': State, t: Tid, u: Tid, m: Mode)
    requires Next(s, s', u, m) && t in s.pcs && t != u
    ensures t in s'.pcs && s'.pcs[t] == s.pcs[t]
  {
    hide PushStep, PopStep, ReleaseStep, StartStep, TailGrace, RefsGrace;
  }

  /** Thread `t` has returned from a push of `v`: it has claimed one slot, and the value is published there. */
  ghost predicate PushedOnce(q0: Queue, q: Queue, t: Tid, v: Value) {
    && Deliveries(q0, q, t) == {}
    && exists k :: Claims(q0, q, t) == {k} && k < |q.pushed| && q.pushed[k].value == v && Holds(q, q.pushed[k])
  }

  lemma PushGoesOn(q0: Queue, s: State, s': State, t: Tid, u: Tid, v: Value, m: Mode)
    requires Sound(s) && Next(s, s', u, m) && InPush(q0, s, t, v)
    ensures t in s'.pcs
    ensures if s'.pcs[t].Idle? then PushedOnce(q0, s'.q, t, v) else InPush(q0, s', t, v)
  {
    hide Sound, Next, Claims, Deliveries, Holds, Seeks, Fills;
    StepAdds(q0, s, s', t, u, m);
    StepMarks(s, s', u, m);
    PushPcs(s.pcs[t], v);
    Steps(s, s', u, m);
    if u != t {
      OthersStay(s, s', t, u, m);
      if !Seeks(s.pcs[t], v) {
        var k :| Claims(q0, s.q, t) == {k} && Has(s.q, s.pcs[t], v, k);
        assert Claims(q0, s'.q, t) == {k} && Has(s'.q, s'.pcs[t], v, k);
      }
    } else if Seeks(s.pcs[t], v) {
      SeekMoves(s, s', t, v, m);
      PushPcs(s'.pcs[t], v);
      if !Seeks(s'.pcs[t], v) {
        assert Claims(q0, s'.q, t) == {|s.q.pushed|} && Has(s'.q, s'.pcs[t], v, |s.q.pushed|);
      }
    } else {
      var k :| Claims(q0, s.q, t) == {k} && Has(s.q, s.pcs[t], v, k);
      FillMoves(s, s', t, m);
      NoTake(s.pcs[t]);
      PushPcs(s'.pcs[t], v);
      assert Claims(q0, s'.q, t) == {k};
      assert Fills(s'.pcs[t]) ==> Has(s'.q, s'.pcs[t], v, k);
    }
  }

  lemma Steps(s: State, s': State, u: Tid, m: Mode)
    requires Next(s, s', u, m)
    ensures u in s.pcs && u in s'.pcs
  {
  }

  lemma NoTake(pc: Pc)
    requires Fills(pc)
    ensures !pc.PopTake? && !pc.PushClaim?
  {
  }

  lemma PushPcs(pc: Pc, v: Value)
    ensures Seeks(pc, v) ==> !pc.Idle? && !Fills(pc) && !pc.PopTake? && (pc.PushClaim? ==> pc.v == v)
    ensures Fills(pc) ==> !pc.Idle?
    ensures pc.PushCheck? ==> Fills(pc)
  {
  }

  // ---------------------------------------------------------------- inside a call of pop

  predicate Releases(pc: Pc) {
    pc.TryReaders? || pc.TryRetired? || pc.RelLoad? || pc.RelStore? || pc.RelCas?
  }

  /** In a pop that has delivered nothing. */
  predicate Waits(pc: Pc) {
    || pc.PopLoad? || pc.PopIndex? || pc.PopPeek? || pc.PopNextFull? || pc.PopNextEmpty? || pc.PopAdvance? || pc.PopRetire?
    || pc.PopClaim? || pc.PopRegister? || pc.PopWait? || pc.PopTake? || (Releases(pc) && pc.k.BackToPop?)
  }

  /** In a pop that has delivered a value. */
  predicate Gave(pc: Pc) {
    pc.PopDestroy? || pc.PopUnregister? || (Releases(pc) && pc.k.PopReturn?)
  }

  /** Thread `t` is in a pop that began when the queue was `q0`. */
  ghost predicate InPop(q0: Queue, s: State, t: Tid) {
    && t in s.pcs && |q0.pushed| <= |s.q.pushed| && |q0.delivered| <= |s.q.delivered| && Claims(q0, s.q, t) == {}
    && (|| (Waits(s.pcs[t]) && Deliveries(q0, s.q, t) == {})
        || (Gave(s.pcs[t]) && DeliveredOne(q0, s.q, t)))
  }

  ghost predicate DeliveredOne(q0: Queue, q: Queue, t: Tid) {
    exists k :: Deliveries(q0, q, t) == {k} && k < |q.delivered|
  }

  /** Thread `t` has returned from a pop, with true or false. */
  ghost predicate PoppedOnce(q0: Queue, q: Queue, t: Tid, found: bool) {
    && Claims(q0, q, t) == {}
    && if found then DeliveredOne(q0, q, t) else Deliveries(q0, q, t) == {}
  }

  lemma WaitMoves(s: State, s': State, t: Tid, m: Mode)
    requires Next(s, s', t, m) && Waits(s.pcs[t])
    ensures if s.pcs[t].PopTake? then Gave(s'.pcs[t]) else Waits(s'.pcs[t]) || (s'.pcs[t].Idle? && Misses(s, s', t))
  {
    hide SetChunk, PopClaimed, Detached, TailGrace, RefsGrace;
  }

  lemma GaveMoves(s: State, s': State, t: Tid, m: Mode)
    requires Next(s, s', t, m) && Gave(s.pcs[t])
    ensures Gave(s'.pcs[t]) || (s'.pcs[t].Idle? && !Misses(s, s', t))
  {
    hide SetChunk, Detached, TailGrace, RefsGrace;
  }

  lemma PopPcs(pc: Pc)
    ensures Waits(pc) ==> !pc.Idle? && !Gave(pc) && !pc.PushClaim?
    ensures Gave(pc) ==> !pc.Idle? && !pc.PushClaim? && !pc.PopTake?
  {
  }

  lemma PopGoesOn(q0: Queue, s: State, s': State, t: Tid, u: Tid, m: Mode)
    requires Sound(s) && Next(s, s', u, m) && InPop(q0, s, t)
    ensures t in s'.pcs
    ensures if s'.pcs[t].Idle? then PoppedOnce(q0, s'.q, t, !Misses(s, s', t)) else InPop(q0, s', t)
  {
    hide Sound, Next, Claims, Deliveries, Waits, Gave, Misses;
    StepAdds(q0, s, s', t, u, m);
    StepMarks(s, s', u, m);
    PopPcs(s.pcs[t]);
    Steps(s, s', u, m);
    if u != t {
      OthersStay(s, s', t, u, m);
      if Gave(s.pcs[t]) { StillOne(q0, s.q, s'.q, t); }
    } else if Waits(s.pcs[t]) {
      WaitMoves(s, s', t, m);
      PopPcs(s'.pcs[t]);
      if s.pcs[t].PopTake? { assert Deliveries(q0, s'.q, t) == {|s.q.delivered|}; }
    } else {
      GaveMoves(s, s', t, m);
      PopPcs(s'.pcs[t]);
      StillOne(q0, s.q, s'.q, t);
    }
  }

  lemma StillOne(q0: Queue, q: Queue, q': Queue, t: Tid)
    requires DeliveredOne(q0, q, t) && Deliveries(q0, q', t) == Deliveries(q0, q, t) && |q.delivered| <= |q'.delivered|
    ensures DeliveredOne(q0, q', t)
  {
    hide Deliveries;
    var k :| Deliveries(q0, q, t) == {k} && k < |q.delivered|;
    assert Deliveries(q0, q', t) == {k};
  }

  // ---------------------------------------------------------------- calls in a run

  /** A call of thread `t`: it is idle in state `a` and again in state `b`, and not between them. */
  ghost predicate Call(run: seq<State>, t: Tid, a: nat, b: nat) {
    && a + 1 < b < |run| && (forall k :: a <= k <= b ==> t in run[k].pcs)
    && run[a].pcs[t].Idle? && run[b].pcs[t].Idle? && forall k :: a < k < b ==> !run[k].pcs[t].Idle?
  }

  /** A thread leaves idleness by beginning a push or a pop, which changes nothing. */
  lemma Begins(s: State, s': State, t: Tid, u: Tid, m: Mode)
    requires Next(s, s', u, m) && t in s.pcs && s.pcs[t].Idle? && t in s'.pcs && !s'.pcs[t].Idle?
    ensures s'.q == s.q && (s'.pcs[t].PushLoad? || s'.pcs[t].PopLoad?)
  {
    hide TailGrace, RefsGrace;
  }

  lemma NothingYet(q: Queue, t: Tid)
    ensures Claims(q, q, t) == {} && Deliveries(q, q, t) == {}
  {
  }

  lemma {:induction false} PushSpan(run: seq<State>, m: Mode, t: Tid, a: nat, b: nat, n: nat, v: Value)
    requires IsRun(run, m) && Call(run, t, a, b) && run[a + 1].pcs[t] == PushLoad(v) && a < n < b
    ensures InPush(run[a].q, run[n], t, v)
    decreases n
  {
    hide Next, Init, InPush, Sound, Misses;
    RunSound(run, m, n - 1);
    assert SomeStep(run[n - 1], run[n], m);
    var u :| Next(run[n - 1], run[n], u, m);
    if n == a + 1 {
      Begins(run[a], run[n], t, u, m);
      NothingYet(run[a].q, t);
      ToInPush(run[a].q, run[n], t, v);
    } else {
      PushSpan(run, m, t, a, b, n - 1, v);
      PushGoesOn(run[a].q, run[n - 1], run[n], t, u, v, m);
    }
  }

  lemma ToInPush(q0: Queue, s: State, t: Tid, v: Value)
    requires t in s.pcs && s.q == q0 && s.pcs[t] == PushLoad(v) && Claims(q0, q0, t) == {} && Deliveries(q0, q0, t) == {}
    ensures InPush(q0, s, t, v)
  {
  }

  /**
   Main result: in every run, whatever the mode, a call of `push` with `v` that returns has claimed exactly one slot,
   for `v`, and has published it there; and it has taken nothing out.
   */
  lemma PushClaimsOnce(run: seq<State>, m: Mode, t: Tid, a: nat, b: nat, v: Value)
    requires IsRun(run, m) && Call(run, t, a, b) && run[a + 1].pcs[t] == PushLoad(v)
    ensures PushedOnce(run[a].q, run[b].q, t, v)
  {
    hide Next, Init, InPush, PushedOnce, Sound;
    PushSpan(run, m, t, a, b, b - 1, v);
    RunSound(run, m, b - 1);
    assert SomeStep(run[b - 1], run[b], m);
    var u :| Next(run[b - 1], run[b], u, m);
    PushGoesOn(run[a].q, run[b - 1], run[b], t, u, v, m);
  }

  lemma {:induction false} PopSpan(run: seq<State>, m: Mode, t: Tid, a: nat, b: nat, n: nat)
    requires IsRun(run, m) && Call(run, t, a, b) && run[a + 1].pcs[t].PopLoad? && a < n < b
    ensures InPop(run[a].q, run[n], t)
    decreases n
  {
    hide Next, Init, InPop, Sound, Misses;
    RunSound(run, m, n - 1);
    assert SomeStep(run[n - 1], run[n], m);
    var u :| Next(run[n - 1], run[n], u, m);
    if n == a + 1 {
      Begins(run[a], run[n], t, u, m);
      NothingYet(run[a].q, t);
      ToInPop(run[a].q, run[n], t);
    } else {
      PopSpan(run, m, t, a, b, n - 1);
      PopGoesOn(run[a].q, run[n - 1], run[n], t, u, m);
    }
  }

  lemma ToInPop(q0: Queue, s: State, t: Tid)
    requires t in s.pcs && s.q == q0 && s.pcs[t] == PopLoad && Claims(q0, q0, t) == {} && Deliveries(q0, q0, t) == {}
    ensures InPop(q0, s, t)
  {
  }

  /**
   Main result: a call of `pop` that returns has claimed nothing for a push, and has delivered exactly one value if it
   returns true, and none if it returns false.
   */
  lemma PopDeliversOnce(run: seq<State>, m: Mode, t: Tid, a: nat, b: nat)
    requires IsRun(run, m) && Call(run, t, a, b) && run[a + 1].pcs[t].PopLoad?
    ensures PoppedOnce(run[a].q, run[b].q, t, !Misses(run[b - 1], run[b], t))
  {
    hide Next, Init, InPop, PoppedOnce, Sound, Misses;
    PopSpan(run, m, t, a, b, b - 1);
    RunSound(run, m, b - 1);
    assert SomeStep(run[b - 1], run[b], m);
    var u :| Next(run[b - 1], run[b], u, m);
    PopGoesOn(run[a].q, run[b - 1], run[b], t, u, m);
  }

  /** Every call is a push or a pop. */
  lemma CallKinds(run: seq<State>, m: Mode, t: Tid, a: nat, b: nat)
    requires IsRun(run, m) && Call(run, t, a, b)
    ensures run[a + 1].pcs[t].PushLoad? || run[a + 1].pcs[t].PopLoad?
  {
    hide Next, Init;
    assert SomeStep(run[a], run[a + 1], m);
    var u :| Next(run[a], run[a + 1], u, m);
    Begins(run[a], run[a + 1], t, u, m);
  }

  // ---------------------------------------------------------------- the calls and the queue

  /** Claims stay, with their pushers. */
  lemma {:induction false} ClaimsStay(run: seq<State>, m: Mode, b: nat, n: nat)
    requires IsRun(run, m) && b <= n < |run|
    ensures run[b].q.pushed <= run[n].q.pushed
    ensures forall k :: 0 <= k < |run[b].q.pushed| ==> Pusher(run[n].q, k) == Pusher(run[b].q, k)
    decreases n - b
  {
    hide Next, Init, Sound, Pusher;
    if b < n {
      ClaimsStay(run, m, b, n - 1);
      RunSound(run, m, n - 1);
      assert SomeStep(run[n - 1], run[n], m);
      var u :| Next(run[n - 1], run[n], u, m);
      StepMarks(run[n - 1], run[n], u, m);
    }
  }

  /**
   No call is lost: once a `push` of `v` has returned and all threads are idle, the value it claimed a slot for has
   been delivered, or is in its slot with as many values before it as have yet to be popped.
   */
  lemma PushNotLost(run: seq<State>, t: Tid, a: nat, b: nat, v: Value, n: nat) returns (k: nat)
    requires IsRun(run, Mode(true, true, true)) && Call(run, t, a, b) && run[a + 1].pcs[t] == PushLoad(v)
    requires b <= n < |run| && forall u :: u in run[n].pcs ==> run[n].pcs[u].Idle?
    ensures Claims(run[a].q, run[b].q, t) == {k} && k < |run[n].q.pushed| && Pusher(run[n].q, k) == Some(t)
    ensures run[n].q.pushed[k].value == v
    ensures if k < |run[n].q.popped| then run[n].q.pushed[k] in run[n].q.delivered else Holds(run[n].q, run[n].q.pushed[k])
  {
    hide Next, Init, Holds, Pusher;
    PushClaimsOnce(run, Mode(true, true, true), t, a, b, v);
    k :| Claims(run[a].q, run[b].q, t) == {k} && k < |run[b].q.pushed| && run[b].q.pushed[k].value == v;
    assert k in Claims(run[a].q, run[b].q, t);
    ClaimsStay(run, Mode(true, true, true), b, n);
    NothingLost(run, n);
  }

  /** In a push of `v`. */
  predicate Pushes(pc: Pc, v: Value) {
    Seeks(pc, v) || (Fills(pc) && pc.v == v)
  }

  /** Thread `t` began a push of `v` after state `a` and has not been idle from then to state `n`. */
  ghost predicate Began(run: seq<State>, t: Tid, a: nat, n: nat, v: Value) {
    && a < n < |run| && (forall k :: a <= k <= n ==> t in run[k].pcs)
    && run[a].pcs[t].Idle? && run[a + 1].pcs[t] == PushLoad(v) && forall k :: a < k <= n ==> !run[k].pcs[t].Idle?
  }

  /** Nobody comes into a push other than by beginning one. */
  lemma PushesBack(s: State, s': State, t: Tid, u: Tid, v: Value, m: Mode)
    requires Sound(s) && Next(s, s', u, m) && t in s'.pcs && Pushes(s'.pcs[t], v)
    ensures t in s.pcs && !s'.pcs[t].Idle?
    ensures Pushes(s.pcs[t], v) || (s.pcs[t].Idle? && s'.pcs[t] == PushLoad(v))
  {
    hide Sound, SetChunk, PushClaimed, PopClaimed, Linked, Detached, TailGrace, RefsGrace;
  }

  lemma NotIdle(pc: Pc, v: Value)
    requires Pushes(pc, v)
    ensures !pc.Idle?
  {
  }

  lemma BeganOn(run: seq<State>, t: Tid, a: nat, n: nat, v: Value)
    requires a < n < |run| && t in run[n].pcs && !run[n].pcs[t].Idle?
    requires if a == n - 1 then t in run[a].pcs && run[a].pcs[t].Idle? && run[n].pcs[t] == PushLoad(v) else Began(run, t, a, n - 1, v)
    ensures Began(run, t, a, n, v)
  {
    hide Seeks, Fills;
    if a < n - 1 {
      forall k | a < k <= n ensures !run[k].pcs[t].Idle? {
        if k < n { assert !run[k].pcs[t].Idle?; }
      }
    }
  }

  lemma {:induction false} PushesBegan(run: seq<State>, m: Mode, t: Tid, n: nat, v: Value) returns (a: nat)
    requires IsRun(run, m) && n < |run| && t in run[n].pcs && Pushes(run[n].pcs[t], v)
    ensures Began(run, t, a, n, v)
  {
    hide Next, Sound, Pushes, Began;
    NotIdle(run[n].pcs[t], v);
    if n > 0 {
      RunSound(run, m, n - 1);
      assert SomeStep(run[n - 1], run[n], m);
      var u :| Next(run[n - 1], run[n], u, m);
      PushesBack(run[n - 1], run[n], t, u, v, m);
      if Pushes(run[n - 1].pcs[t], v) {
        a := PushesBegan(run, m, t, n - 1, v);
        BeganBefore(run, t, a, n - 1, v);
        BeganOn(run, t, a, n, v);
      } else {
        a := n - 1;
        BeganOn(run, t, a, n, v);
      }
    }
  }

  /** Nothing is claimed but by calls: every claim was made inside a push of that value by the thread it belongs to. */
  lemma {:induction false} ClaimHasCall(run: seq<State>, m: Mode, n: nat, k: nat) returns (t: Tid, a: nat, j: nat)
    requires IsRun(run, m) && n < |run| && k < |run[n].q.pushed|
    ensures j < n && Began(run, t, a, j, run[n].q.pushed[k].value) && Pusher(run[n].q, k) == Some(t)
    ensures |run[a].q.pushed| <= |run[j].q.pushed| == k < |run[j + 1].q.pushed|
  {
    hide Next, Sound, Pusher, Pushes, Began;
    if n > 0 {
      RunSound(run, m, n - 1);
      assert SomeStep(run[n - 1], run[n], m);
      var u :| Next(run[n - 1], run[n], u, m);
      StepMarks(run[n - 1], run[n], u, m);
      if k < |run[n - 1].q.pushed| {
        t, a, j := ClaimHasCall(run, m, n - 1, k);
      } else {
        Steps(run[n - 1], run[n], u, m);
        Claiming(run[n - 1].pcs[u]);
        t, j := u, n - 1;
        a := PushesBegan(run, m, t, j, run[n].q.pushed[k].value);
        BeganBefore(run, t, a, j, run[n].q.pushed[k].value);
        ClaimsStay(run, m, a, j);
      }
    }
  }

  lemma BeganBefore(run: seq<State>, t: Tid, a: nat, n: nat, v: Value)
    requires Began(run, t, a, n, v)
    ensures a < n < |run|
  {
  }

  lemma Claiming(pc: Pc)
    ensures pc.PushClaim? ==> Pushes(pc, pc.v)
  {
  }
}
