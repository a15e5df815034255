/**
 The receive loop of one server connection over its two chained buffers. It does what the loop on the bytes alone
 does, except where a length is read that is all there is in a block that is not full, which leaves the read
 buffer without a node, and where a response does not fit the last block of the write buffer, which overwrites it.
 */
module BufferedServers {
  import opened Base
  import opened BufferBlocks
  import opened Geometry
  import opened Memories
  import opened HeaderCodec
  import opened Frames
  import opened ServerLoop

  /**
   `sends` gives the bytes the socket accepts after the k-th response and before the next. In how many pieces makes no
   difference to where the last block is written to.
   */
  datatype Env = Env(services: Services, sends: nat -> nat)

  datatype Site = Site(server: Server, mem: Memory)

  const Start: Site := Site(InitialServer, FreshMemory)

  predicate LengthPhase(phase: Phase) {
    phase.WantHeaderLen? || phase.WantBodyLen?
  }

  /** The loop has the bytes it waits for, and buffers it can work with. */
  predicate CanRun(t: Site) {
    Ready(t.server) && Sound(t.mem)
  }

  function Responded(env: Env, o: Outbox, k: nat, r: Request): Outbox {
    var w := WritesFrame(o, |Serialize(ResponseHeader(r.header.requestId))|, |ResponseBody(env.services, r)|);
    if w.whole then Sends(w, env.sends(k)) else w
  }

  /** One part of the loop. */
  function Part(env: Env, t: Site): Site
    requires Ready(t.server)
  {
    var s := t.server;
    var s' := Step(env.services, s);
    if LengthPhase(s.phase) then Site(s', t.mem.(inbox := ReadsLength(t.mem.inbox, |s.readBuf|)))
    else if |s'.dispatched| == |s.dispatched| then Site(s', t.mem)
    else
      var o := Responded(env, t.mem.outbox, |s.dispatched|, s'.dispatched[|s.dispatched|]);
      Site(if o.whole then s' else s'.(writeBuf := s.writeBuf), t.mem.(outbox := o))
  }

  /** The loop runs until it has to wait, stops, or cannot go on. */
  function Run(env: Env, t: Site): Site
    decreases |t.server.readBuf|, Rank(t.server.phase)
  {
    if CanRun(t) then
      PartShrinks(env, t);
      Run(env, Part(env, t))
    else t
  }

  lemma PartShrinks(env: Env, t: Site)
    requires Ready(t.server)
    ensures var s, s' := t.server, Part(env, t).server;
      |s'.readBuf| < |s.readBuf| || (|s'.readBuf| == |s.readBuf| && Rank(s'.phase) < Rank(s.phase))
  {
    hide Responded;
  }

  function Receive(t: Site, bytes: Bytes): Site {
    Site(More(t.server, bytes), t.mem.(inbox := Receives(t.mem.inbox, |bytes|)))
  }

  /** One `async_read` delivers `bytes`, and the loop goes on. What comes after its end is left in the socket. */
  function Deliver(env: Env, t: Site, bytes: Bytes): Site {
    Run(env, Receive(t, bytes))
  }

  function DeliverAll(env: Env, t: Site, chunks: seq<Bytes>): Site
    decreases |chunks|
  {
    if chunks == [] then t else DeliverAll(env, Deliver(env, t, chunks[0]), chunks[1..])
  }

  /** Every read delivers something, and none more than the room of the last block. */
  predicate Deliverable(at: nat, chunks: seq<Bytes>)
    decreases |chunks|
  {
    chunks == [] || (0 < |chunks[0]| <= BLOCK_SIZE - at && Deliverable(AfterReceive(at, |chunks[0]|), chunks[1..]))
  }

  /** The buffers are as the loop needs them, or the loop has ended. */
  predicate Sane(t: Site) {
    t.mem.outbox.whole && (t.mem.inbox.hasNode || t.server.phase.Stopped?)
  }

  // ---------------------------------------------------------------- where a length must not be cut off

  /** `x` is the last byte of a length, and the loop goes on after it. */
  predicate LastLengthByte(sv: Services, s: Server, x: Byte) {
    LengthPhase(s.phase) && |s.readBuf| == 3 && !Step(sv, More(s, [x])).phase.Stopped?
  }

  /** The last byte of the bytes fed to a waiting loop is the last byte of a length. */
  predicate EndsAt(sv: Services, s: Server, bytes: Bytes) {
    bytes != [] && var n := |bytes| - 1; LastLengthByte(sv, Feed(sv, s, bytes[..n]), bytes[n])
  }

  /** A read may end after these bytes of a stream: on a block boundary, or not right after a length. */
  predicate CleanCut(sv: Services, prefix: Bytes) {
    |prefix| % BLOCK_SIZE == 0 || !EndsAt(sv, InitialServer, prefix)
  }

  /** No read ends where it may not. */
  ghost predicate CleanCuts(sv: Services, chunks: seq<Bytes>) {
    forall i :: 0 < i <= |chunks| ==> CleanCut(sv, Joined(chunks[..i]))
  }

  /** Every response fits the room of the last block of the write buffer when it is written. */
  predicate AllFit(env: Env, o: Outbox, k: nat, requests: seq<Request>)
    decreases |requests|
  {
    requests == [] || (Responded(env, o, k, requests[0]).whole && AllFit(env, Responded(env, o, k, requests[0]), k + 1, requests[1..]))
  }

  function ButLast(s: Server): Server
    requires s.readBuf != []
  {
    s.(readBuf := s.readBuf[..|s.readBuf| - 1])
  }

  /** With the bytes there are, the loop will read a length that is all there is. */
  predicate Loses(sv: Services, s: Server) {
    s.readBuf != [] && LastLengthByte(sv, Drain(sv, ButLast(s)), s.readBuf[|s.readBuf| - 1])
  }

  lemma LosesNot(sv: Services, s: Server)
    requires !Ready(s)
    ensures !Loses(sv, s)
  {
  }

  lemma LosesNow(sv: Services, s: Server)
    requires Ready(s) && |s.readBuf| == Needed(s.phase)
    ensures Loses(sv, s) <==> LengthPhase(s.phase) && !Step(sv, s).phase.Stopped?
    ensures !Loses(sv, Step(sv, s))
  {
    if s.readBuf != [] {
      var d := ButLast(s);
      assert More(d, [s.readBuf[|s.readBuf| - 1]]) == s;
    }
  }

  lemma LosesLater(sv: Services, s: Server)
    requires Ready(s) && |s.readBuf| > Needed(s.phase)
    ensures Loses(sv, s) <==> Loses(sv, Step(sv, s))
  {
    var n := |s.readBuf| - 1;
    var d, x := ButLast(s), s.readBuf[n];
    assert More(d, [x]) == s;
    StepMore(sv, d, [x]);
    var s' := Step(sv, s);
    assert s' == More(Step(sv, d), [x]);
    assert ButLast(s') == Step(sv, d);
  }

  // ---------------------------------------------------------------- one run of the loop

  /** What may come of running the loop, when `q` is what the loop on the bytes alone has still to dispatch. */
  ghost predicate Outcome(env: Env, t: Site, u: Site, s: Server, q: seq<Request>) {
    var k := |s.dispatched| - |t.server.dispatched|;
    && 0 <= k <= |q|
    && (|| (u.server == s && Sane(u) && u.mem.inbox.at == t.mem.inbox.at
            && (t.mem.inbox.at == 0 || !Loses(env.services, t.server))
            && (AllFit(env, t.mem.outbox, |t.server.dispatched|, q) <==> AllFit(env, u.mem.outbox, |s.dispatched|, q[k..])))
        || (!u.mem.inbox.hasNode && !u.server.phase.Stopped? && t.mem.inbox.at != 0 && Loses(env.services, t.server))
        || (!u.mem.outbox.whole && !AllFit(env, t.mem.outbox, |t.server.dispatched|, q)))
  }

  lemma Waits(env: Env, t: Site, q: seq<Request>)
    requires Sane(t) && !Ready(t.server)
    ensures Outcome(env, t, Run(env, t), Drain(env.services, t.server), q)
  {
    hide AllFit, Loses;
    LosesNot(env.services, t.server);
    assert q[0..] == q;
  }

  /** What one part of the loop does to what is dispatched, to the buffers, and to the length still to come. */
  lemma PartFacts(env: Env, t: Site)
    requires Ready(t.server) && Sound(t.mem)
    ensures var sv, s, t' := env.services, t.server, Part(env, t);
      var s' := Step(sv, s);
      && t'.mem.inbox.at == t.mem.inbox.at && s.dispatched <= s'.dispatched && t'.server.phase == s'.phase
      && (t'.mem.outbox.whole ==> t'.server == s')
      && (if |s'.dispatched| == |s.dispatched| then t'.mem.outbox == t.mem.outbox
          else |s'.dispatched| == |s.dispatched| + 1
               && t'.mem.outbox == Responded(env, t.mem.outbox, |s.dispatched|, s'.dispatched[|s.dispatched|])
               && t'.mem.inbox.hasNode)
      && (!t'.mem.inbox.hasNode ==> t.mem.inbox.at != 0 && (Loses(sv, s) <==> !s'.phase.Stopped?))
      && (t'.mem.inbox.hasNode && t.mem.inbox.at != 0 ==> (Loses(sv, s) <==> Loses(sv, s')))
  {
    hide Loses, Responded, ResponseFrame;
    var s := t.server;
    if |s.readBuf| == Needed(s.phase) {
      LosesNow(env.services, s);
    } else {
      LosesLater(env.services, s);
    }
  }

  lemma {:induction false} RunAgrees(env: Env, t: Site, q: seq<Request>)
    requires Sane(t) && t.server.dispatched <= Drain(env.services, t.server).dispatched
    requires Drain(env.services, t.server).dispatched[|t.server.dispatched|..] <= q
    ensures Outcome(env, t, Run(env, t), Drain(env.services, t.server), q)
    decreases |t.server.readBuf|, Rank(t.server.phase)
  {
    hide Responded, AllFit, Loses, Part, Step, Outcome;
    var sv, s := env.services, t.server;
    if !Ready(s) {
      Waits(env, t, q);
    } else {
      PartShrinks(env, t);
      PartFacts(env, t);
      var t', s' := Part(env, t), Step(sv, s);
      DrainGrows(sv, s');
      if Sound(t'.mem) {
        var q' := if |s'.dispatched| == |s.dispatched| then q else q[1..];
        PrefixRest(s.dispatched, s'.dispatched, Drain(sv, s).dispatched, q);
        RunAgrees(env, t', q');
        GoesOn(env, t, Run(env, t), Drain(sv, s), q);
      } else {
        Breaks(env, t, q);
      }
    }
  }

  lemma PrefixRest<T>(a: seq<T>, b: seq<T>, c: seq<T>, q: seq<T>)
    requires a <= b <= c && c[|a|..] <= q && |b| <= |a| + 1
    ensures if |b| == |a| then c[|b|..] <= q else q != [] && q[0] == b[|a|] && c[|b|..] <= q[1..]
  {
    if |b| > |a| {
      assert c[|a|..][0] == c[|a|] == b[|a|];
      assert c[|a|..][1..] == c[|b|..];
    }
  }

  /** A sound part, and what comes of the rest. */
  lemma GoesOn(env: Env, t: Site, u: Site, s: Server, q: seq<Request>)
    requires Ready(t.server) && Sound(t.mem) && Sound(Part(env, t).mem)
    requires var n, n' := |t.server.dispatched|, |Part(env, t).server.dispatched|;
      && n <= n' <= n + 1 && (n' > n ==> q != [] && q[0] == Part(env, t).server.dispatched[n])
      && Outcome(env, Part(env, t), u, s, if n' == n then q else q[1..])
    ensures Outcome(env, t, u, s, q)
  {
    hide Loses, Part, Responded, Step, AllFit, Ready;
    PartFacts(env, t);
    var n, k := |t.server.dispatched|, |s.dispatched| - |t.server.dispatched|;
    if |Part(env, t).server.dispatched| > n {
      assert q[1..][k - 1..] == q[k..];
      FirstFits(env, t.mem.outbox, n, q);
    }
  }

  lemma FirstFits(env: Env, o: Outbox, k: nat, q: seq<Request>)
    requires q != []
    ensures AllFit(env, o, k, q) <==> Responded(env, o, k, q[0]).whole && AllFit(env, Responded(env, o, k, q[0]), k + 1, q[1..])
  {
  }

  /** A part after which the loop cannot go on, unless it has ended. */
  lemma Breaks(env: Env, t: Site, q: seq<Request>)
    requires Ready(t.server) && Sound(t.mem) && !Sound(Part(env, t).mem)
    requires var d := Drain(env.services, t.server).dispatched;
      t.server.dispatched <= d && d[|t.server.dispatched|..] <= q
    requires Step(env.services, t.server).dispatched <= Drain(env.services, t.server).dispatched
    ensures Outcome(env, t, Run(env, t), Drain(env.services, t.server), q)
  {
    PartFacts(env, t);
    hide Loses, Part, Responded, Step;
    var t' := Part(env, t);
    var s, s' := t.server, Step(env.services, t.server);
    assert Run(env, t) == t' by { PartShrinks(env, t); }
    if !t'.mem.outbox.whole {
      PrefixRest(s.dispatched, s'.dispatched, Drain(env.services, s).dispatched, q);
    } else if s'.phase.Stopped? {
      assert Drain(env.services, s) == s' by { StoppedStays(env.services, s'); }
      assert q[0..] == q;
    }
  }

  lemma StoppedStays(sv: Services, s: Server)
    requires s.phase.Stopped?
    ensures Drain(sv, s) == s
  {
  }

  // ---------------------------------------------------------------- a stream, read by read

  /** After these bytes of the stream the loop on the bytes alone waits or has ended, and the real one has done the same. */
  ghost predicate InStep(env: Env, t: Site, read: Bytes) {
    && t.server == Feed(env.services, InitialServer, read) && Sane(t) && t.mem.inbox.at == |read| % BLOCK_SIZE
  }

  /** The reads still to come end where they may. */
  predicate CleanAfter(sv: Services, read: Bytes, chunks: seq<Bytes>)
    decreases |chunks|
  {
    chunks == [] || (CleanCut(sv, read + chunks[0]) && CleanAfter(sv, read + chunks[0], chunks[1..]))
  }

  lemma FeedOn(sv: Services, read: Bytes, chunk: Bytes)
    ensures Feed(sv, InitialServer, read + chunk) == Drain(sv, More(Feed(sv, InitialServer, read), chunk))
    ensures Feed(sv, InitialServer, read).dispatched <= Feed(sv, InitialServer, read + chunk).dispatched
  {
    FeedTwice(sv, InitialServer, read, chunk);
    DrainGrows(sv, More(Feed(sv, InitialServer, read), chunk));
  }

  /** Whether the loop will read a length that is all there is only depends on where in the stream the read ended. */
  lemma CutLoses(sv: Services, read: Bytes, chunk: Bytes)
    requires chunk != []
    ensures EndsAt(sv, InitialServer, read + chunk) <==> Loses(sv, More(Feed(sv, InitialServer, read), chunk))
  {
    hide LastLengthByte, Drain;
    var n := |chunk| - 1;
    var s := More(Feed(sv, InitialServer, read), chunk);
    assert (read + chunk)[..|read| + n] == read + chunk[..n];
    assert ButLast(s) == More(Feed(sv, InitialServer, read), chunk[..n]);
    FeedOn(sv, read, chunk[..n]);
  }

  /** One read, and what comes of it. */
  lemma DeliverOutcome(env: Env, t: Site, read: Bytes, chunk: Bytes, q: seq<Request>)
    requires InStep(env, t, read) && chunk != []
    requires var d := Feed(env.services, InitialServer, read + chunk).dispatched;
      t.server.dispatched <= d && d[|t.server.dispatched|..] <= q
    ensures var sv, u, s := env.services, Deliver(env, t, chunk), Feed(env.services, InitialServer, read + chunk);
      || (InStep(env, u, read + chunk) && CleanCut(sv, read + chunk)
          && (AllFit(env, t.mem.outbox, |t.server.dispatched|, q) <==>
              AllFit(env, u.mem.outbox, |s.dispatched|, q[|s.dispatched| - |t.server.dispatched|..])))
      || (!Sane(u) && (!CleanCut(sv, read + chunk) || !AllFit(env, t.mem.outbox, |t.server.dispatched|, q)))
  {
    hide AllFit, Loses, Feed, Drain, EndsAt, Run;
    var sv := env.services;
    var t0 := Receive(t, chunk);
    FeedOn(sv, read, chunk);
    ReceivedSane(t, chunk, read);
    RunAgrees(env, t0, q);
    CutLoses(sv, read, chunk);
  }

  lemma ReceivedSane(t: Site, chunk: Bytes, read: Bytes)
    requires Sane(t) && t.mem.inbox.at == |read| % BLOCK_SIZE
    ensures Sane(Receive(t, chunk)) && Receive(t, chunk).mem.inbox.at == |read + chunk| % BLOCK_SIZE
    ensures Receive(t, chunk).mem.outbox == t.mem.outbox && Receive(t, chunk).server == More(t.server, chunk)
  {
  }

  /** Buffers the loop cannot work with stay as they are. */
  lemma {:induction false} InsaneStays(env: Env, t: Site, chunks: seq<Bytes>)
    requires !Sane(t)
    ensures !Sane(DeliverAll(env, t, chunks))
    decreases |chunks|
  {
    if chunks != [] {
      InsaneStays(env, Deliver(env, t, chunks[0]), chunks[1..]);
    }
  }

  lemma {:induction false} DeliverAllAgrees(env: Env, t: Site, read: Bytes, chunks: seq<Bytes>)
    requires InStep(env, t, read) && Deliverable(t.mem.inbox.at, chunks)
    ensures t.server.dispatched <= Feed(env.services, InitialServer, read + Joined(chunks)).dispatched
    ensures var u, s := DeliverAll(env, t, chunks), Feed(env.services, InitialServer, read + Joined(chunks));
      (u.server == s && Sane(u)) <==>
        CleanAfter(env.services, read, chunks) && AllFit(env, t.mem.outbox, |t.server.dispatched|, s.dispatched[|t.server.dispatched|..])
    decreases |chunks|
  {
    hide Feed, Run, EndsAt, Responded, CleanCut, Deliver, Sane;
    var sv := env.services;
    if chunks == [] {
      assert read + [] == read;
    } else {
      var c, rest := chunks[0], chunks[1..];
      Assoc(read, c, Joined(rest));
      FeedOn(sv, read, c);
      FeedOn(sv, read + c, Joined(rest));
      var s, s1, u := Feed(sv, InitialServer, read + Joined(chunks)), Feed(sv, InitialServer, read + c), Deliver(env, t, c);
      DispatchedRest(t.server.dispatched, s1.dispatched, s.dispatched);
      DeliverOutcome(env, t, read, c, s.dispatched[|t.server.dispatched|..]);
      if InStep(env, u, read + c) {
        NextAt(read, c);
        DeliverAllAgrees(env, u, read + c, rest);
        InStepSane(env, u, read + c);
      } else {
        InsaneStays(env, u, rest);
      }
    }
  }

  lemma InStepSane(env: Env, t: Site, read: Bytes)
    requires InStep(env, t, read)
    ensures Sane(t)
  {
  }

  lemma DispatchedRest<T>(a: seq<T>, b: seq<T>, c: seq<T>)
    requires a <= b <= c
    ensures a <= c && b[|a|..] <= c[|a|..] && c[|a|..][|b| - |a|..] == c[|b|..]
  {
  }

  lemma NextAt(read: Bytes, chunk: Bytes)
    ensures |read + chunk| % BLOCK_SIZE == AfterReceive(|read| % BLOCK_SIZE, |chunk|)
  {
  }

  lemma {:induction false} CleanByCuts(sv: Services, read: Bytes, chunks: seq<Bytes>)
    ensures CleanAfter(sv, read, chunks) <==> forall i :: 0 < i <= |chunks| ==> CleanCut(sv, read + Joined(chunks[..i]))
    decreases |chunks|
  {
    hide CleanCut;
    if chunks != [] {
      var c, rest := chunks[0], chunks[1..];
      CleanByCuts(sv, read + c, rest);
      assert forall i :: 0 < i <= |chunks| ==> read + Joined(chunks[..i]) == read + c + Joined(rest[..i - 1]) by {
        forall i | 0 < i <= |chunks| ensures read + Joined(chunks[..i]) == read + c + Joined(rest[..i - 1]) {
          assert chunks[..i][0] == c && chunks[..i][1..] == rest[..i - 1];
          Assoc(read, c, Joined(rest[..i - 1]));
        }
      }
      assert rest[..0] == [] && read + c + [] == read + c;
      if CleanAfter(sv, read, chunks) {
        forall i | 0 < i <= |chunks| ensures CleanCut(sv, read + Joined(chunks[..i])) {
          if i > 1 { assert CleanCut(sv, read + c + Joined(rest[..i - 1])); }
        }
      }
      if forall i :: 0 < i <= |chunks| ==> CleanCut(sv, read + Joined(chunks[..i])) {
        assert CleanCut(sv, read + Joined(chunks[..1]));
        forall j | 0 < j <= |rest| ensures CleanCut(sv, read + c + Joined(rest[..j])) {
          assert CleanCut(sv, read + Joined(chunks[..j + 1]));
        }
      }
    }
  }

  /**
   Main result. However a byte stream is split into reads: the server does with its buffers what it does on the
   bytes alone, and can go on, if and only if no read ends right after a length, other than on a block boundary,
   and every response fits the last block of the write buffer.
   */
  lemma DeliveredExactlyWhen(env: Env, chunks: seq<Bytes>)
    requires Deliverable(0, chunks)
    ensures var u, s := DeliverAll(env, Start, chunks), Feed(env.services, InitialServer, Joined(chunks));
      (u.server == s && Sane(u)) <==> CleanCuts(env.services, chunks) && AllFit(env, FreshMemory.outbox, 0, s.dispatched)
  {
    hide Feed, Run, EndsAt, Responded, CleanCut, Deliver, AllFit;
    assert InStep(env, Start, []) by { StartInStep(env); }
    DeliverAllAgrees(env, Start, [], chunks);
    CleanByCuts(env.services, [], chunks);
    assert [] + Joined(chunks) == Joined(chunks);
    forall i | 0 < i <= |chunks| ensures [] + Joined(chunks[..i]) == Joined(chunks[..i]) {}
    var d := Feed(env.services, InitialServer, Joined(chunks)).dispatched;
    assert d[0..] == d;
  }

  lemma StartInStep(env: Env)
    ensures InStep(env, Start, [])
  {
    assert InitialServer.readBuf + [] == [];
  }

  /**
   Main result: two ways to split a stream into reads, neither of which ends a read where it may not, have the same
   requests dispatched, the same responses written, and the same bytes left, in the same phase.
   */
  lemma ChunkingIndependence(env: Env, chunks: seq<Bytes>, others: seq<Bytes>)
    requires Deliverable(0, chunks) && Deliverable(0, others) && Joined(chunks) == Joined(others)
    requires CleanCuts(env.services, chunks) && CleanCuts(env.services, others)
    requires AllFit(env, FreshMemory.outbox, 0, Feed(env.services, InitialServer, Joined(chunks)).dispatched)
    ensures DeliverAll(env, Start, chunks).server == DeliverAll(env, Start, others).server
    ensures Sane(DeliverAll(env, Start, chunks)) && Sane(DeliverAll(env, Start, others))
  {
    hide *;
    DeliveredExactlyWhen(env, chunks);
    DeliveredExactlyWhen(env, others);
  }

  /** A read that delivers just the first length leaves the loop without a node, whatever comes after it. */
  lemma LengthAloneCrashes(env: Env, len: Bytes, chunks: seq<Bytes>)
    requires |len| == 4 && Value32(len) < LIMIT_MAX && Deliverable(0, [len] + chunks)
    ensures !Sane(DeliverAll(env, Start, [len] + chunks))
    ensures !Deliver(env, Start, len).mem.inbox.hasNode && Deliver(env, Start, len).server.phase == WantHeader(Value32(len))
  {
    assert ([len] + chunks)[1..] == chunks;
    assert InitialServer.readBuf + len == len;
    var t := Receive(Start, len);
    assert len[..4] == len && len[4..] == [];
    var t' := Part(env, t);
    assert Run(env, t) == Run(env, t') == t';
    InsaneStays(env, t', chunks);
  }

  // ---------------------------------------------------------------- what is dispatched only grows

  lemma {:induction false} RunGrows(env: Env, t: Site)
    ensures t.server.dispatched <= Run(env, t).server.dispatched && t.server.writeBuf <= Run(env, t).server.writeBuf
    decreases |t.server.readBuf|, Rank(t.server.phase)
  {
    if CanRun(t) {
      PartShrinks(env, t);
      PartGrows(env, t);
      var t' := Part(env, t);
      RunGrows(env, t');
      PrefixTrans(t.server.dispatched, t'.server.dispatched, Run(env, t').server.dispatched);
      PrefixTrans(t.server.writeBuf, t'.server.writeBuf, Run(env, t').server.writeBuf);
    }
  }

  lemma PartGrows(env: Env, t: Site)
    requires Ready(t.server)
    ensures t.server.dispatched <= Part(env, t).server.dispatched && t.server.writeBuf <= Part(env, t).server.writeBuf
  {
    hide Responded, ResponseFrame;
  }

  /** Main result: the requests dispatched after some reads are a prefix of those dispatched after more of them. */
  lemma {:induction false} DispatchedPrefix(env: Env, t: Site, chunks: seq<Bytes>)
    ensures t.server.dispatched <= DeliverAll(env, t, chunks).server.dispatched
    ensures t.server.writeBuf <= DeliverAll(env, t, chunks).server.writeBuf
    decreases |chunks|
  {
    hide Run;
    if chunks != [] {
      var t' := Deliver(env, t, chunks[0]);
      RunGrows(env, Receive(t, chunks[0]));
      DispatchedPrefix(env, t', chunks[1..]);
      PrefixTrans(t.server.dispatched, t'.server.dispatched, DeliverAll(env, t', chunks[1..]).server.dispatched);
      PrefixTrans(t.server.writeBuf, t'.server.writeBuf, DeliverAll(env, t', chunks[1..]).server.writeBuf);
    }
  }
}
