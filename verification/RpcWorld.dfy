/**
 One channel and one server connection with their chained buffers, joined by two reliable first-in-first-out byte
 streams. A step that meets a full block, or a length that is all there is, leaves buffers that cannot be worked with.
 */
module RpcWorld {
  import opened Base
  import opened BufferBlocks
  import opened Geometry
  import opened Memories
  import opened Varints
  import opened HeaderCodec
  import opened Frames
  import opened ServerLoop
  import opened BufferedServers
  import opened RpcProtocol
  import opened BufferedClients

  /** Of the bytes an end has written and its peer not received, the last `unsent` are in its write buffer. */
  datatype World = World(system: System, client: Memory, server: Memory)

  const InitialWorld: World := World(InitialSystem, FreshMemory, FreshMemory)

  datatype Move =
    | Invokes(call: Call)      // CallMethod's closure runs
    | ClientSends(n: nat)      // the client's socket accepts n bytes
    | ServerReads(n: nat)      // one async_read of the server delivers n bytes
    | ServerWorks              // the server's receive loop does one part
    | ServerSends(n: nat)
    | ClientReads(n: nat)
    | ClientWorks

  function NoSends(k: nat): nat {
    0
  }

  /** What the client wrote that is on its way. */
  function ToServerWire(w: World): int {
    |w.system.client.writeBuf| - w.client.outbox.unsent
  }

  function ToClientWire(w: World): int {
    |w.system.server.writeBuf| - w.server.outbox.unsent
  }

  function ClientSite(w: World): Channel {
    Channel(w.system.client, w.client)
  }

  function ServerSite(w: World): Site {
    Site(w.system.server, w.server)
  }

  ghost predicate Moves(sv: Services, w: World, w': World, e: Move) {
    var s := w.system;
    var c, v := s.client, s.server;
    match e
    case Invokes(call) =>
      && Proper(sv, c.requestId, call) && w.client.outbox.whole
      && var p := Invoke(ClientSite(w), call);
         w' == World(System(p.client, v, s.issued + [call]), p.mem, w.server)
    case ClientSends(n) =>
      && w.client.outbox.whole && 0 < n <= w.client.outbox.unsent
      && w' == w.(client := w.client.(outbox := Sends(w.client.outbox, n)))
    case ServerReads(n) =>
      && 0 < n <= ToServerWire(w) && n <= BLOCK_SIZE - w.server.inbox.at && w.server.inbox.hasNode
      && !v.phase.Stopped? && !Ready(v)
      && w' == World(System(c.(writeBuf := c.writeBuf[n..]), v.(readBuf := v.readBuf + c.writeBuf[..n]), s.issued),
                     w.client, w.server.(inbox := Receives(w.server.inbox, n)))
    case ServerWorks =>
      && CanRun(ServerSite(w))
      && var t := Part(Env(sv, NoSends), ServerSite(w));
         w' == World(s.(server := t.server), w.client, t.mem)
    case ServerSends(n) =>
      && w.server.outbox.whole && 0 < n <= w.server.outbox.unsent
      && w' == w.(server := w.server.(outbox := Sends(w.server.outbox, n)))
    case ClientReads(n) =>
      && 0 < n <= ToClientWire(w) && n <= BLOCK_SIZE - w.client.inbox.at && w.client.inbox.hasNode
      && !c.phase.Stopped? && !ClientReady(c)
      && w' == World(System(c.(readBuf := c.readBuf + v.writeBuf[..n]), v.(writeBuf := v.writeBuf[n..]), s.issued),
                     w.client.(inbox := Receives(w.client.inbox, n)), w.server)
    case ClientWorks =>
      && ClientCanRun(ClientSite(w))
      && var p := ClientPart(ClientSite(w));
         w' == World(s.(client := p.client), p.mem, w.server)
  }

  ghost predicate WorldRun(sv: Services, run: seq<World>, moves: seq<Move>) {
    && |run| == |moves| + 1 && run[0] == InitialWorld
    && forall n :: 0 <= n < |moves| ==> Moves(sv, run[n], run[n + 1], moves[n])
  }

  /**
   What a step needs: room for what it serializes in the last block of the write buffer, and more than the length
   it reads, or a block boundary after it.
   */
  predicate Guard(sv: Services, w: World, e: Move) {
    var c, v := w.system.client, w.system.server;
    match e
    case Invokes(call) =>
      0 <= c.requestId < ID_END &&
      var r := RequestOf(c.requestId, call); FrameFits(w.client.outbox.at, |Serialize(r.header)|, |r.body|)
    case ServerWorks =>
      && (LengthPhase(v.phase) ==> !LosesNode(|v.readBuf|, w.server.inbox.at, 4))
      && (v.phase.WantBody? && Needed(v.phase) <= |v.readBuf| ==>
            var r := Request(v.phase.header, v.readBuf[..Needed(v.phase)]);
            FrameFits(w.server.outbox.at, |Serialize(ResponseHeader(r.header.requestId))|, |ResponseBody(sv, r)|))
    case ClientWorks => LengthPhase(c.phase) ==> !LosesNode(|c.readBuf|, w.client.inbox.at, 4)
    case _ => true
  }

  /** The protocol's promise, with buffers both ends can work with. */
  ghost predicate SafeWorld(sv: Services, w: World) {
    Safe(sv, w.system) && Sound(w.client) && Sound(w.server)
  }

  // ---------------------------------------------------------------- steps

  ghost predicate WorldInv(sv: Services, w: World) {
    && Inv(sv, w.system) && Sound(w.client) && Sound(w.server) && Placed(w.client) && Placed(w.server)
    && 0 <= ToServerWire(w) && 0 <= ToClientWire(w)
  }

  /** Where a step meets nothing bad it is a step of the two parties on the bytes alone, or moves no byte of theirs. */
  lemma GuardedKeeps(sv: Services, w: World, w': World, e: Move)
    requires WorldInv(sv, w) && Moves(sv, w, w', e) && Guard(sv, w, e)
    ensures WorldInv(sv, w')
  {
    match e
    case Invokes(call) => InvokeKeeps(sv, w, w', call);
    case ServerReads(n) => ReadKeeps(sv, w, w', e);
    case ClientReads(n) => ReadKeeps(sv, w, w', e);
    case ServerWorks => ServerWorkKeeps(sv, w, w');
    case ClientWorks => ClientWorkKeeps(sv, w, w');
    case _ => SendKeeps(sv, w, w', e);
  }

  lemma InvokeKeeps(sv: Services, w: World, w': World, call: Call)
    requires WorldInv(sv, w) && Moves(sv, w, w', Invokes(call)) && Guard(sv, w, Invokes(call))
    ensures WorldInv(sv, w')
  {
    hide Inv, Serialize, Proper;
    var c := w.system.client;
    var r := RequestOf(c.requestId, call);
    assert Next(sv, w.system, w'.system, Calls(call));
    NextKeeps(sv, w.system, w'.system, Calls(call));
    FrameFitsBounds(w.client.outbox.at, |Serialize(r.header)|, |r.body|);
    FrameLength(r.header, r.body);
  }

  lemma ReadKeeps(sv: Services, w: World, w': World, e: Move)
    requires WorldInv(sv, w) && Moves(sv, w, w', e) && (e.ServerReads? || e.ClientReads?)
    ensures WorldInv(sv, w')
  {
    hide Inv, Ready, ClientReady;
    if e.ServerReads? {
      NextKeeps(sv, w.system, w'.system, ToServer(e.n));
    } else {
      NextKeeps(sv, w.system, w'.system, ToClient(e.n));
    }
  }

  lemma SendKeeps(sv: Services, w: World, w': World, e: Move)
    requires WorldInv(sv, w) && Moves(sv, w, w', e) && (e.ServerSends? || e.ClientSends?)
    ensures WorldInv(sv, w')
  {
    hide Inv;
  }

  lemma ServerWorkKeeps(sv: Services, w: World, w': World)
    requires WorldInv(sv, w) && Moves(sv, w, w', ServerWorks) && Guard(sv, w, ServerWorks)
    ensures WorldInv(sv, w')
  {
    hide Inv, Step, Serialize, ResponseFrame, ResponseBody;
    ServerPart(sv, w);
    assert Next(sv, w.system, w'.system, ServerRuns);
    NextKeeps(sv, w.system, w'.system, ServerRuns);
  }

  /** A guarded part of the server loop is the part on the bytes, and what it writes stays unsent. */
  lemma ServerPart(sv: Services, w: World)
    requires CanRun(ServerSite(w)) && Placed(w.server) && 0 <= ToClientWire(w) && Guard(sv, w, ServerWorks)
    ensures var t := Part(Env(sv, NoSends), ServerSite(w));
      && t.server == Step(sv, w.system.server) && Sound(t.mem) && Placed(t.mem)
      && 0 <= |t.server.writeBuf| - t.mem.outbox.unsent
  {
    hide Serialize, ResponseBody, Parse;
    var v := w.system.server;
    if v.phase.WantBody? {
      var r := Request(v.phase.header, v.readBuf[..Needed(v.phase)]);
      var h, body := ResponseHeader(r.header.requestId), ResponseBody(sv, r);
      if FrameFits(w.server.outbox.at, |Serialize(h)|, |body|) {
        FrameFitsBounds(w.server.outbox.at, |Serialize(h)|, |body|);
        assert |ResponseFrame(sv, r)| == 8 + |Serialize(h)| + |body|;
      }
    }
  }

  lemma ClientWorkKeeps(sv: Services, w: World, w': World)
    requires WorldInv(sv, w) && Moves(sv, w, w', ClientWorks) && Guard(sv, w, ClientWorks)
    ensures WorldInv(sv, w')
  {
    hide Inv, Parse;
    assert ClientStep(w.system.client).writeBuf == w.system.client.writeBuf;
    hide ClientStep;
    assert Next(sv, w.system, w'.system, ClientRuns);
    NextKeeps(sv, w.system, w'.system, ClientRuns);
  }

  /** A step that meets something bad leaves buffers that cannot be worked with. */
  lemma UnguardedBreaks(sv: Services, w: World, w': World, e: Move)
    requires WorldInv(sv, w) && Moves(sv, w, w', e) && !Guard(sv, w, e)
    ensures !SafeWorld(sv, w')
  {
    hide Inv, Serialize, Safe, Served, Parse, ResponseBody, ResponseFrame;
    if e.ServerWorks? && !LengthPhase(w.system.server.phase) {
      BodyBreaks(sv, w);
      if w'.system.server.phase.Stopped? { StoppedUnsafe(sv, w'.system); }
    }
  }

  lemma BodyBreaks(sv: Services, w: World)
    requires CanRun(ServerSite(w)) && w.system.server.phase.WantBody? && !Guard(sv, w, ServerWorks)
    ensures var t := Part(Env(sv, NoSends), ServerSite(w)); !t.mem.outbox.whole || t.server.phase.Stopped?
  {
    hide Serialize, ResponseBody, ResponseFrame;
  }

  lemma StoppedUnsafe(sv: Services, s: System)
    requires s.server.phase.Stopped?
    ensures !Safe(sv, s)
  {
  }

  // ---------------------------------------------------------------- runs

  lemma InitialWorldInv(sv: Services)
    ensures WorldInv(sv, InitialWorld)
  {
    hide Inv;
    InitialInv(sv);
  }

  lemma {:induction false} GuardedRun(sv: Services, run: seq<World>, moves: seq<Move>, n: nat)
    requires WorldRun(sv, run, moves) && n <= |moves| && forall i :: 0 <= i < n ==> Guard(sv, run[i], moves[i])
    ensures WorldInv(sv, run[n])
  {
    hide WorldInv, Moves, Guard;
    if n == 0 {
      InitialWorldInv(sv);
    } else {
      GuardedRun(sv, run, moves, n - 1);
      GuardedKeeps(sv, run[n - 1], run[n], moves[n - 1]);
    }
  }

  lemma InvSafe(sv: Services, w: World)
    requires WorldInv(sv, w)
    ensures SafeWorld(sv, w)
  {
    hide IssuedOk, DispatchedOk, ServerFollows, ClientFollows, Safe;
  }

  /** The first step that is not guarded, if there is one. */
  lemma {:induction false} FirstUnguarded(sv: Services, run: seq<World>, moves: seq<Move>, n: nat)
    requires WorldRun(sv, run, moves) && n <= |moves|
    ensures (forall i :: 0 <= i < n ==> Guard(sv, run[i], moves[i])) || exists k :: 0 < k <= n && !SafeWorld(sv, run[k])
  {
    hide WorldInv, Moves, Guard, SafeWorld;
    if n > 0 {
      FirstUnguarded(sv, run, moves, n - 1);
      if (forall i :: 0 <= i < n - 1 ==> Guard(sv, run[i], moves[i])) && !Guard(sv, run[n - 1], moves[n - 1]) {
        GuardedRun(sv, run, moves, n - 1);
        UnguardedBreaks(sv, run[n - 1], run[n], moves[n - 1]);
      }
    }
  }

  /**
   Main result. A run of the two ends over their chained buffers keeps its promise in every state - each callback
   has run at most once, in order of calls, with the answer to its own request; the registry holds exactly the ids
   from answered to issued; no loop has stopped, and the buffers are sound - if and only if every step is guarded.
   */
  lemma ComposedSafety(sv: Services, run: seq<World>, moves: seq<Move>)
    requires WorldRun(sv, run, moves)
    ensures (forall n :: 0 <= n < |run| ==> SafeWorld(sv, run[n])) <==> (forall n :: 0 <= n < |moves| ==> Guard(sv, run[n], moves[n]))
  {
    hide WorldInv, Moves, Guard, SafeWorld;
    FirstUnguarded(sv, run, moves, |moves|);
    if forall n :: 0 <= n < |moves| ==> Guard(sv, run[n], moves[n]) {
      forall n | 0 <= n < |run| ensures SafeWorld(sv, run[n]) {
        GuardedRun(sv, run, moves, n);
        InvSafe(sv, run[n]);
      }
    }
  }

  /** Main result: a run of guarded steps that comes to rest has answered every call. */
  lemma QuietMeansAnswered(sv: Services, run: seq<World>, moves: seq<Move>)
    requires WorldRun(sv, run, moves) && Quiet(run[|moves|].system)
    requires forall n :: 0 <= n < |moves| ==> Guard(sv, run[n], moves[n])
    ensures var s := run[|moves|].system; |s.client.completed| == |s.issued| && s.client.registry == map[]
  {
    hide Moves, Guard, Inv;
    GuardedRun(sv, run, moves, |moves|);
    AtRest(sv, run[|moves|].system);
  }

  // ---------------------------------------------------------------- inputs that fail

  /** A call, or an answer, with a body of a whole block or more breaks every run it comes up in. */
  lemma BigBodiesBreak(sv: Services, w: World, w': World, call: Call)
    requires WorldInv(sv, w) && Moves(sv, w, w', Invokes(call)) && |call.body| >= BLOCK_SIZE
    ensures !SafeWorld(sv, w')
  {
    hide Inv, Served, SafeWorld, Serialize;
    var r := RequestOf(w.system.client.requestId, call);
    SomeTailFits(|Serialize(r.header)|, |r.body|);
    assert !Guard(sv, w, Invokes(call));
    UnguardedBreaks(sv, w, w', Invokes(call));
  }

  lemma BigAnswersBreak(sv: Services, w: World, w': World, r: Request)
    requires WorldInv(sv, w) && Moves(sv, w, w', ServerWorks) && w.system.server.phase.WantBody?
    requires r == Request(w.system.server.phase.header, w.system.server.readBuf[..Needed(w.system.server.phase)])
    requires |ResponseBody(sv, r)| >= BLOCK_SIZE
    ensures !SafeWorld(sv, w')
  {
    hide Inv, SafeWorld, Serialize, ResponseBody, Part;
    var h := ResponseHeader(r.header.requestId);
    SomeTailFits(|Serialize(h)|, |ResponseBody(sv, r)|);
    assert !Guard(sv, w, ServerWorks);
    UnguardedBreaks(sv, w, w', ServerWorks);
  }
}
