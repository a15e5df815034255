/** Runs of the two ends: one in which a small call is answered, and one in which a length that arrives alone breaks the server. */
module RpcWitness {
  import opened Base
  import opened BufferBlocks
  import opened Geometry
  import opened Memories
  import opened Varints
  import opened HeaderCodec
  import opened Frames
  import opened ServerLoop
  import opened BufferedServers
  import opened RpcProtocol
  import opened BufferedClients
  import opened RpcWorld

  /** A run of guarded steps that ends in `w`. */
  ghost predicate GuardedTo(sv: Services, w: World, run: seq<World>, moves: seq<Move>) {
    WorldRun(sv, run, moves) && run[|moves|] == w && forall n :: 0 <= n < |moves| ==> Guard(sv, run[n], moves[n])
  }

  ghost predicate Reached(sv: Services, w: World) {
    exists run, moves :: GuardedTo(sv, w, run, moves)
  }

  lemma Start(sv: Services)
    ensures Reached(sv, InitialWorld)
  {
    assert GuardedTo(sv, InitialWorld, [InitialWorld], []);
  }

  lemma Go(sv: Services, w: World, e: Move, w': World)
    requires Reached(sv, w) && Moves(sv, w, w', e) && Guard(sv, w, e)
    ensures Reached(sv, w')
  {
    hide Moves, Guard;
    var run, moves :| GuardedTo(sv, w, run, moves);
    assert GuardedTo(sv, w', run + [w'], moves + [e]);
  }

  // ---------------------------------------------------------------- a call is written

  function FrameOf(call: Call): Bytes {
    var r := RequestOf(0, call);
    Frame(r.header, r.body)
  }

  /** The world after one call. */
  function Called(call: Call): World {
    var f, c := FrameOf(call), Issue(InitialClient, call);
    World(System(c, InitialServer, [call]),
          FreshMemory.(outbox := WritesFrame(FreshMemory.outbox, |Serialize(RequestOf(0, call).header)|, |call.body|)), FreshMemory)
  }

  lemma CallReached(sv: Services, call: Call)
    requires Proper(sv, 0, call) && FrameFits(0, |Serialize(RequestOf(0, call).header)|, |call.body|)
    ensures Reached(sv, Called(call)) && Called(call).client.outbox.unsent == |FrameOf(call)| > 8
    ensures Called(call).system.client.writeBuf == FrameOf(call)
  {
    hide Served, Reached, GuardedTo, Serialize;
    Start(sv);
    assert [] + FrameOf(call) == FrameOf(call) && [] + [call] == [call];
    HeaderNonEmpty(call);
    Go(sv, InitialWorld, Invokes(call), Called(call));
  }

  lemma HeaderNonEmpty(call: Call)
    ensures |Serialize(RequestOf(0, call).header)| > 0 && |FrameOf(call)| == 8 + |Serialize(RequestOf(0, call).header)| + |call.body|
  {
    assert VarintField(8, MAGIC_NUM) != [];
    hide Serialize;
  }

  lemma ReachedInv(sv: Services, w: World)
    requires Reached(sv, w)
    ensures WorldInv(sv, w)
  {
    hide WorldInv, Moves, Guard;
    var run, moves :| GuardedTo(sv, w, run, moves);
    GuardedRun(sv, run, moves, |moves|);
  }

  /** The client's socket accepts `n` bytes of the call, and one read of the server delivers them. */
  lemma CallArrives(sv: Services, call: Call, n: nat) returns (w: World)
    requires Reached(sv, Called(call)) && Called(call).client.outbox.unsent == |FrameOf(call)|
    requires Called(call).system.client.writeBuf == FrameOf(call) && 0 < n <= |FrameOf(call)| && n <= BLOCK_SIZE
    ensures Reached(sv, w)
    ensures w.system == System(Issue(InitialClient, call).(writeBuf := FrameOf(call)[n..]), InitialServer.(readBuf := FrameOf(call)[..n]), [call])
    ensures w.server == FreshMemory.(inbox := Inbox(n % BLOCK_SIZE, true)) && w.client.inbox == FreshMemory.inbox
  {
    hide Reached, Serialize, FrameOf, WritesFrame, AfterSend;
    var w0 := Called(call);
    assert w0.client.outbox.whole by { ReachedInv(sv, w0); }
    var w1 := w0.(client := w0.client.(outbox := Sends(w0.client.outbox, n)));
    Go(sv, w0, ClientSends(n), w1);
    var c := w0.system.client;
    w := World(System(c.(writeBuf := c.writeBuf[n..]), InitialServer.(readBuf := [] + c.writeBuf[..n]), [call]),
               w1.client, w1.server.(inbox := Receives(w1.server.inbox, n)));
    assert [] + c.writeBuf[..n] == c.writeBuf[..n];
    Go(sv, w1, ServerReads(n), w);
  }

  /** A length that arrives alone: the next step of the server leaves it without a node. */
  lemma LengthAloneBreaks(sv: Services, call: Call) returns (w: World, w': World)
    requires Proper(sv, 0, call) && FrameFits(0, |Serialize(RequestOf(0, call).header)|, |call.body|)
    ensures Reached(sv, w) && Moves(sv, w, w', ServerWorks) && !w'.server.inbox.hasNode && !SafeWorld(sv, w')
  {
    hide Reached, Serialize, FrameOf, SafeWorld, Served, WorldInv;
    CallReached(sv, call);
    w := CallArrives(sv, call, 4);
    var t := Part(Env(sv, NoSends), ServerSite(w));
    w' := World(w.system.(server := t.server), w.client, t.mem);
    ReachedInv(sv, w);
    UnguardedBreaks(sv, w, w', ServerWorks);
  }

  // ---------------------------------------------------------------- a small call is answered

  /** The server runs through a whole frame that has arrived, and writes the response. */
  lemma {:induction false} ServerFinishes(sv: Services, w: World, r: Request) returns (u: World)
    requires Reached(sv, w) && Served(sv, r) && r.body != [] && Sound(w.server)
    requires InFrame(w.system.server.phase, w.system.server.readBuf, r.header, r.body, [])
    requires FrameFits(w.server.outbox.at, |Serialize(ResponseHeader(r.header.requestId))|, |ResponseBody(sv, r)|)
    ensures Reached(sv, u) && u.client == w.client && u.system == w.system.(server := Dispatched(sv, w.system.server, r, []))
    ensures u.server == w.server.(outbox := Responded(Env(sv, NoSends), w.server.outbox, 0, r))
    decreases FrameRank(w.system.server.phase)
  {
    hide Reached, Served, Serialize, InFrame, ResponseFrame, ResponseBody;
    var v := w.system.server;
    ServedStep(sv, v, r, []);
    LengthNotAlone(v, r);
    var t := Part(Env(sv, NoSends), ServerSite(w));
    u := World(w.system.(server := t.server), w.client, t.mem);
    if v.phase.WantBody? { BodyOf(sv, v, r); }
    Go(sv, w, ServerWorks, u);
    if !v.phase.WantBody? {
      u := ServerFinishes(sv, u, r);
    }
  }

  lemma LengthNotAlone(v: Server, r: Request)
    requires InFrame(v.phase, v.readBuf, r.header, r.body, []) && r.body != []
    ensures LengthPhase(v.phase) ==> |v.readBuf| > 4
  {
    hide Serialize;
  }

  lemma BodyOf(sv: Services, v: Server, r: Request)
    requires Served(sv, r) && InFrame(v.phase, v.readBuf, r.header, r.body, []) && v.phase.WantBody?
    ensures Ready(v) && Request(v.phase.header, v.readBuf[..Needed(v.phase)]) == r
    ensures Step(sv, v).dispatched == v.dispatched + [r]
  {
    hide Serialize, ResponseFrame;
    assert r.body + [] == r.body && v.readBuf[..|r.body|] == r.body;
  }

  /** The server's socket accepts the whole response, and one read of the client delivers it. */
  lemma ResponseArrives(sv: Services, w: World, f: Bytes) returns (u: World)
    requires Reached(sv, w) && w.system.server.writeBuf == f && w.server.outbox.unsent == |f| && w.server.outbox.whole
    requires 0 < |f| <= BLOCK_SIZE && w.client.inbox == Inbox(0, true)
    requires w.system.client.phase == WantHeaderLen && w.system.client.readBuf == []
    ensures Reached(sv, u) && u.client.inbox == Inbox(|f| % BLOCK_SIZE, true)
    ensures u.system == w.system.(client := w.system.client.(readBuf := f), server := w.system.server.(writeBuf := []))
  {
    hide Reached, AfterSend;
    var w1 := w.(server := w.server.(outbox := Sends(w.server.outbox, |f|)));
    Go(sv, w, ServerSends(|f|), w1);
    var s := w.system;
    u := World(System(s.client.(readBuf := s.client.readBuf + f[..|f|]), s.server.(writeBuf := f[|f|..]), s.issued),
               w1.client.(inbox := Receives(w1.client.inbox, |f|)), w1.server);
    assert [] + f[..|f|] == f && f[|f|..] == [];
    Go(sv, w1, ClientReads(|f|), u);
  }

  /** The client runs through a whole response and runs the callback. */
  lemma {:induction false} ClientFinishes(sv: Services, w: World, call: Call, body: Bytes) returns (u: World)
    requires Reached(sv, w) && 0 < |body| < LIMIT_MAX && w.client.inbox.hasNode
    requires InFrame(w.system.client.phase, w.system.client.readBuf, ResponseHeader(0), body, [])
    requires 0 in w.system.client.registry && w.system.client.registry[0] == call
    ensures Reached(sv, u) && u.system.server == w.system.server && u.system.issued == w.system.issued
    ensures u.system.client.completed == w.system.client.completed + [Completion(0, call, body)]
    ensures u.system.client.registry == w.system.client.registry - {0}
    decreases FrameRank(w.system.client.phase)
  {
    hide Reached, Serialize, InFrame;
    var c := w.system.client;
    ResponseStep(c, 0, body, [], call);
    ResponseLengths(c, body);
    var p := ClientPart(ClientSite(w));
    u := World(w.system.(client := p.client), p.mem, w.server);
    Go(sv, w, ClientWorks, u);
    if !c.phase.WantBody? {
      ResponsePhase(c, ClientStep(c), body);
      u := ClientFinishes(sv, u, call, body);
    }
  }

  lemma ResponseLengths(c: Client, body: Bytes)
    requires InFrame(c.phase, c.readBuf, ResponseHeader(0), body, []) && body != []
    ensures LengthPhase(c.phase) ==> |c.readBuf| > 4
  {
    hide Serialize;
  }

  /** Each part leads to the next phase. */
  lemma ResponsePhase(c: Client, c': Client, body: Bytes)
    requires ClientReady(c) && c' == ClientStep(c) && !c.phase.WantBody?
    requires InFrame(c'.phase, c'.readBuf, ResponseHeader(0), body, [])
    ensures FrameRank(c'.phase) < FrameRank(c.phase)
  {
    hide Serialize, Parse;
  }

  /** Guarded runs do answer: a call and an answer that are not empty and whose frames fit a block. */
  lemma SmallCallAnswered(sv: Services, call: Call) returns (w: World)
    requires Proper(sv, 0, call) && call.body != [] && Answer(sv, call) != []
    requires |FrameOf(call)| <= BLOCK_SIZE && |Serialize(ResponseHeader(0))| + |Answer(sv, call)| <= BLOCK_SIZE - 8
    ensures Reached(sv, w) && w.system.issued == [call]
    ensures w.system.client.completed == [Completion(0, call, Answer(sv, call))] && w.system.client.registry == map[]
  {
    hide Reached, Serialize, FrameOf, Frame, Served, Answer, ResponseFrame;
    var r, a := RequestOf(0, call), Answer(sv, call);
    HeaderNonEmpty(call);
    CallReached(sv, call);
    var n := |FrameOf(call)|;
    var w1 := CallArrives(sv, call, n);
    WholeFrame(call);
    AnswerBody(sv, call);
    var w2 := ServerFinishes(sv, w1, r);
    var f := ResponseFrame(sv, r);
    ResponseSize(sv, r, a);
    assert [] + f == f;
    var w3 := ResponseArrives(sv, w2, f);
    InFrameStart(ResponseHeader(0), a);
    w := ClientFinishes(sv, w3, call, a);
    assert map[0 := call] - {0} == map[];
  }

  lemma WholeFrame(call: Call)
    ensures var r := RequestOf(0, call);
      FrameOf(call)[..|FrameOf(call)|] == FrameOf(call) && InFrame(WantHeaderLen, FrameOf(call), r.header, r.body, [])
  {
    hide Frame;
    InFrameStart(RequestOf(0, call).header, call.body);
  }

  lemma AnswerBody(sv: Services, call: Call)
    ensures ResponseBody(sv, RequestOf(0, call)) == Answer(sv, call)
  {
  }

  lemma ResponseSize(sv: Services, r: Request, a: Bytes)
    requires a == ResponseBody(sv, r) && |a| < BLOCK_SIZE && r.header.requestId == 0
    ensures ResponseFrame(sv, r) == Frame(ResponseHeader(0), a)
    ensures |ResponseFrame(sv, r)| == 8 + |Serialize(ResponseHeader(0))| + |a|
  {
    hide Serialize, ResponseBody, Len32;
    assert |a| % TWO_32 == |a|;
    FrameLength(ResponseHeader(0), a);
  }
}
