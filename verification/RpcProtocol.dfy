/**
 The client channel of client/client_channel.cpp, and the two-party protocol it forms with one server connection
 over two reliable first-in-first-out byte streams, on the bytes alone. Where the bytes lie, and what that does to
 the two ends, is the subject of `RpcWorld`.
 */
module RpcProtocol {
  import opened Base
  import opened Varints
  import opened HeaderCodec
  import opened Frames
  import opened ServerLoop

  /** What the caller passes to `CallMethod`, and, as the value of a session, the response and callback it waits with. */
  datatype Call = Call(service: Bytes, method_: Bytes, body: Bytes)

  /** One run of a callback. */
  datatype Completion = Completion(id: int, call: Call, response: Bytes)

  datatype Client = Client(
    phase: Phase, readBuf: Bytes, writeBuf: Bytes, requestId: int, registry: map<int, Call>,
    completed: seq<Completion>, notFound: nat)

  const InitialClient: Client := Client(WantHeaderLen, [], [], 0, map[], [], 0)

  const ID_END: int := 0x8000_0000_0000_0000

  function RequestOf(id: int, call: Call): Request
    requires 0 <= id < ID_END
  {
    Request(CallHeader(id, call.service, call.method_), call.body)
  }

  /** Lines 171-192: a frame is written, and a session registered under the next id. */
  function Issue(c: Client, call: Call): Client
    requires 0 <= c.requestId < ID_END
  {
    var r := RequestOf(c.requestId, call);
    c.(writeBuf := c.writeBuf + Frame(r.header, r.body), requestId := c.requestId + 1,
       registry := c.registry[c.requestId := call])
  }

  predicate ClientReady(c: Client) {
    !c.phase.Stopped? && Needed(c.phase) <= |c.readBuf|
  }

  /** One part of the receive loop, lines 60-145. A response to no session is not consumed. */
  function ClientStep(c: Client): Client
    requires ClientReady(c)
  {
    var n := Needed(c.phase);
    var taken, left := c.readBuf[..n], c.readBuf[n..];
    match c.phase
    case WantHeaderLen =>
      c.(readBuf := left, phase := if Value32(taken) < LIMIT_MAX then WantHeader(Value32(taken)) else Stopped(LongLength))
    case WantHeader(_) =>
      c.(readBuf := left, phase := match Parse(taken) case None => Stopped(BadHeader) case Some(h) => WantBodyLen(h))
    case WantBodyLen(h) =>
      c.(readBuf := left, phase := if Value32(taken) < LIMIT_MAX then WantBody(h, Value32(taken)) else Stopped(LongLength))
    case WantBody(h, _) =>
      if h.requestId !in c.registry then c.(phase := WantHeaderLen, notFound := c.notFound + 1)
      else
        c.(readBuf := left, phase := WantHeaderLen, registry := c.registry - {h.requestId},
           completed := c.completed + [Completion(h.requestId, c.registry[h.requestId], taken)])
  }

  // ---------------------------------------------------------------- the two parties

  /** `issued` is history: the calls made so far. */
  datatype System = System(client: Client, server: Server, issued: seq<Call>)

  datatype Event =
    | Calls(call: Call)      // CallMethod's closure runs
    | ToServer(n: nat)       // n bytes arrive at the server
    | ServerRuns             // the server's receive loop does one part
    | ToClient(n: nat)       // n bytes arrive at the client
    | ClientRuns             // the client's receive loop does one part

  /** A call that the server has a method for, whose request and response fit the format. */
  ghost predicate Proper(sv: Services, id: int, call: Call) {
    0 <= id < ID_END && Served(sv, RequestOf(id, call)) && |Answer(sv, call)| < LIMIT_MAX
  }

  /** What a caller can check: a registered method that accepts the body, names in UTF-8, and sizes in range. */
  lemma ProperWhen(sv: Services, id: int, call: Call)
    requires 0 <= id < ID_END
    requires call.service in sv.methods && call.method_ in sv.methods[call.service]
    requires sv.accepts(call.service, call.method_, call.body)
    requires ValidUtf8(call.service) && ValidUtf8(call.method_) && |call.service| + |call.method_| + 64 <= LIMIT_MAX
    requires |call.body| < LIMIT_MAX && |Answer(sv, call)| < LIMIT_MAX
    ensures Proper(sv, id, call)
  {
    hide ValidUtf8;
    CallHeaderFits(id, call.service, call.method_);
    hide Serialize;
  }

  lemma CallHeaderFits(id: Int64, service: Bytes, method_: Bytes)
    requires |service| + |method_| + 64 <= LIMIT_MAX
    ensures |Serialize(CallHeader(id, service, method_))| < LIMIT_MAX
  {
    SizeIsLength(MAGIC_NUM);
    SizeIsLength(1);
    SizeIsLength(ToUnsigned(id));
    SizeIsLength(|service|);
    SizeIsLength(|method_|);
    hide Encode;
  }

  function Answer(sv: Services, call: Call): Bytes {
    sv.answer(call.service, call.method_, call.body)
  }

  ghost predicate Next(sv: Services, s: System, s': System, e: Event) {
    var c, v := s.client, s.server;
    match e
    case Calls(call) =>
      Proper(sv, c.requestId, call) && s' == System(Issue(c, call), v, s.issued + [call])
    case ToServer(n) =>
      n <= |c.writeBuf| && s' == System(c.(writeBuf := c.writeBuf[n..]), v.(readBuf := v.readBuf + c.writeBuf[..n]), s.issued)
    case ServerRuns =>
      Ready(v) && s' == s.(server := Step(sv, v))
    case ToClient(n) =>
      n <= |v.writeBuf| && s' == System(c.(readBuf := c.readBuf + v.writeBuf[..n]), v.(writeBuf := v.writeBuf[n..]), s.issued)
    case ClientRuns =>
      ClientReady(c) && s' == s.(client := ClientStep(c))
  }

  const InitialSystem: System := System(InitialClient, InitialServer, [])

  // ---------------------------------------------------------------- the streams

  /** The frames of calls `k`, `k` + 1, ... */
  ghost function CallFrames(issued: seq<Call>, k: nat): Bytes
    requires |issued| <= ID_END
    decreases |issued| - k
  {
    if k >= |issued| then []
    else Frame(RequestOf(k, issued[k]).header, issued[k].body) + CallFrames(issued, k + 1)
  }

  /** The frames of the responses to calls `a` up to but not including `k`. */
  ghost function AnswerFrames(sv: Services, issued: seq<Call>, a: nat, k: nat): Bytes
    requires k <= |issued| <= ID_END
    decreases k - a
  {
    if a >= k then []
    else Frame(ResponseHeader(a), Answer(sv, issued[a])) + AnswerFrames(sv, issued, a + 1, k)
  }

  lemma {:induction false} CallFramesSnoc(issued: seq<Call>, call: Call, k: nat)
    requires |issued| < ID_END && k <= |issued|
    ensures CallFrames(issued + [call], k) == CallFrames(issued, k) + Frame(RequestOf(|issued|, call).header, call.body)
    decreases |issued| - k
  {
    hide Frame;
    var all := issued + [call];
    var last := Frame(RequestOf(|issued|, call).header, call.body);
    if k == |issued| {
      assert CallFrames(all, k + 1) == [];
      assert last + [] == [] + last;
    } else {
      CallFramesSnoc(issued, call, k + 1);
      Assoc(Frame(RequestOf(k, issued[k]).header, issued[k].body), CallFrames(issued, k + 1), last);
    }
  }

  lemma {:induction false} AnswerFramesSnoc(sv: Services, issued: seq<Call>, a: nat, k: nat)
    requires a <= k < |issued| <= ID_END
    ensures AnswerFrames(sv, issued, a, k + 1) ==
      AnswerFrames(sv, issued, a, k) + Frame(ResponseHeader(k), Answer(sv, issued[k]))
    decreases k - a
  {
    hide Frame;
    var last := Frame(ResponseHeader(k), Answer(sv, issued[k]));
    if a == k {
      assert last + [] == [] + last;
    } else {
      AnswerFramesSnoc(sv, issued, a + 1, k);
      Assoc(Frame(ResponseHeader(a), Answer(sv, issued[a])), AnswerFrames(sv, issued, a + 1, k), last);
    }
  }

  lemma {:induction false} AnswerFramesIssued(sv: Services, issued: seq<Call>, call: Call, a: nat, k: nat)
    requires k <= |issued| < ID_END
    ensures AnswerFrames(sv, issued + [call], a, k) == AnswerFrames(sv, issued, a, k)
    decreases k - a
  {
    if a < k { AnswerFramesIssued(sv, issued, call, a + 1, k); }
  }

  // ---------------------------------------------------------------- the invariant

  /** The bytes on their way to the server are what is left of the frame it is in, and the frames after it. */
  ghost predicate ServerFollows(s: System) {
    var k := |s.server.dispatched|;
    && k <= |s.issued| <= ID_END
    && var r := s.server.readBuf + s.client.writeBuf;
       if k < |s.issued|
       then InFrame(s.server.phase, r, RequestOf(k, s.issued[k]).header, s.issued[k].body, CallFrames(s.issued, k + 1))
       else s.server.phase == WantHeaderLen && r == []
  }

  /** The same for the responses on their way to the client. */
  ghost predicate ClientFollows(sv: Services, s: System) {
    var a, k := |s.client.completed|, |s.server.dispatched|;
    && a <= k <= |s.issued| <= ID_END
    && var r := s.client.readBuf + s.server.writeBuf;
       if a < k
       then InFrame(s.client.phase, r, ResponseHeader(a), Answer(sv, s.issued[a]), AnswerFrames(sv, s.issued, a + 1, k))
       else s.client.phase == WantHeaderLen && r == []
  }

  /** The calls made so far are proper, and the client's next id is their number. */
  ghost predicate IssuedOk(sv: Services, s: System) {
    && s.client.requestId == |s.issued| <= ID_END
    && forall i :: 0 <= i < |s.issued| ==> Proper(sv, i, s.issued[i])
  }

  ghost predicate DispatchedOk(s: System) {
    && |s.server.dispatched| <= |s.issued| <= ID_END
    && forall i :: 0 <= i < |s.server.dispatched| ==> s.server.dispatched[i] == RequestOf(i, s.issued[i])
  }

  /**
   What the protocol promises: callbacks have run once each, in order of calls, with the answer to their own
   request; exactly the other calls have a session, under their own ids; and no response was for no session.
   */
  ghost predicate Safe(sv: Services, s: System) {
    var a := |s.client.completed|;
    && a <= |s.issued|
    && (forall i :: 0 <= i < a ==> s.client.completed[i] == Completion(i, s.issued[i], Answer(sv, s.issued[i])))
    && s.client.registry == (map i: int | a <= i < |s.issued| :: s.issued[i])
    && s.client.notFound == 0
    && !s.client.phase.Stopped? && !s.server.phase.Stopped?
  }

  ghost predicate Inv(sv: Services, s: System) {
    IssuedOk(sv, s) && DispatchedOk(s) && ServerFollows(s) && ClientFollows(sv, s) && Safe(sv, s)
  }

  // ---------------------------------------------------------------- steps keep it

  lemma InFrameMore(phase: Phase, r: Bytes, h: Header, body: Bytes, rest: Bytes, x: Bytes)
    requires InFrame(phase, r, h, body, rest)
    ensures InFrame(phase, r + x, h, body, rest + x)
  {
    hide Serialize, Len32, Frame;
    Assoc(body, rest, x);
    Assoc(Len32(|body|), body + rest, x);
    Assoc(Serialize(h), Len32(|body|) + (body + rest), x);
    Assoc(Frame(h, body), rest, x);
  }

  /** A loop that has dealt with every frame starts on the next. */
  lemma InFrameStart(h: Header, body: Bytes)
    ensures InFrame(WantHeaderLen, Frame(h, body), h, body, [])
  {
    assert Frame(h, body) + [] == Frame(h, body);
  }

  lemma CallsKeeps(sv: Services, s: System, s': System, call: Call)
    requires Inv(sv, s) && Next(sv, s, s', Calls(call))
    ensures Inv(sv, s')
  {
    hide InFrame, Frame, Served, Safe;
    var k, n := |s.server.dispatched|, |s.issued|;
    var x := Frame(RequestOf(n, call).header, call.body);
    var r := s.server.readBuf + s.client.writeBuf;
    Assoc(s.server.readBuf, s.client.writeBuf, x);
    if k < n {
      InFrameMore(s.server.phase, r, RequestOf(k, s.issued[k]).header, s.issued[k].body, CallFrames(s.issued, k + 1), x);
      CallFramesSnoc(s.issued, call, k + 1);
    } else {
      InFrameStart(RequestOf(n, call).header, call.body);
      assert [] + x == x;
      assert CallFrames(s'.issued, k + 1) == [];
    }
    AnswerFramesIssued(sv, s.issued, call, |s.client.completed| + 1, k);
    CallsSafe(sv, s, s', call);
  }

  lemma CallsSafe(sv: Services, s: System, s': System, call: Call)
    requires IssuedOk(sv, s) && Safe(sv, s) && Next(sv, s, s', Calls(call))
    ensures Safe(sv, s')
  {
    hide Frame, Served;
  }

  lemma TransferKeeps(sv: Services, s: System, s': System, e: Event)
    requires Inv(sv, s) && Next(sv, s, s', e) && (e.ToServer? || e.ToClient?)
    ensures Inv(sv, s')
  {
    hide InFrame, Frame, Served, CallFrames, AnswerFrames, Proper;
    if e.ToServer? {
      Moved(s.server.readBuf, s.client.writeBuf, e.n);
    } else {
      Moved(s.client.readBuf, s.server.writeBuf, e.n);
    }
  }

  lemma Moved(a: Bytes, b: Bytes, n: nat)
    requires n <= |b|
    ensures (a + b[..n]) + b[n..] == a + b
  {
  }

  lemma ServerKeeps(sv: Services, s: System, s': System)
    requires Inv(sv, s) && Next(sv, s, s', ServerRuns)
    ensures Inv(sv, s')
  {
    hide InFrame, Frame, Served, Step, Ready, ResponseFrame, Needed, Safe, CallFrames, AnswerFrames;
    var k := |s.server.dispatched|;
    StepMore(sv, s.server, s.client.writeBuf);
    if k == |s.issued| {
      NotReady(s.server);
    } else {
      var r := RequestOf(k, s.issued[k]);
      var ahead := More(s.server, s.client.writeBuf);
      ServedStep(sv, ahead, r, CallFrames(s.issued, k + 1));
      var next := Step(sv, s.server);
      MoreFields(next, s.client.writeBuf);
      if s.server.phase.WantBody? {
        NextFrame(s.issued, k + 1);
        Answered(sv, s, r);
      } else {
        InFrameGoesOn(next.phase, next.readBuf + s.client.writeBuf, r.header, r.body, CallFrames(s.issued, k + 1));
      }
      ServerSafe(sv, s, s');
    }
  }

  lemma InFrameGoesOn(phase: Phase, r: Bytes, h: Header, body: Bytes, rest: Bytes)
    requires InFrame(phase, r, h, body, rest)
    ensures !phase.Stopped?
  {
  }

  lemma NotReady(v: Server)
    requires v.phase == WantHeaderLen && v.readBuf == []
    ensures !Ready(v)
  {
  }

  lemma MoreFields(v: Server, x: Bytes)
    ensures var w := More(v, x);
      w.phase == v.phase && w.readBuf == v.readBuf + x && w.writeBuf == v.writeBuf && w.dispatched == v.dispatched
  {
  }

  /** After a frame comes the next one, or nothing. */
  lemma NextFrame(issued: seq<Call>, k: nat)
    requires k <= |issued| <= ID_END
    ensures if k < |issued|
      then InFrame(WantHeaderLen, CallFrames(issued, k), RequestOf(k, issued[k]).header, issued[k].body, CallFrames(issued, k + 1))
      else CallFrames(issued, k) == []
  {
  }

  /** What the server writes for a dispatched request extends the stream the client follows. */
  lemma Answered(sv: Services, s: System, r: Request)
    requires ClientFollows(sv, s) && |s.server.dispatched| < |s.issued|
    requires var k := |s.server.dispatched|; Proper(sv, k, s.issued[k]) && r == RequestOf(k, s.issued[k])
    ensures var v := s.server;
      var k := |v.dispatched|;
      ClientFollows(sv, s.(server := v.(writeBuf := v.writeBuf + ResponseFrame(sv, r), dispatched := v.dispatched + [r])))
  {
    hide Served, InFrame, Frame;
    var a, k := |s.client.completed|, |s.server.dispatched|;
    var x := ResponseFrame(sv, r);
    ResponseIsFrame(sv, s, r);
    Assoc(s.client.readBuf, s.server.writeBuf, x);
    if a < k {
      InFrameMore(s.client.phase, s.client.readBuf + s.server.writeBuf, ResponseHeader(a), Answer(sv, s.issued[a]),
        AnswerFrames(sv, s.issued, a + 1, k), x);
      AnswerFramesSnoc(sv, s.issued, a + 1, k);
    } else {
      InFrameStart(ResponseHeader(k), Answer(sv, s.issued[k]));
      assert [] + x == x;
    }
  }

  lemma ResponseIsFrame(sv: Services, s: System, r: Request)
    requires |s.server.dispatched| < |s.issued| && var k := |s.server.dispatched|;
      Proper(sv, k, s.issued[k]) && r == RequestOf(k, s.issued[k])
    ensures var k := |s.server.dispatched|; ResponseFrame(sv, r) == Frame(ResponseHeader(k), Answer(sv, s.issued[k]))
  {
    hide Serialize, Served;
  }

  lemma ServerSafe(sv: Services, s: System, s': System)
    requires Safe(sv, s) && s' == s.(server := s'.server) && !s'.server.phase.Stopped?
    ensures Safe(sv, s')
  {
  }

  function MoreClient(c: Client, x: Bytes): Client {
    c.(readBuf := c.readBuf + x)
  }

  lemma ClientStepMore(c: Client, x: Bytes)
    requires ClientReady(c)
    ensures ClientReady(MoreClient(c, x)) && ClientStep(MoreClient(c, x)) == MoreClient(ClientStep(c), x)
  {
    hide Parse;
    var n := Needed(c.phase);
    assert (c.readBuf + x)[..n] == c.readBuf[..n];
    assert (c.readBuf + x)[n..] == c.readBuf[n..] + x;
  }

  /** One part of the loop, inside the frame of the response to call `a`. */
  lemma ResponseStep(c: Client, a: int, body: Bytes, rest: Bytes, call: Call)
    requires 0 <= a < ID_END && |body| < LIMIT_MAX
    requires InFrame(c.phase, c.readBuf, ResponseHeader(a), body, rest)
    requires a in c.registry && c.registry[a] == call
    ensures ClientReady(c)
    ensures var c' := ClientStep(c);
      if c.phase.WantBody?
      then c' == c.(phase := WantHeaderLen, readBuf := rest, registry := c.registry - {a},
                    completed := c.completed + [Completion(a, call, body)])
      else c' == c.(phase := c'.phase, readBuf := c'.readBuf) && InFrame(c'.phase, c'.readBuf, ResponseHeader(a), body, rest)
  {
    ResponseHeaderFits(a);
    hide InFrame, Parse, Serialize, ValidUtf8, Frame;
    InFrameTake(c.phase, c.readBuf, ResponseHeader(a), body, rest);
  }

  lemma ClientKeeps(sv: Services, s: System, s': System)
    requires Inv(sv, s) && Next(sv, s, s', ClientRuns)
    ensures Inv(sv, s')
  {
    hide InFrame, Frame, Served, ClientStep, ClientReady, Needed, Safe, CallFrames, AnswerFrames;
    var a, k := |s.client.completed|, |s.server.dispatched|;
    ClientStepMore(s.client, s.server.writeBuf);
    if a == k {
      ClientNotReady(s.client);
    } else {
      HasSession(sv, s);
      ResponseStep(MoreClient(s.client, s.server.writeBuf), a, Answer(sv, s.issued[a]), AnswerFrames(sv, s.issued, a + 1, k), s.issued[a]);
      var next := ClientStep(s.client);
      ClientMoreFields(s.client, next, s.server.writeBuf);
      if s.client.phase.WantBody? {
        NextAnswer(sv, s.issued, a + 1, k);
      } else {
        InFrameGoesOn(next.phase, next.readBuf + s.server.writeBuf, ResponseHeader(a), Answer(sv, s.issued[a]),
          AnswerFrames(sv, s.issued, a + 1, k));
      }
      ClientSafe(sv, s, s');
    }
  }

  lemma ClientNotReady(c: Client)
    requires c.phase == WantHeaderLen && c.readBuf == []
    ensures !ClientReady(c)
  {
  }

  /** The call whose response is awaited has a session. */
  lemma HasSession(sv: Services, s: System)
    requires Safe(sv, s) && |s.client.completed| < |s.issued|
    ensures var a := |s.client.completed|; a in s.client.registry && s.client.registry[a] == s.issued[a]
  {
  }

  lemma ClientMoreFields(c: Client, c': Client, x: Bytes)
    ensures MoreClient(c', x) == c'.(readBuf := c'.readBuf + x) && MoreClient(c, x) == c.(readBuf := c.readBuf + x)
  {
  }

  lemma NextAnswer(sv: Services, issued: seq<Call>, a: nat, k: nat)
    requires a <= k <= |issued| <= ID_END
    ensures if a < k
      then InFrame(WantHeaderLen, AnswerFrames(sv, issued, a, k), ResponseHeader(a), Answer(sv, issued[a]), AnswerFrames(sv, issued, a + 1, k))
      else AnswerFrames(sv, issued, a, k) == []
  {
  }

  lemma ClientSafe(sv: Services, s: System, s': System)
    requires Safe(sv, s) && |s.client.completed| < |s.issued|
    requires s' == s.(client := s'.client) && !s'.client.phase.Stopped?
    requires var a, c := |s.client.completed|, s.client;
      || s'.client == c.(phase := s'.client.phase, readBuf := s'.client.readBuf)
      || s'.client == c.(phase := s'.client.phase, readBuf := s'.client.readBuf, registry := c.registry - {a},
                         completed := c.completed + [Completion(a, s.issued[a], Answer(sv, s.issued[a]))])
    ensures Safe(sv, s')
  {
  }

  lemma NextKeeps(sv: Services, s: System, s': System, e: Event)
    requires Inv(sv, s) && Next(sv, s, s', e)
    ensures Inv(sv, s')
  {
    hide Inv;
    match e
    case Calls(call) => CallsKeeps(sv, s, s', call);
    case ServerRuns => ServerKeeps(sv, s, s');
    case ClientRuns => ClientKeeps(sv, s, s');
    case _ => TransferKeeps(sv, s, s', e);
  }

  lemma InitialInv(sv: Services)
    ensures Inv(sv, InitialSystem)
  {
  }

  /** Nothing is on its way and neither loop has enough bytes to go on. */
  ghost predicate Quiet(s: System) {
    s.client.writeBuf == [] && s.server.writeBuf == [] && !Ready(s.server) && !ClientReady(s.client)
  }

  lemma AtRest(sv: Services, s: System)
    requires Inv(sv, s) && Quiet(s)
    ensures |s.client.completed| == |s.issued| && s.client.registry == map[]
  {
    hide InFrame, Frame, Serialize, Parse, CallFrames, AnswerFrames;
    var a, k := |s.client.completed|, |s.server.dispatched|;
    assert s.server.readBuf + [] == s.server.readBuf && s.client.readBuf + [] == s.client.readBuf;
    if k < |s.issued| {
      assert Proper(sv, k, s.issued[k]);
      InFrameTake(s.server.phase, s.server.readBuf, RequestOf(k, s.issued[k]).header, s.issued[k].body, CallFrames(s.issued, k + 1));
      assert false;
    }
    if a < k {
      assert Proper(sv, a, s.issued[a]);
      ResponseHeaderFits(a);
      InFrameTake(s.client.phase, s.client.readBuf, ResponseHeader(a), Answer(sv, s.issued[a]), AnswerFrames(sv, s.issued, a + 1, k));
      assert false;
    }
  }
}
