/**
 The receive loop of one server connection, server/rpc_server.cpp:38-147, on the bytes alone: a parser that can be
 suspended wherever it waits for bytes, which dispatches requests and writes responses. Where the bytes lie, and
 what that does to the loop, is the subject of `BufferedServers`.
 */
module ServerLoop {
  import opened Base
  import opened Varints
  import opened HeaderCodec
  import opened Frames

  /** The registered services: their methods, which request bodies parse, and the body each call answers with. */
  datatype Services = Services(
    methods: map<Bytes, set<Bytes>>,
    accepts: (Bytes, Bytes, Bytes) -> bool,
    answer: (Bytes, Bytes, Bytes) -> Bytes)

  datatype Request = Request(header: Header, body: Bytes)

  /** `readBuf` holds the bytes received and not consumed, `writeBuf` all that was written. */
  datatype Server = Server(phase: Phase, readBuf: Bytes, writeBuf: Bytes, dispatched: seq<Request>)

  const InitialServer: Server := Server(WantHeaderLen, [], [], [])

  function NameOf(name: Option<Bytes>): Bytes {
    if name.Some? then name.value else []
  }

  function ResponseBody(sv: Services, r: Request): Bytes {
    sv.answer(NameOf(r.header.serviceName), NameOf(r.header.methodName), r.body)
  }

  /** Lines 133-144; the body length is truncated to 32 bits. */
  function ResponseFrame(sv: Services, r: Request): Bytes {
    var h := ResponseHeader(r.header.requestId);
    var body := ResponseBody(sv, r);
    Len32(|Serialize(h)|) + (Serialize(h) + (Len32(|body| % TWO_32) + body))
  }

  // ---------------------------------------------------------------- the loop between two waits

  /** What the loop does with the bytes it waited for. */
  function Consume(sv: Services, s: Server, taken: Bytes): Server
    requires |taken| == Needed(s.phase)
  {
    match s.phase
    case WantHeaderLen =>
      s.(phase := if Value32(taken) < LIMIT_MAX then WantHeader(Value32(taken)) else Stopped(LongLength))
    case WantHeader(_) =>
      s.(phase := match Parse(taken)
                  case None => Stopped(BadHeader)
                  case Some(h) => if h.magic != MAGIC_NUM then Stopped(BadMagic)
                                  else if h.version != VERSION then Stopped(BadVersion)
                                  else WantBodyLen(h))
    case WantBodyLen(h) =>
      var service, method_ := NameOf(h.serviceName), NameOf(h.methodName);
      s.(phase := if service !in sv.methods then Stopped(NoService)
                  else if method_ !in sv.methods[service] then Stopped(NoMethod)
                  else if Value32(taken) < LIMIT_MAX then WantBody(h, Value32(taken)) else Stopped(LongLength))
    case WantBody(h, _) =>
      if !sv.accepts(NameOf(h.serviceName), NameOf(h.methodName), taken) then s.(phase := Stopped(BadBody))
      else
        var r := Request(h, taken);
        s.(phase := WantHeaderLen, writeBuf := s.writeBuf + ResponseFrame(sv, r), dispatched := s.dispatched + [r])
    case Stopped(_) => s
  }

  predicate Ready(s: Server) {
    !s.phase.Stopped? && Needed(s.phase) <= |s.readBuf|
  }

  function Step(sv: Services, s: Server): Server
    requires Ready(s)
  {
    var n := Needed(s.phase);
    Consume(sv, s.(readBuf := s.readBuf[n..]), s.readBuf[..n])
  }

  function Rank(phase: Phase): nat {
    if phase.WantHeader? || phase.WantBody? then 1 else 0
  }

  /** The loop runs until it has to wait or stops. */
  function Drain(sv: Services, s: Server): Server
    decreases |s.readBuf|, Rank(s.phase)
  {
    if Ready(s) then Drain(sv, Step(sv, s)) else s
  }

  /** A read delivers `bytes` and the loop goes on. */
  function Feed(sv: Services, s: Server, bytes: Bytes): Server {
    Drain(sv, s.(readBuf := s.readBuf + bytes))
  }

  function Joined(chunks: seq<Bytes>): Bytes {
    if chunks == [] then [] else chunks[0] + Joined(chunks[1..])
  }

  // ---------------------------------------------------------------- chunking does not matter

  function More(s: Server, bytes: Bytes): Server {
    s.(readBuf := s.readBuf + bytes)
  }

  /** A step only looks at the front of the buffer. */
  lemma StepMore(sv: Services, s: Server, bytes: Bytes)
    requires Ready(s)
    ensures Ready(More(s, bytes)) && Step(sv, More(s, bytes)) == More(Step(sv, s), bytes)
  {
    var n := Needed(s.phase);
    assert (s.readBuf + bytes)[..n] == s.readBuf[..n];
    assert (s.readBuf + bytes)[n..] == s.readBuf[n..] + bytes;
  }

  /** Running the loop early, before more bytes come, makes no difference. */
  lemma {:induction false} DrainMore(sv: Services, s: Server, bytes: Bytes)
    ensures Drain(sv, More(Drain(sv, s), bytes)) == Drain(sv, More(s, bytes))
    decreases |s.readBuf|, Rank(s.phase)
  {
    if Ready(s) {
      StepMore(sv, s, bytes);
      DrainMore(sv, Step(sv, s), bytes);
    }
  }

  lemma FeedTwice(sv: Services, s: Server, a: Bytes, b: Bytes)
    ensures Feed(sv, Feed(sv, s, a), b) == Feed(sv, s, a + b)
  {
    DrainMore(sv, More(s, a), b);
    assert s.readBuf + a + b == s.readBuf + (a + b);
  }

  lemma {:induction false} DrainGrows(sv: Services, s: Server)
    ensures s.dispatched <= Drain(sv, s).dispatched && s.writeBuf <= Drain(sv, s).writeBuf
    decreases |s.readBuf|, Rank(s.phase)
  {
    if Ready(s) {
      var s' := Step(sv, s);
      DrainGrows(sv, s');
      PrefixTrans(s.dispatched, s'.dispatched, Drain(sv, s').dispatched);
      PrefixTrans(s.writeBuf, s'.writeBuf, Drain(sv, s').writeBuf);
    }
  }

  lemma PrefixTrans<T>(a: seq<T>, b: seq<T>, c: seq<T>)
    requires a <= b <= c
    ensures a <= c
  {
  }

  // ---------------------------------------------------------------- frames of well-formed requests

  /** A request that the server dispatches: it fits the format, and names a method that accepts the body. */
  ghost predicate Served(sv: Services, r: Request) {
    && Fits(r.header, r.body) && r.header.magic == MAGIC_NUM && r.header.version == VERSION
    && NameOf(r.header.serviceName) in sv.methods
    && NameOf(r.header.methodName) in sv.methods[NameOf(r.header.serviceName)]
    && sv.accepts(NameOf(r.header.serviceName), NameOf(r.header.methodName), r.body)
  }

  /** One step in a frame: on to the next part, or the request is dispatched. */
  lemma ServedStep(sv: Services, s: Server, r: Request, rest: Bytes)
    requires Served(sv, r) && InFrame(s.phase, s.readBuf, r.header, r.body, rest)
    ensures Ready(s)
    ensures var s' := Step(sv, s);
      if s.phase.WantBody? then s' == Dispatched(sv, s, r, rest)
      else s' == s.(phase := s'.phase, readBuf := s'.readBuf) && InFrame(s'.phase, s'.readBuf, r.header, r.body, rest)
           && FrameRank(s'.phase) < FrameRank(s.phase)
  {
    hide Frame, InFrame, Parse, ResponseFrame, Serialize, ValidUtf8;
    InFrameTake(s.phase, s.readBuf, r.header, r.body, rest);
  }

  function FrameRank(phase: Phase): nat {
    match phase
    case WantHeaderLen => 3
    case WantHeader(_) => 2
    case WantBodyLen(_) => 1
    case WantBody(_, _) => 0
    case Stopped(_) => 0
  }

  function Dispatched(sv: Services, s: Server, r: Request, rest: Bytes): Server {
    Server(WantHeaderLen, rest, s.writeBuf + ResponseFrame(sv, r), s.dispatched + [r])
  }

  /** The rest of a frame, followed by any bytes, dispatches its request and leaves those bytes. */
  lemma {:induction false} FrameDispatched(sv: Services, s: Server, r: Request, rest: Bytes)
    requires Served(sv, r) && InFrame(s.phase, s.readBuf, r.header, r.body, rest)
    ensures Drain(sv, s) == Drain(sv, Dispatched(sv, s, r, rest))
    decreases FrameRank(s.phase)
  {
    hide Served, InFrame, ResponseFrame, Step;
    ServedStep(sv, s, r, rest);
    var s' := Step(sv, s);
    if !s.phase.WantBody? {
      FrameDispatched(sv, s', r, rest);
    }
  }

  function FramesOf(requests: seq<Request>): Bytes {
    if requests == [] then [] else Frame(requests[0].header, requests[0].body) + FramesOf(requests[1..])
  }

  function ResponsesOf(sv: Services, requests: seq<Request>): Bytes {
    if requests == [] then [] else ResponseFrame(sv, requests[0]) + ResponsesOf(sv, requests[1..])
  }

  /**
   The frames of any list of requests, followed by any bytes, are decoded to exactly those headers and bodies,
   answered in order, and the bytes after them are left.
   */
  lemma {:induction false} FramesFed(sv: Services, s: Server, requests: seq<Request>, trailing: Bytes)
    requires s.phase == WantHeaderLen && s.readBuf == []
    requires forall r :: r in requests ==> Served(sv, r)
    ensures Feed(sv, s, FramesOf(requests) + trailing) ==
      Drain(sv, Server(WantHeaderLen, trailing, s.writeBuf + ResponsesOf(sv, requests), s.dispatched + requests))
    decreases |requests|
  {
    hide Served, ResponseFrame, Drain, Frame;
    if requests == [] {
      assert [] + (FramesOf(requests) + trailing) == trailing;
      assert s.dispatched + requests == s.dispatched && s.writeBuf + [] == s.writeBuf;
    } else {
      var r, rest := requests[0], FramesOf(requests[1..]) + trailing;
      Assoc(Frame(r.header, r.body), FramesOf(requests[1..]), trailing);
      var start := More(s, FramesOf(requests) + trailing);
      assert start.readBuf == Frame(r.header, r.body) + rest;
      FrameDispatched(sv, start, r, rest);
      var s' := Server(WantHeaderLen, [], s.writeBuf + ResponseFrame(sv, r), s.dispatched + [r]);
      assert More(s', rest) == Dispatched(sv, start, r, rest);
      FramesFed(sv, s', requests[1..], trailing);
      Assoc(s.writeBuf, ResponseFrame(sv, r), ResponsesOf(sv, requests[1..]));
      assert s.dispatched + [r] + requests[1..] == s.dispatched + requests;
    }
  }

  // ---------------------------------------------------------------- frames of any requests

  /** Why the server turns down a request that fits the format, the first reason it comes to; none if it is served. */
  function Verdict(sv: Services, r: Request): Option<Reason> {
    var service, method_ := NameOf(r.header.serviceName), NameOf(r.header.methodName);
    if r.header.magic != MAGIC_NUM then Some(BadMagic)
    else if r.header.version != VERSION then Some(BadVersion)
    else if service !in sv.methods then Some(NoService)
    else if method_ !in sv.methods[service] then Some(NoMethod)
    else if !sv.accepts(service, method_, r.body) then Some(BadBody)
    else None
  }

  lemma ServedVerdict(sv: Services, r: Request)
    requires Fits(r.header, r.body)
    ensures Served(sv, r) <==> Verdict(sv, r) == None
  {
    hide Fits;
  }

  /** What a loop that has come to this phase of a frame has already checked. */
  ghost predicate Passed(sv: Services, phase: Phase, r: Request) {
    && (phase.WantBodyLen? || phase.WantBody? ==> Verdict(sv, r) != Some(BadMagic) && Verdict(sv, r) != Some(BadVersion))
    && (phase.WantBody? ==> Verdict(sv, r) != Some(NoService) && Verdict(sv, r) != Some(NoMethod))
  }

  /** One step in the frame of a request that is turned down: on to the next part, or the loop stops for that reason. */
  lemma RejectedStep(sv: Services, s: Server, r: Request, rest: Bytes)
    requires Fits(r.header, r.body) && Verdict(sv, r).Some? && Passed(sv, s.phase, r)
    requires InFrame(s.phase, s.readBuf, r.header, r.body, rest)
    ensures Ready(s)
    ensures var s' := Step(sv, s);
      && s'.dispatched == s.dispatched && s'.writeBuf == s.writeBuf
      && (s'.phase == Stopped(Verdict(sv, r).value) ||
          (InFrame(s'.phase, s'.readBuf, r.header, r.body, rest) && Passed(sv, s'.phase, r)
           && FrameRank(s'.phase) < FrameRank(s.phase)))
  {
    hide Frame, InFrame, Parse, ResponseFrame, Serialize, ValidUtf8;
    InFrameTake(s.phase, s.readBuf, r.header, r.body, rest);
  }

  /** The frame of a request that is turned down stops the loop for that reason, with nothing dispatched or written. */
  lemma {:induction false} FrameRejected(sv: Services, s: Server, r: Request, rest: Bytes)
    requires Fits(r.header, r.body) && Verdict(sv, r).Some? && Passed(sv, s.phase, r)
    requires InFrame(s.phase, s.readBuf, r.header, r.body, rest)
    ensures var d := Drain(sv, s);
      d.phase == Stopped(Verdict(sv, r).value) && d.dispatched == s.dispatched && d.writeBuf == s.writeBuf
    decreases FrameRank(s.phase)
  {
    hide Fits, InFrame, Passed, Verdict, Step;
    RejectedStep(sv, s, r, rest);
    var s' := Step(sv, s);
    if s'.phase != Stopped(Verdict(sv, r).value) {
      FrameRejected(sv, s', r, rest);
    }
  }

  /** How many of the requests come before the first that is turned down. */
  function ServedCount(sv: Services, requests: seq<Request>): (n: nat)
    ensures n <= |requests|
  {
    if requests == [] || Verdict(sv, requests[0]).Some? then 0 else 1 + ServedCount(sv, requests[1..])
  }

  /** The loop dispatched and answered exactly the first `n` requests and stopped for the reason of the next one. */
  ghost predicate StoppedAt(sv: Services, s: Server, d: Server, requests: seq<Request>, n: nat)
    requires n < |requests|
  {
    && Verdict(sv, requests[n]).Some? && d.phase == Stopped(Verdict(sv, requests[n]).value)
    && d.dispatched == s.dispatched + requests[..n]
    && d.writeBuf == s.writeBuf + ResponsesOf(sv, requests[..n])
  }

  /**
   Of any list of requests that fit the format, exactly those before the first one that is turned
   down are dispatched and answered, and that one stops the loop for its reason.
   */
  lemma FramesFedUntil(sv: Services, s: Server, requests: seq<Request>, trailing: Bytes)
    requires s.phase == WantHeaderLen && s.readBuf == []
    requires forall r :: r in requests ==> Fits(r.header, r.body)
    ensures ServedCount(sv, requests) < |requests| ==>
      StoppedAt(sv, s, Feed(sv, s, FramesOf(requests) + trailing), requests, ServedCount(sv, requests))
    ensures ServedCount(sv, requests) == |requests| ==> forall r :: r in requests ==> Served(sv, r)
  {
    hide Fits, Verdict, Served, Drain, ServedCount, Feed, StoppedAt;
    var n := ServedCount(sv, requests);
    CountServed(sv, requests);
    if n < |requests| {
      StopsAt(sv, s, requests, trailing, n);
    } else {
      assert requests[..n] == requests;
    }
  }

  lemma StopsAt(sv: Services, s: Server, requests: seq<Request>, trailing: Bytes, n: nat)
    requires s.phase == WantHeaderLen && s.readBuf == [] && n < |requests|
    requires forall r :: r in requests[..n] ==> Served(sv, r)
    requires Fits(requests[n].header, requests[n].body) && Verdict(sv, requests[n]).Some?
    ensures StoppedAt(sv, s, Feed(sv, s, FramesOf(requests) + trailing), requests, n)
  {
    hide Fits, Verdict, Served, Passed, InFrame, Drain, FramesOf, Frame, ResponsesOf;
    var r, tail := requests[n], FramesOf(requests[n..]) + trailing;
    FramesSplit(requests, n);
    Assoc(FramesOf(requests[..n]), FramesOf(requests[n..]), trailing);
    FramesFed(sv, s, requests[..n], tail);
    var at := Server(WantHeaderLen, tail, s.writeBuf + ResponsesOf(sv, requests[..n]), s.dispatched + requests[..n]);
    FirstFrame(sv, requests[n..], trailing);
    FrameRejected(sv, at, r, FramesOf(requests[n..][1..]) + trailing);
  }

  lemma FirstFrame(sv: Services, requests: seq<Request>, trailing: Bytes)
    requires requests != []
    ensures Passed(sv, WantHeaderLen, requests[0])
    ensures var r := requests[0];
      InFrame(WantHeaderLen, FramesOf(requests) + trailing, r.header, r.body, FramesOf(requests[1..]) + trailing)
  {
    hide Frame;
    Assoc(Frame(requests[0].header, requests[0].body), FramesOf(requests[1..]), trailing);
  }

  lemma {:induction false} CountServed(sv: Services, requests: seq<Request>)
    requires forall r :: r in requests ==> Fits(r.header, r.body)
    ensures var n := ServedCount(sv, requests);
      && (forall r :: r in requests[..n] ==> Served(sv, r))
      && (n < |requests| ==> Verdict(sv, requests[n]).Some?)
  {
    hide Fits, Verdict, Served;
    if requests != [] && Verdict(sv, requests[0]) == None {
      ServedVerdict(sv, requests[0]);
      CountServed(sv, requests[1..]);
      var n := ServedCount(sv, requests);
      assert requests[..n] == [requests[0]] + requests[1..][..n - 1];
    }
  }

  lemma {:induction false} FramesSplit(requests: seq<Request>, n: nat)
    requires n <= |requests|
    ensures FramesOf(requests) == FramesOf(requests[..n]) + FramesOf(requests[n..])
  {
    hide Frame;
    if n == 0 {
      assert requests[..0] == [] && requests[0..] == requests;
    } else {
      FramesSplit(requests[1..], n - 1);
      assert requests[..n][1..] == requests[1..][..n - 1] && requests[1..][n - 1..] == requests[n..];
      Assoc(Frame(requests[0].header, requests[0].body), FramesOf(requests[..n][1..]), FramesOf(requests[n..]));
    }
  }
}
