/** Frames of requests through the chained buffers of a server: exactly when they are decoded and answered. */
module BufferedFrames {
  import opened Base
  import opened BufferBlocks
  import opened Geometry
  import opened Memories
  import opened Varints
  import opened HeaderCodec
  import opened Frames
  import opened ServerLoop
  import opened BufferedServers

  // ---------------------------------------------------------------- where the lengths of a stream of frames end

  /** The first `p` bytes of the frames end right after a length. */
  predicate LengthEnd(requests: seq<Request>, p: nat)
    decreases |requests|
  {
    requests != [] &&
    var r := requests[0];
    var frame := |Frame(r.header, r.body)|;
    p == 4 || p == 8 + |Serialize(r.header)| || (p > frame && LengthEnd(requests[1..], p - frame))
  }

  /** A loop inside a frame, with `c` of it and after it still to come, runs on inside that frame. */
  lemma {:induction false} MidFrame(sv: Services, t: Server, r: Request, c: Bytes, rest: Bytes)
    requires Served(sv, r) && InFrame(t.phase, t.readBuf + c, r.header, r.body, rest) && |c| > |rest|
    ensures var d := Drain(sv, t); !Ready(d) && InFrame(d.phase, d.readBuf + c, r.header, r.body, rest)
    decreases |t.readBuf|, Rank(t.phase)
  {
    hide InFrame, Served, Step;
    if Ready(t) {
      StepMore(sv, t, c);
      ServedStep(sv, More(t, c), r, rest);
      StepShrinks(sv, t);
      if t.phase.WantBody? {
        BodyLeft(t, r, c, rest);
        assert false;
      }
      MidFrame(sv, Step(sv, t), r, c, rest);
    }
  }

  lemma StepShrinks(sv: Services, s: Server)
    requires Ready(s)
    ensures var s' := Step(sv, s);
      |s'.readBuf| < |s.readBuf| || (|s'.readBuf| == |s.readBuf| && Rank(s'.phase) < Rank(s.phase))
  {
    hide ResponseFrame, Parse;
  }

  lemma BodyLeft(t: Server, r: Request, c: Bytes, rest: Bytes)
    requires InFrame(t.phase, t.readBuf + c, r.header, r.body, rest) && t.phase.WantBody? && Ready(t)
    ensures |c| <= |rest|
  {
    assert |t.readBuf + c| == |r.body + rest|;
  }

  /** How far into its frame a waiting loop is, from the bytes still to come. */
  lemma Position(d: Server, r: Request, c: Bytes)
    requires !Ready(d) && InFrame(d.phase, d.readBuf + c, r.header, r.body, [])
    ensures var h, b := |Serialize(r.header)|, |r.body|;
      match d.phase
      case WantHeaderLen => |d.readBuf| + |c| == 8 + h + b && |d.readBuf| < 4
      case WantHeader(_) => |d.readBuf| + |c| == h + 4 + b && |d.readBuf| < h
      case WantBodyLen(_) => |d.readBuf| + |c| == 4 + b && |d.readBuf| < 4
      case WantBody(_, _) => |d.readBuf| + |c| == b && |d.readBuf| < b
      case Stopped(_) => false
  {
    hide Serialize;
    FrameLength(r.header, r.body);
    assert |d.readBuf + c| == |d.readBuf| + |c|;
  }

  /** The last byte of a length is followed by the next part of the frame. */
  lemma LengthGoesOn(sv: Services, d: Server, r: Request, c: Bytes)
    requires Served(sv, r) && c != [] && InFrame(d.phase, d.readBuf + c, r.header, r.body, [])
    requires LengthPhase(d.phase) && |d.readBuf| == 3
    ensures LastLengthByte(sv, d, c[0])
  {
    hide Served, InFrame, Step;
    var e := More(d, [c[0]]);
    assert More(e, c[1..]).readBuf == More(d, c).readBuf;
    StepMore(sv, e, c[1..]);
    ServedStep(sv, More(d, c), r, []);
    NotStopped(More(Step(sv, e), c[1..]), r);
  }

  lemma NotStopped(s: Server, r: Request)
    requires InFrame(s.phase, s.readBuf, r.header, r.body, [])
    ensures !s.phase.Stopped?
  {
  }

  /** Inside the first frame. */
  lemma FrameCut(sv: Services, s: Server, r: Request, p: nat)
    requires Served(sv, r) && s.phase == WantHeaderLen && s.readBuf == [] && 0 < p <= |Frame(r.header, r.body)|
    ensures EndsAt(sv, s, Frame(r.header, r.body)[..p]) <==> p == 4 || p == 8 + |Serialize(r.header)|
  {
    hide Served, Frame, Drain, Serialize, LastLengthByte;
    var f := Frame(r.header, r.body);
    var t, c := More(s, f[..p - 1]), f[p - 1..];
    assert f[..p][..p - 1] == f[..p - 1];
    assert InFrame(t.phase, t.readBuf + c, r.header, r.body, []) by {
      assert t.readBuf + c == f + [];
    }
    MidFrame(sv, t, r, c, []);
    var d := Drain(sv, t);
    FrameLength(r.header, r.body);
    Position(d, r, c);
    if LengthPhase(d.phase) && |d.readBuf| == 3 {
      LengthGoesOn(sv, d, r, c);
    } else {
      NoLength(sv, d, c[0]);
    }
  }

  lemma NoLength(sv: Services, d: Server, x: Byte)
    requires !LengthPhase(d.phase) || |d.readBuf| != 3
    ensures !LastLengthByte(sv, d, x)
  {
  }

  /** Of a stream of frames the reads that may not end there are those right after a length. */
  lemma {:induction false} CutsInFrames(sv: Services, s: Server, requests: seq<Request>, p: nat)
    requires forall r :: r in requests ==> Served(sv, r)
    requires s.phase == WantHeaderLen && s.readBuf == [] && 0 < p <= |FramesOf(requests)|
    ensures EndsAt(sv, s, FramesOf(requests)[..p]) <==> LengthEnd(requests, p)
    decreases |requests|
  {
    hide Served, Frame, Serialize, Drain, LastLengthByte, EndsAt;
    var r, rest := requests[0], FramesOf(requests[1..]);
    var f := Frame(r.header, r.body);
    FrameLength(r.header, r.body);
    if p <= |f| {
      assert FramesOf(requests)[..p] == f[..p];
      FrameCut(sv, s, r, p);
    } else {
      var s1 := Feed(sv, s, f);
      assert s1.phase == WantHeaderLen && s1.readBuf == [] by { OneFrame(sv, s, r); }
      CutsInFrames(sv, s1, requests[1..], p - |f|);
      assert FramesOf(requests)[..p] == f + rest[..p - |f|];
      EndsAfter(sv, s, f, rest[..p - |f|]);
    }
  }

  lemma OneFrame(sv: Services, s: Server, r: Request)
    requires Served(sv, r) && s.phase == WantHeaderLen && s.readBuf == []
    ensures Feed(sv, s, Frame(r.header, r.body)).phase == WantHeaderLen && Feed(sv, s, Frame(r.header, r.body)).readBuf == []
  {
    hide Served, Frame, ResponseFrame, Serialize;
    FramesFed(sv, s, [r], []);
    assert FramesOf([r]) + [] == Frame(r.header, r.body);
  }

  lemma EndsAfter(sv: Services, s: Server, a: Bytes, b: Bytes)
    requires b != []
    ensures EndsAt(sv, s, a + b) <==> EndsAt(sv, Feed(sv, s, a), b)
  {
    hide Drain, LastLengthByte, Feed;
    var n := |b| - 1;
    assert (a + b)[..|a| + n] == a + b[..n];
    FeedTwice(sv, s, a, b[..n]);
  }

  // ---------------------------------------------------------------- round trips

  /** No read ends right after a length, other than on a block boundary. */
  ghost predicate CutsAvoidLengths(requests: seq<Request>, chunks: seq<Bytes>) {
    forall i :: 0 < i <= |chunks| ==>
      |Joined(chunks[..i])| % BLOCK_SIZE == 0 || !LengthEnd(requests, |Joined(chunks[..i])|)
  }

  lemma {:induction false} JoinedPrefix(chunks: seq<Bytes>, i: nat)
    requires i <= |chunks|
    ensures Joined(chunks[..i]) <= Joined(chunks)
    decreases |chunks|
  {
    if i > 0 {
      assert chunks[..i][0] == chunks[0] && chunks[..i][1..] == chunks[1..][..i - 1];
      JoinedPrefix(chunks[1..], i - 1);
    }
  }

  lemma {:induction false} JoinedNonEmpty(chunks: seq<Bytes>, at: nat, i: nat)
    requires Deliverable(at, chunks) && 0 < i <= |chunks|
    ensures Joined(chunks[..i]) != []
  {
    assert chunks[..i][0] == chunks[0];
  }

  lemma CutsOfFrames(sv: Services, requests: seq<Request>, chunks: seq<Bytes>)
    requires (forall r :: r in requests ==> Served(sv, r)) && Deliverable(0, chunks) && Joined(chunks) == FramesOf(requests)
    ensures CleanCuts(sv, chunks) <==> CutsAvoidLengths(requests, chunks)
  {
    hide Served, EndsAt, LengthEnd;
    forall i | 0 < i <= |chunks|
      ensures CleanCut(sv, Joined(chunks[..i])) <==>
        |Joined(chunks[..i])| % BLOCK_SIZE == 0 || !LengthEnd(requests, |Joined(chunks[..i])|)
    {
      JoinedPrefix(chunks, i);
      JoinedNonEmpty(chunks, 0, i);
      var p := |Joined(chunks[..i])|;
      CutsInFrames(sv, InitialServer, requests, p);
      assert FramesOf(requests)[..p] == Joined(chunks[..i]);
    }
  }

  /**
   Main result, the frame round trip: the frames of any list of requests, in any split into reads, are decoded to
   exactly those headers and bodies and answered in order, if and only if no read ends right after a length other
   than on a block boundary, and every response fits the last block of the write buffer.
   */
  lemma FrameRoundTrip(env: Env, requests: seq<Request>, chunks: seq<Bytes>)
    requires forall r :: r in requests ==> Served(env.services, r)
    requires Deliverable(0, chunks) && Joined(chunks) == FramesOf(requests)
    ensures var u := DeliverAll(env, Start, chunks);
      (u.server == Server(WantHeaderLen, [], ResponsesOf(env.services, requests), requests) && Sane(u))
      <==> CutsAvoidLengths(requests, chunks) && AllFit(env, FreshMemory.outbox, 0, requests)
  {
    hide Served, CleanCuts, CutsAvoidLengths, Drain, AllFit, Sane, FramesOf, ResponsesOf, Deliverable;
    FramesFed(env.services, InitialServer, requests, []);
    assert FramesOf(requests) + [] == FramesOf(requests);
    assert [] + ResponsesOf(env.services, requests) == ResponsesOf(env.services, requests) && [] + requests == requests;
    var s := Server(WantHeaderLen, [], ResponsesOf(env.services, requests), requests);
    assert Drain(env.services, s) == s by { WaitsForLength(env.services, s); }
    DeliveredExactlyWhen(env, chunks);
    CutsOfFrames(env.services, requests, chunks);
  }

  lemma WaitsForLength(sv: Services, s: Server)
    requires s.phase == WantHeaderLen && s.readBuf == []
    ensures Drain(sv, s) == s
  {
  }

  /** The same followed by any bytes, which are left to the loop. */
  lemma FrameRoundTripThen(env: Env, requests: seq<Request>, trailing: Bytes, chunks: seq<Bytes>)
    requires forall r :: r in requests ==> Served(env.services, r)
    requires Deliverable(0, chunks) && Joined(chunks) == FramesOf(requests) + trailing
    ensures var u, s := DeliverAll(env, Start, chunks), Drain(env.services, Server(WantHeaderLen, trailing, ResponsesOf(env.services, requests), requests));
      (u.server == s && Sane(u)) <==> CleanCuts(env.services, chunks) && AllFit(env, FreshMemory.outbox, 0, s.dispatched)
  {
    hide Served, CleanCuts, Drain, AllFit, Sane, FramesOf, ResponsesOf, Deliverable;
    FramesFed(env.services, InitialServer, requests, trailing);
    assert [] + ResponsesOf(env.services, requests) == ResponsesOf(env.services, requests) && [] + requests == requests;
    DeliveredExactlyWhen(env, chunks);
  }

  /**
   Main result: of any list of requests that fit the format, exactly those before the first one that is turned down
   are dispatched and answered, and that one stops the loop for its reason, under the same two conditions.
   */
  lemma FramesDecided(env: Env, requests: seq<Request>, trailing: Bytes, chunks: seq<Bytes>)
    requires forall r :: r in requests ==> Fits(r.header, r.body)
    requires Deliverable(0, chunks) && Joined(chunks) == FramesOf(requests) + trailing
    requires ServedCount(env.services, requests) < |requests|
    requires CleanCuts(env.services, chunks)
    requires AllFit(env, FreshMemory.outbox, 0, requests[..ServedCount(env.services, requests)])
    ensures StoppedAt(env.services, InitialServer, DeliverAll(env, Start, chunks).server, requests, ServedCount(env.services, requests))
    ensures Sane(DeliverAll(env, Start, chunks))
  {
    hide Fits, CleanCuts, Drain, AllFit, Sane, FramesOf, ResponsesOf, Deliverable, Verdict, ServedCount;
    FramesFedUntil(env.services, InitialServer, requests, trailing);
    var n := ServedCount(env.services, requests);
    assert [] + requests[..n] == requests[..n];
    DeliveredExactlyWhen(env, chunks);
  }

  // ---------------------------------------------------------------- inputs that fail

  /** A stream that ends with an empty body ends right after a length: off a block boundary no split is decoded. */
  lemma EmptyBodyCrashes(env: Env, requests: seq<Request>, chunks: seq<Bytes>)
    requires requests != [] && requests[|requests| - 1].body == [] && chunks != []
    requires forall r :: r in requests ==> Served(env.services, r)
    requires Deliverable(0, chunks) && Joined(chunks) == FramesOf(requests) && |FramesOf(requests)| % BLOCK_SIZE != 0
    ensures var u := DeliverAll(env, Start, chunks);
      !(u.server == Server(WantHeaderLen, [], ResponsesOf(env.services, requests), requests) && Sane(u))
  {
    hide Served, AllFit, Sane, FramesOf, ResponsesOf, Deliverable, LengthEnd;
    FrameRoundTrip(env, requests, chunks);
    EmptyBodyEnd(requests);
    assert chunks[..|chunks|] == chunks;
    assert |Joined(chunks[..|chunks|])| == |FramesOf(requests)|;
  }

  lemma {:induction false} EmptyBodyEnd(requests: seq<Request>)
    requires requests != [] && requests[|requests| - 1].body == []
    ensures LengthEnd(requests, |FramesOf(requests)|)
    decreases |requests|
  {
    hide Frame, Serialize;
    FrameLength(requests[0].header, requests[0].body);
    if |requests| == 1 {
      assert FramesOf(requests[1..]) == [];
    } else {
      EmptyBodyEnd(requests[1..]);
      FramesNonEmpty(requests[1..]);
    }
  }

  lemma FramesNonEmpty(requests: seq<Request>)
    requires requests != []
    ensures |FramesOf(requests)| > 0
  {
    hide Frame;
    FrameLength(requests[0].header, requests[0].body);
  }

  /** A response body of a whole block or more is never written intact. */
  lemma {:induction false} BigResponsesFail(env: Env, o: Outbox, k: nat, requests: seq<Request>, i: nat)
    requires o.at <= BLOCK_SIZE && i < |requests| && |ResponseBody(env.services, requests[i])| >= BLOCK_SIZE
    ensures !AllFit(env, o, k, requests)
    decreases |requests|
  {
    hide ResponseBody, Serialize;
    var r := requests[0];
    var header, body := |Serialize(ResponseHeader(r.header.requestId))|, |ResponseBody(env.services, r)|;
    if FrameFits(o.at, header, body) {
      SomeTailFits(header, body);
      FrameFitsBounds(o.at, header, body);
      if i > 0 { BigResponsesFail(env, Responded(env, o, k, r), k + 1, requests[1..], i - 1); }
    }
  }
}
