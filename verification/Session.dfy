/** The receive coroutine of one server connection, server/rpc_server.cpp:38-147, over its two chained buffers. */
module Sessions {
  import opened Base
  import opened BufferBlocks
  import opened Geometry
  import opened ChainedBuffers
  import opened Memories
  import opened Varints
  import opened HeaderCodec
  import opened Frames
  import opened FrameWriters
  import opened ServerLoop
  import opened BufferedServers

  class Session {
    const readBuf: ChainedBuffer
    const writeBuf: ChainedBuffer
    var phase: Phase
    var dispatched: seq<Request>
    ghost var sent: Bytes   // what the socket has accepted

    constructor ()
      ensures Shows(Start) && fresh(readBuf.Repr + writeBuf.Repr)
    {
      hide *;
      readBuf := new ChainedBuffer();
      writeBuf := new ChainedBuffer();
      phase, dispatched, sent := WantHeaderLen, [], [];
      new;
      NewBuffer(readBuf);
      NewBuffer(writeBuf);
      ToShowsStart();
    }

    lemma ToShowsStart()
      requires Apart() && phase == WantHeaderLen && dispatched == [] && sent == []
      requires ShowsIn(readBuf, Inbox(0, true), []) && ShowsOut(writeBuf, Outbox(0, 0, true), [], [])
      ensures Shows(Start)
    {
    }

    /** The coroutine and its buffers are as `t` says. */
    ghost predicate Shows(t: Site)
      reads this, readBuf, writeBuf, readBuf.Repr, writeBuf.Repr
    {
      && Apart()
      && phase == t.server.phase && dispatched == t.server.dispatched && LimitOk(phase)
      && ShowsIn(readBuf, t.mem.inbox, t.server.readBuf)
      && ShowsOut(writeBuf, t.mem.outbox, sent, t.server.writeBuf)
    }

    /** The two buffers share no memory. */
    ghost predicate Apart()
      reads this, readBuf`Repr, writeBuf`Repr
    {
      && readBuf in readBuf.Repr && writeBuf in writeBuf.Repr && this !in readBuf.Repr && this !in writeBuf.Repr
      && readBuf.Repr !! writeBuf.Repr
    }

    /** One `async_read` has delivered `bytes`; the loop runs until it waits for more, ends, or cannot go on. */
    method Resume(env: Env, ghost t: Site, bytes: Bytes)
      requires Shows(t) && Sound(t.mem) && |bytes| <= BLOCK_SIZE - t.mem.inbox.at
      modifies this, readBuf, writeBuf, readBuf.Repr, writeBuf.Repr
      ensures Shows(Deliver(env, t, bytes)) && fresh(readBuf.Repr - old(readBuf.Repr)) && fresh(writeBuf.Repr - old(writeBuf.Repr))
    {
      hide ShowsIn, ShowsOut, Part, Run;
      ReceiveBytes(readBuf, t.mem.inbox, t.server.readBuf, bytes);
      ghost var u := Receive(t, bytes);
      var sound := true;
      var ready := HasBytes(u);
      while sound && ready
        invariant Shows(u) && sound == Sound(u.mem) && (sound ==> ready == Ready(u.server))
        invariant Run(env, u) == Deliver(env, t, bytes)
        invariant fresh(readBuf.Repr - old(readBuf.Repr)) && fresh(writeBuf.Repr - old(writeBuf.Repr))
        decreases |u.server.readBuf|, Rank(u.server.phase)
      {
        PartShrinks(env, u);
        RunPart(env, u);
        sound := RunOne(env, u);
        u := Part(env, u);
        if sound { ready := HasBytes(u); }
      }
      RunOver(env, u);
    }

    method HasBytes(ghost u: Site) returns (ready: bool)
      requires Shows(u)
      ensures ready == Ready(u.server)
    {
      readBuf.FromReadSide();
      readBuf.FromValid();
      ready := !phase.Stopped? && Needed(phase) <= readBuf.totalSize;
    }

    /** One part of the loop; `sound` tells whether the buffers still allow another. */
    method RunOne(env: Env, ghost u: Site) returns (sound: bool)
      requires Shows(u) && CanRun(u)
      modifies this, readBuf, writeBuf, readBuf.Repr, writeBuf.Repr
      ensures Shows(Part(env, u)) && sound == Sound(Part(env, u).mem)
      ensures fresh(readBuf.Repr - old(readBuf.Repr)) && fresh(writeBuf.Repr - old(writeBuf.Repr))
    {
      hide ShowsIn, ShowsOut, Parse, Serialize, ResponseFrame, Responded;
      match phase {
        case WantHeaderLen =>
          var taken := TakeLength(readBuf, u.mem.inbox, u.server.readBuf);
          phase := if Value32(taken) < LIMIT_MAX then WantHeader(Value32(taken)) else Stopped(LongLength);
          sound := NodeLeft(Part(env, u).mem.inbox, Part(env, u).server.readBuf);
        case WantHeader(len) =>
          var taken := TakeMessage(readBuf, u.mem.inbox, u.server.readBuf, len);
          phase := ReadHeader(taken);
          sound := true;
        case WantBodyLen(h) =>
          var taken := TakeLength(readBuf, u.mem.inbox, u.server.readBuf);
          phase := FindMethod(env.services, h, Value32(taken));
          sound := NodeLeft(Part(env, u).mem.inbox, Part(env, u).server.readBuf);
        case WantBody(h, len) =>
          var taken := TakeMessage(readBuf, u.mem.inbox, u.server.readBuf, len);
          if !env.services.accepts(NameOf(h.serviceName), NameOf(h.methodName), taken) {
            phase := Stopped(BadBody);
            sound := true;
          } else {
            sound := Respond(env, u, Request(h, taken));
            dispatched := dispatched + [Request(h, taken)];
            phase := WantHeaderLen;
          }
      }
    }

    method NodeLeft(ghost i: Inbox, ghost unread: Bytes) returns (left: bool)
      requires ShowsIn(readBuf, i, unread)
      ensures left == i.hasNode
    {
      readBuf.HeadOrNone();
      left := readBuf.head != null;
    }

    /** Lines 129-146: the response is written and the send coroutine resumed. */
    method Respond(env: Env, ghost u: Site, r: Request) returns (fits: bool)
      requires Apart() && ShowsOut(writeBuf, u.mem.outbox, sent, u.server.writeBuf) && u.mem.outbox.whole
      requires |dispatched| == |u.server.dispatched|
      modifies this`sent, writeBuf, writeBuf.Repr
      ensures Apart() && fresh(writeBuf.Repr - old(writeBuf.Repr))
      ensures var o := Responded(env, u.mem.outbox, |u.server.dispatched|, r);
        && fits == o.whole
        && ShowsOut(writeBuf, o, sent, if o.whole then u.server.writeBuf + ResponseFrame(env.services, r) else u.server.writeBuf)
    {
      hide ShowsOut, Serialize, WritesFrame, AfterSend;
      var header := NewResponseHeader(r.header.requestId);
      var headerLen := header.ByteSizeLong();
      var bytes := header.InternalSerialize([]);
      assert bytes == Serialize(header.Value());
      var body := ResponseBody(env.services, r);
      ghost var o := u.mem.outbox;
      OutAt(writeBuf, o, sent, u.server.writeBuf);
      fits := WriteFrame(writeBuf, o, sent, u.server.writeBuf, headerLen, bytes, body);
      SmallFrame(env, o, r, fits);
      if fits {
        ghost var gone := SendSome(writeBuf, WritesFrame(o, |bytes|, |body|), sent,
          u.server.writeBuf + ResponseFrame(env.services, r), env.sends(|dispatched|));
        sent := sent + gone;
      }
    }

    /** Lines 69-84. */
    method ReadHeader(taken: Bytes) returns (next: Phase)
      ensures next == match Parse(taken)
        case None => Stopped(BadHeader)
        case Some(h) => if h.magic != MAGIC_NUM then Stopped(BadMagic) else if h.version != VERSION then Stopped(BadVersion) else WantBodyLen(h)
    {
      var header := new HeaderMessage();
      var ok := header.InternalParse(taken);
      if !ok { return Stopped(BadHeader); }
      if header.magic != MAGIC_NUM { return Stopped(BadMagic); }
      if header.version != VERSION { return Stopped(BadVersion); }
      return WantBodyLen(header.Value());
    }

    /** Lines 98-111. */
    method FindMethod(sv: Services, h: Header, len: nat) returns (next: Phase)
      ensures next ==
        (var service, method_ := NameOf(h.serviceName), NameOf(h.methodName);
         if service !in sv.methods then Stopped(NoService)
         else if method_ !in sv.methods[service] then Stopped(NoMethod)
         else if len < LIMIT_MAX then WantBody(h, len) else Stopped(LongLength))
    {
      if NameOf(h.serviceName) !in sv.methods { return Stopped(NoService); }
      if NameOf(h.methodName) !in sv.methods[NameOf(h.serviceName)] { return Stopped(NoMethod); }
      return if len < LIMIT_MAX then WantBody(h, len) else Stopped(LongLength);
    }
  }

  /** Lines 133-137. */
  method NewResponseHeader(id: Int64) returns (header: HeaderMessage)
    ensures fresh(header) && header.Value() == ResponseHeader(id)
  {
    header := new HeaderMessage();
    header.magic, header.version, header.messageType := MAGIC_NUM, VERSION, RESPONSE;
    header.requestId := id;
  }

  lemma RunOver(env: Env, u: Site)
    requires !(Ready(u.server) && Sound(u.mem))
    ensures Run(env, u) == u
  {
  }

  lemma RunPart(env: Env, u: Site)
    requires CanRun(u)
    ensures Run(env, u) == Run(env, Part(env, u))
  {
    hide Part;
    PartShrinks(env, u);
  }

  /** A response that fits a block has a length that four bytes hold. */
  lemma SmallFrame(env: Env, o: Outbox, r: Request, fits: bool)
    requires o.at <= BLOCK_SIZE
    requires var h := ResponseHeader(r.header.requestId);
      fits == FrameFits(o.at, |Serialize(h)|, |ResponseBody(env.services, r)|)
    ensures var h, body := ResponseHeader(r.header.requestId), ResponseBody(env.services, r);
      fits ==> ResponseFrame(env.services, r) == Len32(|Serialize(h)|) + (Serialize(h) + (Len32(|body|) + body))
    ensures WritesFrame(o, |Serialize(ResponseHeader(r.header.requestId))|, |ResponseBody(env.services, r)|).whole == fits
  {
    hide Serialize, ResponseBody;
  }
}
