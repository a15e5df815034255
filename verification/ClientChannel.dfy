/** The client end as the object it is, client/client_channel.cpp, over its connection's two chained buffers. */
module ClientChannels {
  import opened Base
  import opened BufferBlocks
  import opened Geometry
  import opened ChainedBuffers
  import opened Memories
  import opened Varints
  import opened HeaderCodec
  import opened Frames
  import opened FrameWriters
  import opened ServerLoop
  import opened BufferedServers
  import opened RpcProtocol
  import opened BufferedClients

  class ClientChannel {
    const readBuf: ChainedBuffer
    const writeBuf: ChainedBuffer
    var phase: Phase
    var requestId: int
    var registry: map<int, Call>
    var completed: seq<Completion>   // the callbacks run, in order
    var notFound: nat                // the times the message at line 123 was printed
    ghost var sent: Bytes            // what the socket has accepted

    constructor ()
      ensures Shows(NewChannel) && fresh(readBuf.Repr + writeBuf.Repr)
    {
      hide *;
      readBuf := new ChainedBuffer();
      writeBuf := new ChainedBuffer();
      phase, requestId, registry, completed, notFound, sent := WantHeaderLen, 0, map[], [], 0, [];
      new;
      NewBuffer(readBuf);
      NewBuffer(writeBuf);
      ToShowsNew();
    }

    lemma ToShowsNew()
      requires Apart() && phase == WantHeaderLen && requestId == 0 && registry == map[] && completed == [] && notFound == 0
      requires sent == [] && ShowsIn(readBuf, Inbox(0, true), []) && ShowsOut(writeBuf, Outbox(0, 0, true), [], [])
      ensures Shows(NewChannel)
    {
    }

    /** The two buffers share no memory. */
    ghost predicate Apart()
      reads this, readBuf`Repr, writeBuf`Repr
    {
      && readBuf in readBuf.Repr && writeBuf in writeBuf.Repr && this !in readBuf.Repr && this !in writeBuf.Repr
      && readBuf.Repr !! writeBuf.Repr
    }

    /** The fields other than the buffers. */
    ghost predicate Fields(c: Client)
      reads this
    {
      && phase == c.phase && requestId == c.requestId && registry == c.registry && completed == c.completed
      && notFound == c.notFound
    }

    /** The channel and its buffers are as `p` says. */
    ghost predicate Shows(p: Channel)
      reads this, readBuf, writeBuf, readBuf.Repr, writeBuf.Repr
    {
      && Apart() && Fields(p.client) && LimitOk(phase)
      && ShowsIn(readBuf, p.mem.inbox, p.client.readBuf)
      && ShowsOut(writeBuf, p.mem.outbox, sent, p.client.writeBuf)
    }

    /** Writes the frame of a request and registers the session; `fits` tells whether no block was overwritten. */
    method CallMethod(ghost p: Channel, call: Call) returns (fits: bool)
      requires Shows(p) && p.mem.outbox.whole
      requires 0 <= requestId < ID_END && |call.service| < TWO_32 && |call.method_| < TWO_32
      modifies this, writeBuf, writeBuf.Repr
      ensures Shows(Invoke(p, call)) && fits == Invoke(p, call).mem.outbox.whole && fresh(writeBuf.Repr - old(writeBuf.Repr))
    {
      hide Serialize, ShowsIn, ShowsOut, WritesFrame;
      var header := NewHeader(requestId, call);
      requestId := requestId + 1;
      var headerLen := header.ByteSizeLong();
      var bytes := header.InternalSerialize([]);
      assert bytes == Serialize(header.Value());
      OutAt(writeBuf, p.mem.outbox, sent, p.client.writeBuf);
      fits := WriteFrame(writeBuf, p.mem.outbox, sent, p.client.writeBuf, headerLen, bytes, call.body);
      WrittenFrame(p.mem.outbox, |bytes|, |call.body|);
      registry := registry[header.requestId := call];
    }

    /** Lines 173-178. */
    static method NewHeader(id: Int64, call: Call) returns (header: HeaderMessage)
      ensures fresh(header) && header.Value() == CallHeader(id, call.service, call.method_)
    {
      header := new HeaderMessage();
      header.magic, header.version, header.messageType := MAGIC_NUM, VERSION, REQUEST;
      header.requestId := id;
      header.serviceName, header.methodName := Some(call.service), Some(call.method_);
    }

    /** One `async_read` has delivered `bytes`; the loop runs until it waits for more, ends, or cannot go on. */
    method Resume(ghost p: Channel, bytes: Bytes)
      requires Shows(p) && p.mem.inbox.hasNode && |bytes| <= BLOCK_SIZE - p.mem.inbox.at
      modifies this, readBuf, readBuf.Repr
      ensures Shows(ClientDeliver(p, bytes)) && fresh(readBuf.Repr - old(readBuf.Repr))
    {
      hide ShowsIn, ShowsOut, ClientPart, ClientRun;
      ReceiveBytes(readBuf, p.mem.inbox, p.client.readBuf, bytes);
      ghost var u := ClientReceive(p, bytes);
      var node := true;
      var ready := HasBytes(u);
      while node && ready
        invariant Shows(u) && node == u.mem.inbox.hasNode && (node ==> ready == ClientReady(u.client))
        invariant ClientRun(u) == ClientDeliver(p, bytes)
        invariant fresh(readBuf.Repr - old(readBuf.Repr))
        decreases |u.client.readBuf|, Rank(u.client.phase)
      {
        RunPart(u);
        RunOne(u);
        u := ClientPart(u);
        node := NodeLeft(u);
        if node { ready := HasBytes(u); }
      }
      RunOver(u);
    }

    method HasBytes(ghost u: Channel) returns (ready: bool)
      requires Shows(u)
      ensures ready == ClientReady(u.client)
    {
      readBuf.FromReadSide();
      readBuf.FromValid();
      ready := !phase.Stopped? && Needed(phase) <= readBuf.totalSize;
    }

    method NodeLeft(ghost u: Channel) returns (left: bool)
      requires Shows(u)
      ensures left == u.mem.inbox.hasNode
    {
      readBuf.HeadOrNone();
      left := readBuf.head != null;
    }

    /** One part of the loop. A response to no session is left in the buffer. */
    method RunOne(ghost u: Channel)
      requires Shows(u) && ClientCanRun(u)
      modifies this, readBuf, readBuf.Repr
      ensures Shows(ClientPart(u)) && fresh(readBuf.Repr - old(readBuf.Repr))
    {
      hide ShowsIn, ShowsOut, Parse;
      match phase {
        case WantHeaderLen =>
          var taken := TakeLength(readBuf, u.mem.inbox, u.client.readBuf);
          phase := if Value32(taken) < LIMIT_MAX then WantHeader(Value32(taken)) else Stopped(LongLength);
        case WantHeader(len) =>
          var taken := TakeMessage(readBuf, u.mem.inbox, u.client.readBuf, len);
          phase := ReadHeader(taken);
        case WantBodyLen(h) =>
          var taken := TakeLength(readBuf, u.mem.inbox, u.client.readBuf);
          phase := if Value32(taken) < LIMIT_MAX then WantBody(h, Value32(taken)) else Stopped(LongLength);
        case WantBody(h, len) =>
          phase := WantHeaderLen;
          if h.requestId !in registry {
            notFound := notFound + 1;
          } else {
            var call := registry[h.requestId];
            registry := registry - {h.requestId};
            var taken := TakeMessage(readBuf, u.mem.inbox, u.client.readBuf, len);
            completed := completed + [Completion(h.requestId, call, taken)];
          }
      }
    }

    /** Lines 88-93. */
    method ReadHeader(taken: Bytes) returns (next: Phase)
      ensures next == match Parse(taken) case None => Stopped(BadHeader) case Some(h) => WantBodyLen(h)
    {
      var header := new HeaderMessage();
      var ok := header.InternalParse(taken);
      return if ok then WantBodyLen(header.Value()) else Stopped(BadHeader);
    }
  }

  lemma WrittenFrame(o: Outbox, header: nat, body: nat)
    ensures WritesFrame(o, header, body).whole == FrameFits(o.at, header, body)
  {
  }

  lemma RunOver(u: Channel)
    requires !ClientCanRun(u)
    ensures ClientRun(u) == u
  {
  }

  lemma RunPart(u: Channel)
    requires ClientCanRun(u)
    ensures ClientRun(u) == ClientRun(ClientPart(u))
    ensures var c, c' := u.client, ClientPart(u).client;
      |c'.readBuf| < |c.readBuf| || (|c'.readBuf| == |c.readBuf| && Rank(c'.phase) < Rank(c.phase))
  {
    ClientStepShrinks(u.client);
  }
}
