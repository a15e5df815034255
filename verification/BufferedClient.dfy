/**
 The client channel over its two chained buffers: the receive loop with the copying reads that can leave it without
 a node, and requests that can overwrite the last block of the write buffer.
 */
module BufferedClients {
  import opened Base
  import opened BufferBlocks
  import opened Geometry
  import opened Memories
  import opened Varints
  import opened HeaderCodec
  import opened Frames
  import opened ServerLoop
  import opened BufferedServers
  import opened RpcProtocol

  datatype Channel = Channel(client: Client, mem: Memory)

  const NewChannel: Channel := Channel(InitialClient, FreshMemory)

  /** `CallMethod`: the session is registered even where the frame is not written intact. */
  function Invoke(p: Channel, call: Call): Channel
    requires 0 <= p.client.requestId < ID_END
  {
    var r := RequestOf(p.client.requestId, call);
    var o := WritesFrame(p.mem.outbox, |Serialize(r.header)|, |r.body|);
    var c := Issue(p.client, call);
    Channel(if o.whole then c else c.(writeBuf := p.client.writeBuf), p.mem.(outbox := o))
  }

  /** One part of the receive loop. */
  function ClientPart(p: Channel): Channel
    requires ClientReady(p.client)
  {
    var c := p.client;
    Channel(ClientStep(c), if LengthPhase(c.phase) then p.mem.(inbox := ReadsLength(p.mem.inbox, |c.readBuf|)) else p.mem)
  }

  predicate ClientCanRun(p: Channel) {
    ClientReady(p.client) && p.mem.inbox.hasNode
  }

  function ClientRun(p: Channel): Channel
    decreases |p.client.readBuf|, Rank(p.client.phase)
  {
    if ClientCanRun(p) then
      ClientStepShrinks(p.client);
      ClientRun(ClientPart(p))
    else p
  }

  lemma ClientStepShrinks(c: Client)
    requires ClientReady(c)
    ensures var c' := ClientStep(c);
      |c'.readBuf| < |c.readBuf| || (|c'.readBuf| == |c.readBuf| && Rank(c'.phase) < Rank(c.phase))
  {
    hide Parse;
  }

  function ClientReceive(p: Channel, bytes: Bytes): Channel {
    Channel(MoreClient(p.client, bytes), p.mem.(inbox := Receives(p.mem.inbox, |bytes|)))
  }

  function ClientDeliver(p: Channel, bytes: Bytes): Channel {
    ClientRun(ClientReceive(p, bytes))
  }

  function ClientDeliverAll(p: Channel, chunks: seq<Bytes>): Channel
    decreases |chunks|
  {
    if chunks == [] then p else ClientDeliverAll(ClientDeliver(p, chunks[0]), chunks[1..])
  }

  predicate ClientSane(p: Channel) {
    p.mem.inbox.hasNode || p.client.phase.Stopped?
  }

  // ---------------------------------------------------------------- the loop on the bytes alone

  function ClientDrain(c: Client): Client
    decreases |c.readBuf|, Rank(c.phase)
  {
    if ClientReady(c) then
      ClientStepShrinks(c);
      ClientDrain(ClientStep(c))
    else c
  }

  function ClientFeed(c: Client, bytes: Bytes): Client {
    ClientDrain(MoreClient(c, bytes))
  }

  lemma {:induction false} ClientDrainMore(c: Client, bytes: Bytes)
    ensures ClientDrain(MoreClient(ClientDrain(c), bytes)) == ClientDrain(MoreClient(c, bytes))
    decreases |c.readBuf|, Rank(c.phase)
  {
    hide ClientStep;
    if ClientReady(c) {
      ClientStepMore(c, bytes);
      ClientStepShrinks(c);
      ClientDrainMore(ClientStep(c), bytes);
    }
  }

  lemma ClientFeedTwice(c: Client, a: Bytes, b: Bytes)
    ensures ClientFeed(ClientFeed(c, a), b) == ClientFeed(c, a + b)
  {
    hide ClientDrain;
    ClientDrainMore(MoreClient(c, a), b);
    assert c.readBuf + a + b == c.readBuf + (a + b);
  }

  // ---------------------------------------------------------------- where a length must not be cut off

  /** With the bytes there are, the loop will read a length that is all there is, and go on after it. */
  predicate LengthIsAll(c: Client)
    decreases |c.readBuf|, Rank(c.phase)
  {
    ClientReady(c) &&
    (ClientStepShrinks(c);
     (LengthPhase(c.phase) && |c.readBuf| == 4 && !ClientStep(c).phase.Stopped?) || LengthIsAll(ClientStep(c)))
  }

  /** The last byte of the bytes fed to a waiting loop makes it read a length that is all there is. */
  predicate ClientEndsAt(c: Client, bytes: Bytes) {
    bytes != [] && var n := |bytes| - 1; LengthIsAll(MoreClient(ClientFeed(c, bytes[..n]), [bytes[n]]))
  }

  /** Only the last byte decides: a length read earlier leaves at least that byte. */
  lemma {:induction false} LastByteDecides(c: Client, x: Byte)
    ensures LengthIsAll(MoreClient(c, [x])) <==> LengthIsAll(MoreClient(ClientDrain(c), [x]))
    decreases |c.readBuf|, Rank(c.phase)
  {
    hide ClientStep;
    if ClientReady(c) {
      ClientStepShrinks(c);
      ClientStepMore(c, [x]);
      LastByteDecides(ClientStep(c), x);
    }
  }

  /** What comes of running the loop: what the loop on the bytes alone does, unless a length is all there is. */
  lemma {:induction false} ClientRunAgrees(p: Channel)
    requires ClientSane(p)
    ensures var u := ClientRun(p);
      if p.mem.inbox.at != 0 && LengthIsAll(p.client) then !ClientSane(u)
      else u.client == ClientDrain(p.client) && ClientSane(u) && u.mem.inbox.at == p.mem.inbox.at && u.mem.outbox == p.mem.outbox
    decreases |p.client.readBuf|, Rank(p.client.phase)
  {
    hide ClientStep;
    if ClientCanRun(p) {
      ClientStepShrinks(p.client);
      var p' := ClientPart(p);
      if ClientSane(p') {
        if !p'.mem.inbox.hasNode { NoMoreLengths(p); }
        ClientRunAgrees(p');
      }
    }
  }

  /** A loop that has ended reads no more. */
  lemma NoMoreLengths(p: Channel)
    requires ClientReady(p.client) && ClientStep(p.client).phase.Stopped?
    ensures !LengthIsAll(ClientStep(p.client)) && ClientDrain(ClientStep(p.client)) == ClientStep(p.client)
  {
    hide ClientStep;
  }

  // ---------------------------------------------------------------- a stream, read by read

  ghost predicate ClientInStep(p: Channel, c: Client, read: Bytes) {
    p.client == ClientFeed(c, read) && ClientSane(p) && p.mem.inbox.at == |read| % BLOCK_SIZE
  }

  predicate ClientCleanCut(c: Client, prefix: Bytes) {
    |prefix| % BLOCK_SIZE == 0 || !ClientEndsAt(c, prefix)
  }

  predicate ClientCleanAfter(c: Client, read: Bytes, chunks: seq<Bytes>)
    decreases |chunks|
  {
    chunks == [] || (ClientCleanCut(c, read + chunks[0]) && ClientCleanAfter(c, read + chunks[0], chunks[1..]))
  }

  lemma ClientDeliverOutcome(p: Channel, c: Client, read: Bytes, chunk: Bytes)
    requires ClientInStep(p, c, read) && chunk != []
    ensures if ClientCleanCut(c, read + chunk) then ClientInStep(ClientDeliver(p, chunk), c, read + chunk)
            else !ClientSane(ClientDeliver(p, chunk))
  {
    hide ClientDrain, ClientRun, LengthIsAll;
    var n := |chunk| - 1;
    var x := chunk[n];
    ClientRunAgrees(ClientReceive(p, chunk));
    ClientFeedTwice(c, read, chunk);
    ClientFeedTwice(c, read, chunk[..n]);
    assert (read + chunk)[..|read| + n] == read + chunk[..n];
    var short := MoreClient(p.client, chunk[..n]);
    LastByteDecides(short, x);
    assert chunk == chunk[..n] + [x];
    assert MoreClient(short, [x]).readBuf == MoreClient(p.client, chunk).readBuf;
    assert |read + chunk| % BLOCK_SIZE == AfterReceive(|read| % BLOCK_SIZE, |chunk|);
  }

  lemma {:induction false} ClientInsaneStays(p: Channel, chunks: seq<Bytes>)
    requires !ClientSane(p)
    ensures !ClientSane(ClientDeliverAll(p, chunks))
    decreases |chunks|
  {
    if chunks != [] { ClientInsaneStays(ClientDeliver(p, chunks[0]), chunks[1..]); }
  }

  /**
   Main result for the client: with sessions registered as in `c`, the responses in a stream are handled as on the
   bytes alone, however it is split into reads, if and only if no read ends where a length would be all there is,
   other than on a block boundary.
   */
  lemma {:induction false} ResponsesExactlyWhen(p: Channel, c: Client, read: Bytes, chunks: seq<Bytes>)
    requires ClientInStep(p, c, read) && Deliverable(p.mem.inbox.at, chunks)
    ensures var u := ClientDeliverAll(p, chunks);
      (u.client == ClientFeed(c, read + Joined(chunks)) && ClientSane(u)) <==> ClientCleanAfter(c, read, chunks)
    decreases |chunks|
  {
    hide ClientFeed, ClientDeliver, ClientEndsAt, ClientSane;
    if chunks == [] {
      assert read + [] == read;
      FromInStep(p, c, read);
    } else {
      var d := chunks[0];
      Assoc(read, d, Joined(chunks[1..]));
      ClientDeliverOutcome(p, c, read, d);
      if ClientCleanCut(c, read + d) {
        NextAt(read, d);
        ResponsesExactlyWhen(ClientDeliver(p, d), c, read + d, chunks[1..]);
      } else {
        ClientInsaneStays(ClientDeliver(p, d), chunks[1..]);
      }
    }
  }

  lemma FromInStep(p: Channel, c: Client, read: Bytes)
    requires ClientInStep(p, c, read)
    ensures ClientSane(p)
  {
  }
}
