/** Both ends write a frame and read its parts in the same way, through the streams over their chained buffers. */
module FrameWriters {
  import opened Base
  import opened BufferBlocks
  import opened Geometry
  import opened BlockChains
  import opened ChainedBuffers
  import opened Memories
  import opened Varints
  import opened HeaderCodec
  import opened Frames

  /** A write buffer holds what was written and not sent. */
  ghost predicate ShowsOut(buf: ChainedBuffer, o: Outbox, sent: Bytes, written: Bytes)
    reads buf, buf.Repr
  {
    && buf.Owned() && buf.chain != [] && (buf.Valid() <==> o.whole)
    && if o.whole then Tight(buf.blocks) && sent + buf.Unread() == written && |buf.Unread()| == o.unsent && buf.At() == o.at <= BLOCK_SIZE
       else |buf.Unread()| < buf.totalSize
  }

  /** A read buffer holds what was received and not consumed. */
  ghost predicate ShowsIn(buf: ChainedBuffer, i: Inbox, unread: Bytes)
    reads buf, buf.Repr
  {
    && buf.ReadSide() && buf.Unread() == unread && (buf.chain != [] <==> i.hasNode)
    && (i.hasNode ==> buf.At() == i.at)
  }

  lemma OutAt(buf: ChainedBuffer, o: Outbox, sent: Bytes, written: Bytes)
    requires ShowsOut(buf, o, sent, written) && o.whole
    ensures o.at <= BLOCK_SIZE
  {
  }

  /** A new buffer, as either end uses it. */
  lemma NewBuffer(buf: ChainedBuffer)
    requires buf.ReadSide() && buf.chain != [] && buf.Unread() == [] && buf.At() == 0 && Tight(buf.blocks)
    ensures ShowsIn(buf, Inbox(0, true), []) && ShowsOut(buf, Outbox(0, 0, true), [], []) && buf in buf.Repr
  {
    hide Contents, Tight;
    buf.FromReadSide();
    buf.FromValid();
    buf.GetOwned(0);
    assert [] + buf.Unread() == [];
  }

  /**
   A length, the serialized header, a length and the serialized body. A message that does not fit the last block
   overwrites it, and what is written after that is not modelled.
   */
  method WriteFrame(buf: ChainedBuffer, ghost o: Outbox, ghost sent: Bytes, ghost written: Bytes, headerLen: nat, header: Bytes, body: Bytes)
    returns (fits: bool)
    requires ShowsOut(buf, o, sent, written) && o.whole && headerLen == |header|
    modifies buf, buf.Repr
    ensures fresh(buf.Repr - old(buf.Repr)) && buf in buf.Repr && fits == FrameFits(o.at, |header|, |body|)
    ensures ShowsOut(buf, WritesFrame(o, |header|, |body|), sent,
      if fits then written + (Len32(|header|) + (header + (Len32(|body|) + body))) else written)
  {
    hide ChainedBuffer.Owned, ChainedBuffer.Valid, Contents, Tight, AfterWrite, ChainedBuffer.ReadSide;
    ghost var all := buf.Unread();
    var n := buf.Write(Len32(headerLen));
    fits := WriteFitting(buf, header);
    buf.InRepr();
    if !fits {
      return;
    }
    n := buf.Write(Len32(|body|));
    fits := WriteFitting(buf, body);
    buf.InRepr();
    FourParts(all, Len32(|header|), header, Len32(|body|), body);
    Assoc(sent, all, Len32(|header|) + (header + (Len32(|body|) + body)));
  }

  lemma FourParts(all: Bytes, a: Bytes, b: Bytes, c: Bytes, d: Bytes)
    ensures all + a + b + c + d == all + (a + (b + (c + d)))
  {
    Assoc(all + a + b, c, d);
    Assoc(all + a, b, c + d);
    Assoc(all, a, b + (c + d));
  }

  method WriteFitting(buf: ChainedBuffer, message: Bytes) returns (fits: bool)
    requires buf.Valid() && Tight(buf.blocks) && buf.chain != []
    modifies buf, buf.Repr
    ensures fresh(buf.Repr - old(buf.Repr)) && fits == MessageFits(old(buf.At()), |message|)
    ensures buf.Owned() && buf.chain != [] && (buf.Valid() <==> fits)
    ensures if fits then Tight(buf.blocks) && buf.Unread() == old(buf.Unread()) + message && buf.At() == old(buf.At()) + |message|
            else |buf.Unread()| < buf.totalSize
  {
    hide ChainedBuffer.Owned, ChainedBuffer.Valid, Contents, Tight;
    buf.FromValid();
    buf.GetOwned(|buf.chain| - 1);
    fits := |message| <= BLOCK_SIZE - buf.tail.block.writePos;
    buf.WriteMessage(message);
  }

  /** The socket accepts up to `n` bytes. */
  method SendSome(buf: ChainedBuffer, ghost o: Outbox, ghost sent: Bytes, ghost written: Bytes, n: nat) returns (ghost gone: Bytes)
    requires ShowsOut(buf, o, sent, written) && o.whole
    modifies buf, buf.Repr
    ensures fresh(buf.Repr - old(buf.Repr)) && buf in buf.Repr && gone == old(buf.Unread())[..Min(n, o.unsent)]
    ensures ShowsOut(buf, Sends(o, n), sent + gone, written)
  {
    hide ChainedBuffer.Owned, Contents, Tight, ChainedBuffer.ReadSide;
    buf.FromValid();
    var k := Min(n, buf.totalSize);
    ghost var all := buf.Unread();
    gone := all[..k];
    buf.CommitSend(k);
    buf.FromValid();
    buf.InRepr();
    Assoc(sent, all[..k], all[k..]);
    assert all[..k] + all[k..] == all;
  }

  /** The copying read of a length. */
  method TakeLength(buf: ChainedBuffer, ghost i: Inbox, ghost unread: Bytes) returns (taken: Bytes)
    requires ShowsIn(buf, i, unread) && i.hasNode && |unread| >= 4
    modifies buf, buf.Repr
    ensures buf.Repr == old(buf.Repr) && taken == unread[..4]
    ensures ShowsIn(buf, ReadsLength(i, |unread|), unread[4..])
  {
    hide ChainedBuffer.ReadSide, Contents, LosesNode;
    taken := buf.Read(4);
  }

  /** A message parsed under a limit of its length takes exactly that many bytes. */
  method TakeMessage(buf: ChainedBuffer, ghost i: Inbox, ghost unread: Bytes, len: nat) returns (taken: Bytes)
    requires ShowsIn(buf, i, unread) && i.hasNode && len <= |unread| && len < LIMIT_MAX
    modifies buf, buf.Repr
    ensures buf.Repr == old(buf.Repr) && taken == unread[..len]
    ensures ShowsIn(buf, i, unread[len..])
  {
    hide ChainedBuffer.ReadSide, Contents;
    taken := buf.DrainUnderLimit(len);
    buf.PopLimit();
  }

  /** One read system call delivers `bytes`, and they are committed. */
  method ReceiveBytes(buf: ChainedBuffer, ghost i: Inbox, ghost unread: Bytes, bytes: Bytes)
    requires ShowsIn(buf, i, unread) && i.hasNode && |bytes| <= BLOCK_SIZE - i.at
    modifies buf, buf.Repr
    ensures fresh(buf.Repr - old(buf.Repr)) && buf in buf.Repr && ShowsIn(buf, Receives(i, |bytes|), unread + bytes)
  {
    hide ChainedBuffer.Owned, ChainedBuffer.ReadSide, ChainedBuffer.Room, Contents, ReadShape;
    buf.RoomSize();
    buf.FromReadSide();
    buf.GetOwned(|buf.chain| - 1);
    buf.FillRoom(0, bytes);
    buf.RoomSize();
    assert buf.Room()[0..0 + |bytes|] == buf.Room()[..|bytes|] == bytes;
    buf.CommitResv(|bytes|);
    buf.FromReadSide();
    buf.GetOwned(0);
    assert unread + [] == unread;
  }

  /** A message under a limit has a length below it. */
  predicate LimitOk(phase: Phase) {
    phase.WantHeader? || phase.WantBody? ==> phase.len < LIMIT_MAX
  }
}
