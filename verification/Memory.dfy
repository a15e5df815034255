/**
 The memory of one end of a connection, as far as it decides what happens: where the last blocks of its two
 buffers are written to, whether the read buffer has a node, and whether the write buffer is whole.
 */
module Memories {
  import opened Base
  import opened BufferBlocks
  import opened Geometry

  /** The read buffer: the write position of its last block, and whether it has a block at all. */
  datatype Inbox = Inbox(at: nat, hasNode: bool)

  /** The write buffer: the write position of its last block, the bytes it holds, and whether nothing was overwritten. */
  datatype Outbox = Outbox(at: nat, unsent: nat, whole: bool)

  datatype Memory = Memory(inbox: Inbox, outbox: Outbox)

  const FreshMemory: Memory := Memory(Inbox(0, true), Outbox(0, 0, true))

  predicate Sound(m: Memory) {
    m.inbox.hasNode && m.outbox.whole
  }

  predicate Placed(m: Memory) {
    m.inbox.at < BLOCK_SIZE && m.outbox.at <= BLOCK_SIZE
  }

  function Receives(i: Inbox, n: nat): Inbox {
    i.(at := AfterReceive(i.at, n))
  }

  /** A length of four bytes is read while `size` bytes are buffered. */
  function ReadsLength(i: Inbox, size: nat): Inbox {
    i.(hasNode := !LosesNode(size, i.at, 4))
  }

  /** A frame is written: the header and the body are serialized, each after its length. */
  function WritesFrame(o: Outbox, header: nat, body: nat): Outbox {
    if FrameFits(o.at, header, body)
    then Outbox(AfterFrame(o.at, header, body), o.unsent + 8 + header + body, true)
    else o.(whole := false)
  }

  /** The socket accepts up to `n` of the buffered bytes. */
  function Sends(o: Outbox, n: nat): Outbox {
    var k := Min(n, o.unsent);
    Outbox(AfterSend(o.at, o.unsent, k), o.unsent - k, o.whole)
  }
}
