/**
 Where bytes lie in a chain of blocks, as arithmetic. Of a chain it is enough to know how many bytes are unread
 and the write position `at` of its last block.
 */
module Geometry {
  import opened Base
  import opened BufferBlocks

  // ---------------------------------------------------------------- a chain that is received into

  /** The last block's write position after `n` bytes were received into its room. */
  function AfterReceive(at: nat, n: nat): nat {
    (at + n) % BLOCK_SIZE
  }

  /** The unread bytes in the first block, of `size` unread bytes in all. */
  function FirstSize(size: nat, at: nat): nat {
    if size <= at then size else (size - at - 1) % BLOCK_SIZE + 1
  }

  /** The read position of the first block. */
  function HeadPos(size: nat, at: nat): nat {
    if size <= at then at - size else BLOCK_SIZE - FirstSize(size, at)
  }

  /** A copying read of `len` of `size` unread bytes leaves the chain without a node. */
  predicate LosesNode(size: nat, at: nat, len: nat) {
    len > size || (len == size && at != 0)
  }

  // ---------------------------------------------------------------- a chain that is written to

  /** The last block's write position after `n` bytes were copied in: a new block is only taken for a byte. */
  function AfterWrite(at: nat, n: nat): nat {
    if n == 0 then at else (at + n - 1) % BLOCK_SIZE + 1
  }

  /** A serialized message of `n` bytes is written intact: it fits the room of the last block. */
  predicate MessageFits(at: nat, n: nat) {
    n <= BLOCK_SIZE - at
  }

  /** Both messages of a frame are written intact, each after its length in four bytes. */
  predicate FrameFits(at: nat, header: nat, body: nat) {
    && MessageFits(AfterWrite(at, 4), header)
    && MessageFits(AfterWrite(AfterWrite(at, 4) + header, 4), body)
  }

  function AfterFrame(at: nat, header: nat, body: nat): nat {
    AfterWrite(AfterWrite(at, 4) + header, 4) + body
  }

  /** After the first `n` of `size` buffered bytes were sent: a chain that was sent completely starts over. */
  function AfterSend(at: nat, size: nat, n: nat): nat {
    if n > 0 && n == size then 0 else at
  }

  /** The bytes that one round of gathering up to `spans` blocks offers. */
  function OfferedSize(size: nat, at: nat, spans: nat): nat
    requires spans > 0
  {
    Min(size, FirstSize(size, at) + (spans - 1) * BLOCK_SIZE)
  }

  lemma FrameFitsBounds(at: nat, header: nat, body: nat)
    requires at <= BLOCK_SIZE && FrameFits(at, header, body)
    ensures AfterFrame(at, header, body) <= BLOCK_SIZE
  {
  }

  /** Which frames can be written intact on some last block: no header or body of a whole block is among them. */
  lemma SomeTailFits(header: nat, body: nat)
    ensures (exists at: nat :: at <= BLOCK_SIZE && FrameFits(at, header, body))
      <==> header < BLOCK_SIZE && body < BLOCK_SIZE && header + body <= 8187
  {
    if header < BLOCK_SIZE && body < BLOCK_SIZE && header + body <= 8187 {
      var a := if header <= 4092 then 4093 - header else 1;
      var at := if a >= 4 then a - 4 else a + 4092;
      assert AfterWrite(at, 4) == a;
      assert FrameFits(at, header, body);
    }
  }

  /** Writing in two pieces is writing both. */
  lemma WriteTwice(at: nat, m: nat, n: nat)
    requires at <= BLOCK_SIZE
    ensures AfterWrite(AfterWrite(at, m), n) == AfterWrite(at, m + n) <= BLOCK_SIZE
  {
  }

  /** A first block with `first` unread bytes, `rest` full ones, and a last one written up to `at`. */
  lemma FirstOfSeveral(first: nat, rest: nat, at: nat)
    requires 0 < first <= BLOCK_SIZE
    ensures var size := first + BLOCK_SIZE * rest + at;
      FirstSize(size, at) == first && HeadPos(size, at) == BLOCK_SIZE - first
  {
    assert (first - 1 + BLOCK_SIZE * rest) % BLOCK_SIZE == first - 1;
  }

  lemma FirstOfOne(at: nat, pos: nat)
    requires pos <= at
    ensures FirstSize(at - pos, at) == at - pos && HeadPos(at - pos, at) == pos
  {
  }

  /** In the middle of a copying write, `n` bytes in: perhaps a new block was already taken for the next byte. */
  predicate Writing(start: nat, n: nat, at: nat) {
    at == AfterWrite(start, n) || (at == 0 && AfterWrite(start, n) == BLOCK_SIZE)
  }

  lemma WritingStart(start: nat)
    ensures Writing(start, 0, start) && AfterWrite(start, 0) == start
  {
  }

  lemma WritingMore(start: nat, n: nat, at: nat, more: nat)
    requires start <= BLOCK_SIZE && Writing(start, n, at) && at + more <= BLOCK_SIZE
    ensures more > 0 ==> at + more == AfterWrite(start, n + more) && Writing(start, n + more, at + more)
    ensures AfterWrite(start, n) <= BLOCK_SIZE && (at == BLOCK_SIZE ==> Writing(start, n, 0)) && BLOCK_SIZE > 0
  {
    WriteTwice(start, n, more);
  }

  /** A chain that is received into wraps around its blocks: the first one's read position is that of all bytes consumed. */
  lemma ReadPositions(consumed: nat, size: nat)
    ensures var at := (consumed + size) % BLOCK_SIZE;
      HeadPos(size, at) == consumed % BLOCK_SIZE && FirstSize(size, at) == Min(size, BLOCK_SIZE - consumed % BLOCK_SIZE)
  {
    var at, first := (consumed + size) % BLOCK_SIZE, BLOCK_SIZE - consumed % BLOCK_SIZE;
    var blocks := (consumed + size) / BLOCK_SIZE - consumed / BLOCK_SIZE;
    assert consumed + size == BLOCK_SIZE * ((consumed + size) / BLOCK_SIZE) + at;
    assert consumed == BLOCK_SIZE * (consumed / BLOCK_SIZE) + consumed % BLOCK_SIZE;
    assert size == BLOCK_SIZE * (blocks - 1) + first + at;
    if size > at {
      FirstOfSeveral(first, blocks - 1, at);
    }
  }
}
