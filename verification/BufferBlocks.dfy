/** A fixed-size block of a buffer: util/buffer_block.h. */
module BufferBlocks {
  import opened Base

  const BLOCK_SIZE: nat := 4096

  /** The value of a block: its storage and the two positions. */
  datatype Block = Block(data: Bytes, readPos: nat, writePos: nat) {
    ghost predicate Ok() {
      |data| == BLOCK_SIZE && readPos <= writePos <= BLOCK_SIZE
    }

    /** The bytes written and not yet read. */
    ghost function Unread(): Bytes {
      if readPos <= writePos <= |data| then data[readPos..writePos] else []
    }

    predicate Full() {
      writePos == BLOCK_SIZE
    }

    predicate Empty() {
      readPos == writePos
    }
  }

  /** `b` after as much of `src` as fits has been written at the write position. */
  ghost function Wrote(b: Block, src: Bytes): Block
    requires b.Ok()
  {
    var n := Min(|src|, BLOCK_SIZE - b.writePos);
    b.(data := b.data[..b.writePos] + src[..n] + b.data[b.writePos + n..], writePos := b.writePos + n)
  }

  lemma WroteUnread(b: Block, src: Bytes)
    requires b.Ok()
    ensures var n := Min(|src|, BLOCK_SIZE - b.writePos);
      Wrote(b, src).Ok() && Wrote(b, src).Unread() == b.Unread() + src[..n]
  {
  }

  class BufferBlock {
    const data: array<Byte>
    var readPos: nat
    var writePos: nat

    constructor ()
      ensures fresh(data) && View().Ok() && readPos == writePos == 0
    {
      data := new Byte[BLOCK_SIZE];
      readPos, writePos := 0, 0;
    }

    ghost function View(): Block
      reads this, data
    {
      Block(data[..], readPos, writePos)
    }

    function Size(): int
      reads this
    {
      writePos - readPos
    }

    function Available(): int
      reads this
    {
      BLOCK_SIZE - writePos
    }

    predicate Full()
      reads this
    {
      writePos == BLOCK_SIZE
    }

    predicate Empty()
      reads this
    {
      readPos == writePos
    }

    /** Copies as much of `src` as fits. */
    method Write(src: Bytes) returns (len: nat)
      requires View().Ok()
      modifies this`writePos, data
      ensures len == Min(|src|, old(Available())) && View() == old(Wrote(View(), src))
    {
      len := Min(|src|, Available());
      CopyIn(writePos, src[..len]);
      writePos := writePos + len;
    }

    /** `memcpy` to a position of the storage. */
    method CopyIn(at: nat, src: Bytes)
      requires at + |src| <= data.Length
      modifies data
      ensures data[..] == old(data[..at]) + src + old(data[at + |src|..])
    {
      CopyBytes(data, at, src);
    }

    /** Drops up to `len` unread bytes, and starts over at position 0 when none is left. */
    method Read(len: nat) returns (n: nat)
      requires View().Ok()
      modifies this`readPos, this`writePos
      ensures n == Min(len, old(Size())) && View().Ok()
      ensures if n == old(Size()) then readPos == writePos == 0
              else readPos == old(readPos) + n && writePos == old(writePos)
      ensures View().Unread() == old(View().Unread())[n..]
    {
      n := Min(len, Size());
      readPos := readPos + n;
      if Empty() {
        Reset();
      }
    }

    method Reset()
      modifies this`readPos, this`writePos
      ensures readPos == writePos == 0
    {
      readPos, writePos := 0, 0;
    }

    /** Copy assignment of one block to another: storage and positions. */
    method Assign(other: BufferBlock)
      requires data.Length == other.data.Length && data != other.data
      modifies this`readPos, this`writePos, data
      ensures View() == other.View()
    {
      CopyIn(0, other.data[..]);
      readPos, writePos := other.readPos, other.writePos;
    }
  }

  method CopyBytes(data: array<Byte>, at: nat, src: Bytes)
    requires at + |src| <= data.Length
    modifies data
    ensures data[..] == old(data[..at]) + src + old(data[at + |src|..])
  {
    for i := 0 to |src|
      invariant data[..at] == old(data[..at])
      invariant data[at..at + i] == src[..i]
      invariant data[at + i..] == old(data[at + i..])
    {
      data[at + i] := src[i];
    }
  }
}
