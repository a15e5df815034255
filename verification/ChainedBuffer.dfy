/**
 The chained byte buffer of util/chained_buffer.h: a singly linked chain of fixed-size blocks with a
 free list of spare nodes, a byte counter, a read limit and zero-copy access at both ends.
 */
module ChainedBuffers {
  import opened Base
  import opened BufferBlocks
  import opened BlockChains
  import opened Geometry

  const INT32_MAX: int := 0x7FFF_FFFF

  // ---------------------------------------------------------------- nodes

  class Node {
    const block: BufferBlock
    var next: Node?

    constructor ()
      ensures fresh(block) && fresh(block.data) && next == null
      ensures block.View().Ok() && block.readPos == block.writePos == 0
    {
      block := new BufferBlock();
      next := null;
    }
  }

  ghost function NextIn(nodes: seq<Node>, i: int): Node?
    requires -1 <= i < |nodes|
  {
    if i + 1 < |nodes| then nodes[i + 1] else null
  }

  /** Two nodes that share no memory. */
  ghost predicate Disjoint(a: Node, b: Node) {
    a != b && a.block != b.block && a.block.data != b.block.data
  }

  /** No node occurs twice in the chain and the free list together. */
  ghost predicate Separate(chain: seq<Node>, free: seq<Node>) {
    && (forall i, j :: 0 <= i < j < |chain| ==> Disjoint(chain[i], chain[j]))
    && (forall i, j :: 0 <= i < j < |free| ==> Disjoint(free[i], free[j]))
    && (forall i, j :: 0 <= i < |chain| && 0 <= j < |free| ==> Disjoint(chain[i], free[j]))
  }

  lemma SeparateSnoc(chain: seq<Node>, free: seq<Node>, n: Node)
    requires Separate(chain, free)
    requires forall i :: 0 <= i < |chain| ==> Disjoint(chain[i], n)
    requires forall i :: 0 <= i < |free| ==> Disjoint(n, free[i])
    ensures Separate(chain + [n], free)
    ensures |chain| > 0 ==> forall i :: 0 <= i < |chain| - 1 ==> chain[i] != chain[|chain| - 1]
    ensures |chain| > 0 ==> forall i :: 0 <= i < |free| ==> free[i] != chain[|chain| - 1]
  {
  }

  lemma SeparateTake(chain: seq<Node>, free: seq<Node>)
    requires Separate(chain, free) && |free| > 0
    ensures Separate(chain, free[1..])
    ensures forall i :: 0 <= i < |chain| ==> Disjoint(chain[i], free[0])
    ensures forall i :: 1 <= i < |free| ==> Disjoint(free[0], free[i])
  {
  }

  /** The nodes of the chain and the free nodes are not `n`, nor is their memory. */
  lemma DisjointFrom(chain: seq<Node>, free: seq<Node>, n: Node)
    requires forall i :: 0 <= i < |chain| ==> Disjoint(chain[i], n)
    requires forall i :: 0 <= i < |free| ==> Disjoint(n, free[i])
    ensures forall i :: 0 <= i < |chain| ==> chain[i] != n && chain[i].block != n.block
    ensures forall i :: 0 <= i < |free| ==> free[i] != n && free[i].block != n.block
  {
  }

  lemma SeparateDrop(chain: seq<Node>, free: seq<Node>)
    requires Separate(chain, free) && |chain| > 0
    ensures Separate(chain[1..], [chain[0]] + free) && Separate(chain[1..], free)
    ensures forall i :: 1 <= i < |chain| ==> Disjoint(chain[0], chain[i])
    ensures forall i :: 0 <= i < |free| ==> Disjoint(chain[0], free[i])
  {
    forall i, j | 0 <= i < j < |free| + 1
      ensures Disjoint(([chain[0]] + free)[i], ([chain[0]] + free)[j])
    {
    }
  }

  // ---------------------------------------------------------------- the buffer

  class ChainedBuffer {
    var head: Node?
    var tail: Node?
    var freeList: Node?
    var totalSize: int
    var consumedBytes: nat
    var limit: int

    ghost var chain: seq<Node>      // the nodes from head to tail
    ghost var free: seq<Node>       // the nodes from freeList
    ghost var blocks: seq<Block>    // the values of the blocks of the chain
    ghost var made: nat             // nodes ever allocated
    ghost var peak: nat             // the largest chain length so far
    ghost var consumed: Bytes       // the bytes read and not backed up
    ghost var Repr: set<object>

    /** Memory: an acyclic chain and an acyclic free list that share no node, with `tail` the last of the chain. */
    ghost predicate Linked()
      reads this`head, this`tail, this`freeList, this`chain, this`free, this`Repr, Repr - {this}
    {
      && this in Repr
      && (forall i :: 0 <= i < |chain| ==> chain[i] in Repr && chain[i].block in Repr && chain[i].block.data in Repr)
      && (forall i :: 0 <= i < |free| ==> free[i] in Repr && free[i].block in Repr && free[i].block.data in Repr)
      && (forall i {:trigger chain[i].next} :: 0 <= i < |chain| ==> chain[i].next == NextIn(chain, i))
      && (forall i {:trigger free[i].next} :: 0 <= i < |free| ==> free[i].next == NextIn(free, i))
      && head == NextIn(chain, -1) && freeList == NextIn(free, -1)
      && tail == (if chain == [] then null else chain[|chain| - 1])
      && Separate(chain, free)
    }

    /** Free nodes are reset, and every node ever allocated is in the chain or free. */
    ghost predicate Owned()
      reads this`head, this`tail, this`freeList, this`chain, this`free, this`blocks, this`made, this`peak
      reads this`Repr, Repr - {this}
    {
      Shown() && BlocksOk(blocks) && made == |chain| + |free| == peak
    }

    ghost predicate Valid()
      reads this, Repr
    {
      Owned() && totalSize == |Contents(blocks)| && consumedBytes == |consumed|
    }

    /** The bytes a reader would get, in order. */
    ghost function Unread(): Bytes
      reads this`blocks
    {
      Contents(blocks)
    }

    /** The write position of the last block. */
    ghost function At(): nat
      reads this`blocks
    {
      LastAt(blocks)
    }

    constructor ()
      ensures Valid() && fresh(Repr) && Unread() == [] && At() == 0 && consumed == [] && limit == INT32_MAX
      ensures |chain| == 1 && Tight(blocks) && Roomy(blocks) && ReadSide()
    {
      var n := new Node();
      head, tail, freeList, totalSize, consumedBytes, limit := n, n, null, 0, 0, INT32_MAX;
      chain, free, blocks, made, peak, consumed := [n], [], [n.block.View()], 1, 1, [];
      Repr := {this, n, n.block, n.block.data};
    }

    /** A node in neither list, with an empty block. */
    ghost predicate Spare(n: Node)
      reads this`chain, this`free, this`Repr, n, n.block, n.block.data
    {
      && n in Repr && n.block in Repr && n.block.data in Repr && n.next == null && Blank(n.block.View())
      && (forall i :: 0 <= i < |chain| ==> Disjoint(chain[i], n))
      && (forall i :: 0 <= i < |free| ==> Disjoint(n, free[i]))
    }

    /** The chain and the free list have the values recorded for them. */
    ghost predicate Shown()
      reads this`head, this`tail, this`freeList, this`chain, this`free, this`blocks, this`Repr, Repr - {this}
    {
      && Linked()
      && |blocks| == |chain| && (forall i :: 0 <= i < |chain| ==> chain[i].block.View() == blocks[i])
      && (forall i :: 0 <= i < |free| ==> Blank(free[i].block.View()))
    }

    /** Lines 314-318. */
    method TakeFree() returns (n: Node)
      requires Shown() && freeList != null
      modifies this`freeList, this`free, freeList, freeList.block
      ensures Shown() && Spare(n) && old(free) == [n] + free
    {
      hide Separate, Disjoint;
      n := SkipFree();
      DisjointFrom(chain, free, n);
      n.next := null;
      n.block.Reset();
    }

    /** Line 315. */
    method SkipFree() returns (n: Node)
      requires Shown() && freeList != null
      modifies this`freeList, this`free
      ensures Shown() && old(free) == [n] + free && n in Repr && n.block in Repr && n.block.data in Repr
      ensures forall i :: 0 <= i < |chain| ==> Disjoint(chain[i], n)
      ensures forall i :: 0 <= i < |free| ==> Disjoint(n, free[i])
    {
      hide Separate, Disjoint;
      n := freeList;
      assert n == free[0];
      SeparateTake(chain, free);
      freeList := freeList.next;
      free := free[1..];
    }

    /** The first free node, reset, or a new one. */
    method AllocateNode() returns (n: Node)
      requires Shown()
      modifies this`freeList, this`free, this`Repr, this`made, Repr - {this}
      ensures Shown() && fresh(Repr - old(Repr)) && Spare(n)
      ensures if old(free) == [] then free == [] && made == old(made) + 1 && fresh(n) else old(free) == [n] + free && made == old(made)
    {
      hide Separate, Blank;
      if freeList != null {
        n := TakeFree();
      } else {
        n := NewNode();
      }
    }

    method NewNode() returns (n: Node)
      requires Shown() && freeList == null
      modifies this`Repr, this`made
      ensures Shown() && Spare(n) && made == old(made) + 1 && fresh(n) && fresh(Repr - old(Repr))
    {
      hide Separate;
      n := new Node();
      made := made + 1;
      Repr := Repr + {n, n.block, n.block.data};
    }
  
    /** Lines 337-345: the node becomes the last one. */
    method LinkPointers(n: Node)
      requires Linked() && Spare(n)
      modifies this`head, this`tail, this`chain, if tail != null then {tail} else {}
      ensures Linked() && chain == old(chain) + [n]
    {
      SeparateSnoc(chain, free, n);
      hide Separate, Blank;
      if tail == null {
        head, tail := n, n;
      } else {
        tail.next := n;
        tail := n;
      }
      chain := chain + [n];
    }

    method Link(n: Node)
      requires Shown() && Spare(n)
      modifies this`head, this`tail, this`chain, this`blocks, if tail != null then {tail} else {}
      ensures Shown() && chain == old(chain) + [n] && blocks == old(blocks) + [old(n.block.View())]
    {
      hide Separate, Blank;
      LinkPointers(n);
      blocks := blocks + [n.block.View()];
    }

    method AppendNode()
      requires Owned()
      modifies this`head, this`tail, this`freeList, this`chain, this`free, this`blocks, this`made, this`peak, this`Repr
      modifies Repr - {this}
      ensures Owned() && fresh(Repr - old(Repr))
      ensures |chain| == |old(chain)| + 1 && chain[..|old(chain)|] == old(chain)
      ensures blocks == old(blocks) + [blocks[|old(blocks)|]] && Blank(blocks[|old(blocks)|])
      ensures peak == Max(old(peak), |chain|)
    {
      hide Separate;
      var n := AllocateNode();
      Link(n);
      peak := Max(peak, |chain|);
    }

    /** Lines 327-329: the node is reset and becomes the first free one. */
    method DeallocateNode(n: Node)
      requires Shown() && n in Repr && n.block in Repr && n.block.data in Repr && n.block.View().Ok()
      requires forall i :: 0 <= i < |chain| ==> Disjoint(n, chain[i])
      requires forall i :: 0 <= i < |free| ==> Disjoint(n, free[i])
      requires Separate(chain, [n] + free)
      modifies this`freeList, this`free, n, n.block
      ensures Shown() && free == [n] + old(free)
    {
      hide Separate;
      n.block.Reset();
      n.next := freeList;
      freeList := n;
      free := [n] + free;
    }

    /** Lines 352-357. */
    method UnlinkHead() returns (n: Node)
      requires Shown() && chain != []
      modifies this`head, this`tail, this`chain, this`blocks
      ensures Shown() && chain == old(chain)[1..] && blocks == old(blocks)[1..]
      ensures n == old(chain)[0] && n in Repr && n.block in Repr && n.block.data in Repr && n.block.View() == old(blocks)[0]
      ensures n == old(head)
    {
      SeparateDrop(chain, free);
      hide Separate, Blank;
      n := head;
      assert n == chain[0];
      head := head.next;
      if tail == n {
        tail := null;
      }
      chain := chain[1..];
      blocks := blocks[1..];
    }

    method RemoveHead()
      requires Owned() && chain != [] && head != null
      modifies this`head, this`tail, this`freeList, this`chain, this`free, this`blocks, head, head.block
      ensures Owned() && chain == old(chain)[1..] && blocks == old(blocks)[1..] && free == [old(chain)[0]] + old(free)
    {
      hide Shown, Separate, Blank;
      GetSeparate();
      SeparateDrop(chain, free);
      var n := UnlinkHead();
      DeallocateNode(n);
    }

    lemma GetSeparate()
      requires Shown()
      ensures Separate(chain, free) && |blocks| == |chain|
    {
    }

    // -------------------------------------------------------------- writing

    /** `append_node` when the last block is full. */
    method Grow()
      requires Valid() && Tight(blocks) && (chain != [] ==> blocks[|chain| - 1].Full())
      modifies this`head, this`tail, this`freeList, this`chain, this`free, this`blocks, this`made, this`peak, this`Repr
      modifies Repr - {this}
      ensures Valid() && Tight(blocks) && Roomy(blocks) && fresh(Repr - old(Repr)) && Unread() == old(Unread())
      ensures |chain| == |old(chain)| + 1 && chain[..|old(chain)|] == old(chain)
      ensures |blocks| == |chain| && blocks[..|old(blocks)|] == old(blocks)
      ensures peak == Max(old(peak), |chain|) && At() == 0
    {
      hide Linked, Contents, Tight;
      AppendNode();
      AppendedTight(old(blocks), blocks[|old(blocks)|]);
    }

    /** Changing one block of the chain leaves the rest of the buffer as it is. */
    twostate lemma OneBlock(i: nat)
      requires old(Owned()) && i < |chain|
      requires unchanged(this`head, this`tail, this`freeList, this`chain, this`free, this`made, this`peak, this`Repr)
      requires chain[i].block.View().Ok() && blocks == old(blocks)[i := chain[i].block.View()]
      requires forall j :: 0 <= j < |chain| && j != i ==> chain[j].block.View() == old(chain[j].block.View())
      requires forall j :: 0 <= j < |free| ==> free[j].block.View() == old(free[j].block.View())
      requires forall j {:trigger chain[j].next} :: 0 <= j < |chain| ==> chain[j].next == old(chain[j].next)
      requires forall j {:trigger free[j].next} :: 0 <= j < |free| ==> free[j].next == old(free[j].next)
      ensures Owned()
    {
      hide Separate;
      forall j | 0 <= j < |chain|
        ensures chain[j].block.View() == blocks[j]
      {
        if j != i { assert old(chain[j].block.View()) == old(blocks)[j]; }
      }
    }

    lemma FromValid()
      requires Valid()
      ensures Owned() && totalSize == |Contents(blocks)| && consumedBytes == |consumed|
    {
    }

    lemma InRepr()
      requires Owned()
      ensures this in Repr
    {
    }

    lemma GetBlocks()
      requires Owned()
      ensures BlocksOk(blocks) && |blocks| == |chain|
    {
    }

    /** Every node ever allocated is in the chain or free, in one place, and the number of them is the peak length. */
    lemma NodesMade()
      requires Owned()
      ensures made == |chain| + |free| == peak && Separate(chain, free)
    {
    }

    lemma ToValid()
      requires Owned() && totalSize == |Contents(blocks)| && consumedBytes == |consumed|
      ensures Valid()
    {
    }

    lemma GetOwned(i: nat)
      requires Owned() && i < |chain|
      ensures head == chain[0] && tail == chain[|chain| - 1] && |blocks| == |chain|
      ensures this in Repr && chain[i] in Repr && chain[i].block in Repr && chain[i].block.data in Repr
      ensures chain[i].block.View() == blocks[i] && blocks[i].Ok()
      ensures tail.block in Repr && tail.block.data in Repr && tail.block.View() == blocks[|blocks| - 1] && blocks[|blocks| - 1].Ok()
      ensures forall j :: 0 <= j < |chain| && j != i ==> Disjoint(chain[i], chain[j])
      ensures forall j :: 0 <= j < |free| ==> Disjoint(chain[i], free[j])
    {
      SeparateAt(chain, free, i);
    }

    /** `BufferBlock::write` on node `i` of the chain. */
    method WriteAt(ghost i: nat, block: BufferBlock, src: Bytes) returns (n: nat)
      requires Owned() && i < |chain| && chain[i].block == block
      modifies this`blocks, block`writePos, block.data
      ensures Owned() && n == Min(|src|, BLOCK_SIZE - old(blocks[i].writePos))
      ensures blocks == old(blocks)[i := Wrote(old(blocks[i]), src)]
    {
      hide Valid, Owned, Shown, Linked, Tight, Contents, BlocksOk;
      GetOwned(i);
      WroteUnread(blocks[i], src);
      hide Wrote, Block.Ok, Block.Unread;
      n := block.Write(src);
      blocks := blocks[i := Wrote(blocks[i], src)];
      OneBlock(i);
    }

    /** Lines 61-63, `block` being the block of node `i`: the last one, or a full one. */
    method WriteInto(ghost i: nat, block: BufferBlock, src: Bytes) returns (n: nat)
      requires Valid() && Tight(blocks) && i < |chain| && chain[i].block == block && src != []
      requires i == |chain| - 1 || blocks[i].Full()
      modifies this`blocks, this`totalSize, block`writePos, block.data
      ensures Valid() && Tight(blocks) && n <= |src| && Unread() == old(Unread()) + src[..n]
      ensures n == Min(|src|, BLOCK_SIZE - old(blocks[i].writePos))
      ensures At() == old(At()) + if i == |chain| - 1 then n else 0
    {
      hide Linked, Contents, Tight;
      WroteTight(blocks, i, src);
      n := WriteAt(i, block, src);
      totalSize := totalSize + n;
    }

    /** One round of the loop at lines 52-64; `block` is taken before the chain may grow. */
    method WriteSome(src: Bytes) returns (n: nat)
      requires Valid() && Tight(blocks) && chain != [] && src != []
      modifies this, Repr
      ensures Valid() && Tight(blocks) && chain != [] && fresh(Repr - old(Repr))
      ensures n <= |src| && Unread() == old(Unread()) + src[..n]
      ensures if old(At()) < BLOCK_SIZE then n > 0 && At() == old(At()) + n <= BLOCK_SIZE else n == 0 && At() == 0
      ensures limit == old(limit) && consumed == old(consumed)
    {
      hide Valid, Owned, Shown, Linked, BlocksOk, Contents, Tight;
      ghost var i := |chain| - 1;
      GetNode(i);
      var block := tail.block;
      if block.Full() {
        Grow();
      }
      GetNode(i);
      n := WriteInto(i, block, src);
      AtBound();
    }

    lemma AtBound()
      requires Valid() && chain != []
      ensures At() <= BLOCK_SIZE && (At() < BLOCK_SIZE <==> Roomy(blocks))
    {
      hide Linked, Contents;
      assert blocks[|blocks| - 1].Ok();
    }

    lemma GetNode(i: nat)
      requires Valid() && i < |chain|
      ensures head == chain[0] && tail == chain[|chain| - 1] && |blocks| == |chain|
      ensures this in Repr && chain[i] in Repr && chain[i].block in Repr && chain[i].block.data in Repr
      ensures chain[i].block.View() == blocks[i] && blocks[i].Ok()
    {
    }

    /**
     Appends all of `data`. A full last block costs one more round of the loop that moves no byte,
     because the reference `block` still names it.
     */
    method Write(data: Bytes) returns (written: nat)
      requires Valid() && Tight(blocks) && chain != []
      modifies this, Repr
      ensures Valid() && Tight(blocks) && chain != [] && fresh(Repr - old(Repr))
      ensures written == |data| && Unread() == old(Unread()) + data
      ensures At() == AfterWrite(old(At()), |data|) <= BLOCK_SIZE
      ensures limit == old(limit) && consumed == old(consumed)
    {
      hide *;
      written := 0;
      ghost var before := Unread();
      ghost var start := At();
      WroteNone(before, data);
      AtBound();
      WritingStart(start);
      while written < |data|
        invariant Valid() && Tight(blocks) && chain != [] && fresh(Repr - old(Repr))
        invariant written <= |data| && Unread() == before + data[..written]
        invariant limit == old(limit) && consumed == old(consumed)
        invariant start <= BLOCK_SIZE && At() <= BLOCK_SIZE && Writing(start, written, At())
        invariant written == |data| ==> At() == AfterWrite(start, written)
        decreases |data| - written, At()
      {
        ghost var at := At();
        var n := WriteSome(data[written..]);
        Joined(before, data, written, n);
        WritingMore(start, written, at, n);
        written := written + n;
      }
      WroteAll(data, written);
    }
  
    /** The positions of the block of node `i` are set to `r` and `w`. */
    method SetPositions(ghost i: nat, block: BufferBlock, r: nat, w: nat)
      requires Owned() && i < |chain| && chain[i].block == block && r <= w <= BLOCK_SIZE
      modifies this`blocks, block`readPos, block`writePos
      ensures Owned() && blocks == old(blocks)[i := old(blocks[i]).(readPos := r, writePos := w)]
    {
      hide Valid, Owned, Shown, Linked, Tight, Contents, BlocksOk;
      GetOwned(i);
      block.readPos, block.writePos := r, w;
      blocks := blocks[i := blocks[i].(readPos := r, writePos := w)];
      OneBlock(i);
    }

    // -------------------------------------------------------------- sending

    /** One round of the loop at lines 123-139. With nothing buffered it moves nothing, so the loop does not end. */
    method SendSome(send: nat) returns (left: nat)
      requires Owned() && Tight(blocks) && chain != [] && send > 0
      modifies this`head, this`tail, this`freeList, this`chain, this`free, this`blocks, this`made, this`peak, this`Repr
      modifies Repr - {this}
      ensures Owned() && Tight(blocks) && chain != [] && fresh(Repr - old(Repr))
      ensures left <= send && (left == send <==> old(Unread()) == []) && send - left <= |old(Unread())|
      ensures Unread() == old(Unread())[send - left..]
      ensures At() == if Unread() == [] then 0 else old(At())
    {
      hide Owned, Shown, Linked, Contents, Tight, BlocksOk;
      GetHead();
      var block := head.block;
      var n := Min(send, block.Size());
      SentTight(blocks, n);
      FirstEmpty(blocks);
      ghost var was := blocks;
      left := send - n;
      SetPositions(0, block, block.readPos + n, block.writePos);
      GetHead();
      if block.Empty() {
        DropHead();
        DroppedTight(was, blocks);
      }
      SentAt(was, n, blocks);
    }

    /** Lines 132-137: the used-up head goes, but never the last node. */
    method DropHead()
      requires Owned() && chain != []
      modifies this`head, this`tail, this`freeList, this`chain, this`free, this`blocks, this`made, this`peak, this`Repr
      modifies Repr - {this}
      ensures Owned() && chain != [] && fresh(Repr - old(Repr))
      ensures if |old(chain)| > 1 then blocks == old(blocks)[1..] else |blocks| == 1 && Blank(blocks[0])
    {
      GetNext();
      hide Linked, BlocksOk, Blank;
      if head.next == null {
        AppendNode();
      }
      RemoveHead();
    }

    lemma GetHead()
      requires Owned() && chain != []
      ensures head == chain[0] && head.block.View() == blocks[0] && blocks[0].Ok() && |blocks| == |chain|
      ensures head in Repr && head.block in Repr && head.block.data in Repr
    {
    }

    lemma GetNext()
      requires Owned() && chain != []
      ensures head == chain[0] && |blocks| == |chain| && (head.next == null <==> |chain| == 1)
    {
    }

    /** Of the contents `all`, the bytes counted out of `totalSize` are gone except for `left` of them. */
    ghost predicate Sending(all: Bytes, at: nat, left: nat)
      reads this, Repr
    {
      && Owned() && Tight(blocks) && chain != [] && consumedBytes == |consumed|
      && left + totalSize <= |all| && left + totalSize == |Contents(blocks)|
      && Contents(blocks) == all[|all| - totalSize - left..]
      && At() == if Contents(blocks) == [] && all != [] then 0 else at
    }

    method SendRound(ghost all: Bytes, ghost at: nat, send: nat) returns (left: nat)
      requires Sending(all, at, send) && send > 0 && totalSize >= 0
      modifies this, Repr
      ensures Sending(all, at, left) && left < send && fresh(Repr - old(Repr))
      ensures totalSize == old(totalSize) && limit == old(limit) && consumed == old(consumed)
    {
      hide Owned, Tight, Contents;
      ghost var before := Contents(blocks);
      left := SendSome(send);
      DropDrop(all, |all| - totalSize - send, send - left);
    }

    /** Drops the first `send` bytes. */
    method CommitSend(send: nat)
      requires Valid() && Tight(blocks) && chain != [] && send <= totalSize
      modifies this, Repr
      ensures Valid() && Tight(blocks) && chain != [] && fresh(Repr - old(Repr))
      ensures Unread() == old(Unread())[send..] && limit == old(limit) && consumed == old(consumed)
      ensures At() == AfterSend(old(At()), |old(Unread())|, send)
    {
      hide Valid, Owned, Contents, Tight, Sending;
      FromValid();
      ghost var all, at := Unread(), At();
      if send <= 0 {
        return;
      }
      totalSize := totalSize - send;
      var left := send;
      ToSending(all, at, left);
      while left > 0
        invariant Sending(all, at, left) && fresh(Repr - old(Repr))
        invariant totalSize == |all| - send && limit == old(limit) && consumed == old(consumed)
      {
        left := SendRound(all, at, left);
      }
      Sent(all, at);
      ToValid();
    }

    lemma ToSending(all: Bytes, at: nat, send: int)
      requires Owned() && Tight(blocks) && chain != [] && consumedBytes == |consumed|
      requires 0 <= send && send + totalSize == |all| && all == Contents(blocks) && at == At()
      ensures Sending(all, at, send)
    {
      assert all[0..] == all;
    }

    lemma Sent(all: Bytes, at: nat)
      requires Sending(all, at, 0)
      ensures Owned() && Tight(blocks) && chain != [] && consumedBytes == |consumed| && totalSize == |Contents(blocks)|
      ensures totalSize <= |all| && Contents(blocks) == all[|all| - totalSize..]
      ensures At() == if totalSize == 0 && all != [] then 0 else at
    {
    }

    // -------------------------------------------------------------- zero-copy writing

    /** Someone who was handed a span of the last block copies `src` to position `at` of its storage. */
    method FillTail(at: nat, src: Bytes)
      requires Owned() && chain != [] && at + |src| <= BLOCK_SIZE
      modifies this`blocks, tail.block.data
      ensures Owned() && |blocks| == |chain| && blocks == old(blocks)[|chain| - 1 := Filled(old(blocks[|chain| - 1]), at, src)]
    {
      hide Valid, Owned, Shown, Linked, Tight, Contents, BlocksOk;
      ghost var i := |chain| - 1;
      GetOwned(i);
      tail.block.CopyIn(at, src);
      blocks := blocks[i := Filled(blocks[i], at, src)];
      OneBlock(i);
    }

    /**
     Offers all the room of the last block, which counts as written. With a full last block the buffer is no
     longer well formed: it holds fewer bytes than it counts.
     */
    method OutputNext() returns (span: Span)
      requires Owned() && chain != []
      modifies this, Repr
      ensures Owned() && chain != [] && fresh(Repr - old(Repr)) && limit == old(limit) && consumed == old(consumed)
      ensures totalSize == old(totalSize) + span.len && consumedBytes == old(consumedBytes)
      ensures old(At()) < BLOCK_SIZE ==> Extended(old(chain), old(blocks), chain, blocks, span) && span.at == old(At())
      ensures old(At()) == BLOCK_SIZE ==> Overwritten(old(chain), old(blocks), chain, blocks, span)
      ensures |Unread()| == |old(Unread())| + if old(At()) < BLOCK_SIZE then span.len else old(blocks[|blocks| - 1].readPos)
      ensures old(Valid() && Tight(blocks)) ==>
        (Valid() <==> old(At()) < BLOCK_SIZE) && (if Valid() then Tight(blocks) && Offered(old(blocks), blocks) else |Unread()| < totalSize)
    {
      hide Valid, Owned, Shown, Linked, Tight, Contents, BlocksOk, Overwritten, Extended;
      ghost var i, was, good := |chain| - 1, blocks, Valid() && Tight(blocks);
      GetOwned(i);
      if good { FromValid(); }
      var block := tail.block;
      if block.Full() {
        span := OverwriteFull(i, block);
      } else {
        span := Span(block.data, block.writePos, block.Available());
        totalSize := totalSize + span.len;
        SetPositions(i, block, block.readPos, block.writePos + span.len);
        ExtendedHere(chain, was, blocks, span);
      }
      NextSizes(good, old(totalSize), old(consumedBytes), was, old(chain), span);
    }

    lemma NextSizes(good: bool, total: int, counted: int, was: seq<Block>, wasChain: seq<Node>, span: Span)
      requires Owned() && totalSize == total + span.len && consumedBytes == counted
      requires good ==> Tight(was) && total == |Contents(was)| && counted == |consumed|
      requires if LastAt(was) < BLOCK_SIZE then Extended(wasChain, was, chain, blocks, span) else Overwritten(wasChain, was, chain, blocks, span)
      ensures |Unread()| == |Contents(was)| + if LastAt(was) < BLOCK_SIZE then span.len else was[|was| - 1].readPos
      ensures good ==>
        (Valid() <==> LastAt(was) < BLOCK_SIZE) && (if Valid() then Tight(blocks) && Offered(was, blocks) else |Unread()| < totalSize)
    {
      hide Owned, Contents, Tight;
      if LastAt(was) >= BLOCK_SIZE {
        OverwrittenSize(was, blocks);
        if good { LastHolds(was); }
      } else {
        ExtendedSize(was);
        if good { OfferedTight(was); }
      }
    }

    /**
     Lines 270-279 on a full last block `block`: the new block is copied over it, instead of the
     reference being moved, so the bytes it held are gone although they stay counted.
     */
    method OverwriteFull(ghost i: nat, block: BufferBlock) returns (span: Span)
      requires Owned() && chain != [] && i == |chain| - 1 && chain[i].block == block && blocks[i].Full()
      modifies this, Repr
      ensures Owned() && chain != [] && fresh(Repr - old(Repr)) && limit == old(limit) && consumed == old(consumed)
      ensures totalSize == old(totalSize) + span.len && consumedBytes == old(consumedBytes)
      ensures Overwritten(old(chain), old(blocks), chain, blocks, span)
    {
      hide Valid, Owned, Shown, Linked, Tight, Contents, BlocksOk;
      GetOwned(i);
      ghost var was := blocks;
      AppendNode();
      GetOwned(i);
      CopyOver(i, block);
      span := Span(block.data, block.writePos, block.Available());
      totalSize := totalSize + span.len;
      SetPositions(i, block, block.readPos, block.writePos + span.len);
      GetOwned(i);
    }

    method CopyOver(ghost i: nat, block: BufferBlock)
      requires Owned() && i < |chain| - 1 && chain[i].block == block && Blank(blocks[|blocks| - 1])
      modifies this`blocks, block, block.data
      ensures Owned() && blocks == old(blocks)[i := old(blocks[|blocks| - 1])] && block.readPos == block.writePos == 0
    {
      hide Valid, Owned, Shown, Linked, Tight, Contents, BlocksOk;
      GetOwned(i);
      AssignFrom(i, block);
    }

    /** Line 273. */
    method AssignFrom(ghost i: nat, block: BufferBlock)
      requires Owned() && i < |chain| - 1 && chain[i].block == block
      modifies this`blocks, block, block.data
      ensures Owned() && blocks == old(blocks)[i := old(blocks[|blocks| - 1])]
      ensures block.View() == blocks[i]
    {
      hide Valid, Owned, Shown, Linked, Tight, Contents, BlocksOk;
      GetOwned(i);
      block.Assign(tail.block);
      blocks := blocks[i := blocks[|blocks| - 1]];
      OneBlock(i);
    }

    /** Takes back the last `count` bytes of the last block, as far as it was written. */
    method OutputBackUp(count: nat)
      requires Owned() && chain != [] && |blocks| == |chain|
      requires var b := blocks[|blocks| - 1]; count <= b.writePos - b.readPos || b.readPos == 0
      modifies this`totalSize, this`blocks, tail.block`readPos, tail.block`writePos
      ensures Owned()
      ensures var k := Min(count, old(At()));
        && k <= |old(Unread())| && Unread() == old(Unread())[..|old(Unread())| - k]
        && totalSize == old(totalSize) - k && At() == old(At()) - k
        && (old(Valid() && Tight(blocks)) ==> Valid() && Tight(blocks))
    {
      hide Valid, Owned, Shown, Linked, Tight, Contents, BlocksOk;
      ghost var i, was := |chain| - 1, blocks;
      GetOwned(i);
      if old(Valid() && Tight(blocks)) { FromValid(); }
      var block := tail.block;
      var toBackUp := Min(count, block.writePos);
      totalSize := totalSize - toBackUp;
      BackedContents(blocks, toBackUp);
      SetPositions(i, block, block.readPos, block.writePos - toBackUp);
      if old(Valid() && Tight(blocks)) {
        BackedShape(was, toBackUp);
        ToValid();
      }
    }

    /** Someone who was handed `span`, of the block of node `i`, copies `src` into it. */
    method FillSpan(ghost i: nat, span: Span, src: Bytes)
      requires Owned() && i < |chain| && span.data == chain[i].block.data && span.at + |src| <= BLOCK_SIZE
      modifies this`blocks, span.data
      ensures Owned() && |blocks| == |chain| && blocks == old(blocks)[i := Filled(old(blocks[i]), span.at, src)]
      ensures |Unread()| == |old(Unread())|
    {
      hide Valid, Owned, Shown, Linked, Tight, Contents, BlocksOk;
      GetOwned(i);
      GetBlocks();
      ghost var was := blocks;
      CopyBytes(span.data, span.at, src);
      blocks := blocks[i := Filled(blocks[i], span.at, src)];
      OneBlock(i);
      FilledLength(was, i, span.at, src);
    }

    /**
     How a serializer writes a message: it takes spans until they hold the message, and gives back the rest. The
     message is appended exactly when it fits the room of the last block.
     */
    method WriteMessage(src: Bytes)
      requires Valid() && Tight(blocks) && chain != []
      modifies this, Repr
      ensures Owned() && chain != [] && fresh(Repr - old(Repr)) && limit == old(limit) && consumed == old(consumed)
      ensures Valid() <==> MessageFits(old(At()), |src|)
      ensures if Valid() then Tight(blocks) && Unread() == old(Unread()) + src && At() == old(At()) + |src|
              else |Unread()| < totalSize
    {
      hide Valid, Owned, Tight, Contents, Offering;
      AtBound();
      ghost var before, start := Unread(), At();
      var offered := 0;
      ToOffering(before, start, src);
      while offered < |src|
        invariant Offering(before, start, src, offered) && fresh(Repr - old(Repr))
        invariant limit == old(limit) && consumed == old(consumed)
        decreases |src| - offered
      {
        offered := MessageRound(before, start, src, offered);
      }
      FromOffering(before, start, src, offered);
      GetOwned(|chain| - 1);
      GiveBack(before, start, src, offered);
    }

    /** Before the first span, within it, or past it; then a full last block was overwritten. */
    ghost predicate Offering(before: Bytes, start: nat, src: Bytes, offered: nat)
      reads this, Repr
    {
      && Owned() && chain != [] && start <= BLOCK_SIZE
      && if offered == 0 then Valid() && Tight(blocks) && Unread() == before && At() == start
         else if offered == BLOCK_SIZE - start then OneSpan(before, start, src, offered)
         else offered > BLOCK_SIZE - start && |src| > BLOCK_SIZE - start && |Unread()| < totalSize && blocks[|blocks| - 1].readPos == 0
    }

    ghost predicate OneSpan(before: Bytes, start: nat, src: Bytes, offered: nat)
      reads this, Repr
    {
      && Valid() && Tight(blocks) && chain != [] && At() == BLOCK_SIZE
      && |Unread()| == |before| + offered && blocks[|blocks| - 1].readPos <= start
      && var n := Min(offered, |src|); Unread()[..|before| + n] == before + src[..n]
    }

    lemma ToOffering(before: Bytes, start: nat, src: Bytes)
      requires Valid() && Tight(blocks) && chain != [] && Unread() == before && At() == start <= BLOCK_SIZE
      ensures Offering(before, start, src, 0)
    {
    }

    /** One more span. */
    method MessageRound(ghost before: Bytes, ghost start: nat, src: Bytes, offered: nat) returns (more: nat)
      requires Offering(before, start, src, offered) && offered < |src|
      modifies this, Repr
      ensures Offering(before, start, src, more) && more > offered && fresh(Repr - old(Repr))
      ensures limit == old(limit) && consumed == old(consumed)
    {
      hide Valid, Owned, Tight, Contents, Extended, Overwritten, Filled, Offering, Offered;
      FromOffering(before, start, src, offered);
      ghost var was, wasChain, total := blocks, chain, totalSize;
      var span := OutputNext();
      ghost var mid, i := blocks, |was| - 1;
      SpanNode(wasChain, was, chain, mid, span);
      GetOwned(i);
      var part := src[offered..offered + Min(span.len, |src| - offered)];
      FillSpan(i, span, part);
      more := offered + span.len;
      if offered == 0 && start < BLOCK_SIZE {
        FirstSpan(before, start, src, was, mid, span, part);
      } else {
        LaterSpan(before, start, src, more, mid, i, span, part);
      }
    }

    lemma FromOffering(before: Bytes, start: nat, src: Bytes, offered: nat)
      requires Offering(before, start, src, offered)
      ensures Owned() && chain != [] && |blocks| == |chain| && start <= BLOCK_SIZE && At() <= BLOCK_SIZE
      ensures offered == 0 ==> Valid() && Tight(blocks) && Unread() == before && At() == start
      ensures var r := blocks[|blocks| - 1].readPos;
        && (offered == 0 && start == BLOCK_SIZE ==> |Unread()| == totalSize && r < BLOCK_SIZE)
        && (offered > 0 && offered == BLOCK_SIZE - start ==> |Unread()| == totalSize && r < BLOCK_SIZE == At() && |src| >= 0)
        && (offered > 0 && offered != BLOCK_SIZE - start ==> |Unread()| < totalSize && r == 0 && |src| > BLOCK_SIZE - start && offered > BLOCK_SIZE - start)
      ensures 0 == offered ==> totalSize == |before| && consumedBytes == |consumed|
    {
      hide Linked, Contents;
      assert blocks[|blocks| - 1].Ok();
    }

    lemma FirstSpan(before: Bytes, start: nat, src: Bytes, was: seq<Block>, mid: seq<Block>, span: Span, part: Bytes)
      requires Owned() && chain != [] && |blocks| == |chain| == |was| && start < BLOCK_SIZE && src != []
      requires totalSize == |before| + span.len && consumedBytes == |consumed|
      requires Tight(was) && Contents(was) == before && LastAt(was) == start && Offered(was, mid)
      requires span.len == BLOCK_SIZE - start && part == src[..Min(span.len, |src|)]
      requires var n := |was| - 1; mid[n].Ok() && blocks == mid[n := Filled(mid[n], start, part)]
      requires |Contents(blocks)| == |before| + span.len
      ensures Offering(before, start, src, span.len)
    {
      hide Owned, Contents, Tight, Offered, Filled;
      FilledTight(was, mid, blocks, part);
      ToValid();
    }

    lemma LaterSpan(before: Bytes, start: nat, src: Bytes, more: nat, mid: seq<Block>, i: nat, span: Span, part: Bytes)
      requires Owned() && chain != [] && |blocks| == |chain| == |mid| && start <= BLOCK_SIZE < |src| + start && more > BLOCK_SIZE - start
      requires i < |mid| && mid[i].Ok() && span.at + |part| <= BLOCK_SIZE && blocks == mid[i := Filled(mid[i], span.at, part)]
      requires mid[|mid| - 1].readPos == 0 && |Contents(blocks)| < totalSize
      ensures Offering(before, start, src, more)
    {
      hide Owned, Contents;
    }

    lemma SpanNode(wasChain: seq<Node>, was: seq<Block>, chain: seq<Node>, blocks: seq<Block>, span: Span)
      requires |was| > 0
      requires if LastAt(was) < BLOCK_SIZE then Extended(wasChain, was, chain, blocks, span) else Overwritten(wasChain, was, chain, blocks, span)
      ensures |was| <= |chain| == |blocks| && span.data == chain[|was| - 1].block.data && span.at + span.len == BLOCK_SIZE
      ensures blocks[|was| - 1].Ok() && span.len > 0
      ensures if LastAt(was) < BLOCK_SIZE then |blocks| == |was| && blocks[|was| - 1].readPos == was[|was| - 1].readPos
              else blocks[|blocks| - 1].readPos == 0 && span.len == BLOCK_SIZE
    {
    }

    /** Gives back what the message did not need of the last span. */
    method GiveBack(ghost before: Bytes, ghost start: nat, src: Bytes, offered: nat)
      requires Offering(before, start, src, offered) && offered >= |src|
      modifies this`totalSize, this`blocks, tail.block`readPos, tail.block`writePos
      ensures Owned() && (Valid() <==> MessageFits(start, |src|))
      ensures if Valid() then Tight(blocks) && Unread() == before + src && At() == start + |src|
              else |Unread()| < totalSize
    {
      hide Valid, Owned, Tight, Contents;
      FromOffering(before, start, src, offered);
      GetOwned(|chain| - 1);
      ghost var was := Unread();
      ghost var total := totalSize;
      OutputBackUp(offered - |src|);
      if offered == 0 {
        WroteNone(before, src);
      } else if offered == BLOCK_SIZE - start {
        TakeTake(was, before, src, |src|);
      } else if Valid() {
        FromValid();
        assert false;
      }
    }

    // -------------------------------------------------------------- gathering

    /** One span per block, for the first IOV_MAX blocks: together, the contents or a prefix of them. */
    method GetIovecs() returns (iovs: seq<Span>)
      requires Owned()
      ensures |iovs| == Min(|chain|, IOV_MAX)
      ensures Gather(iovs) == Contents(blocks[..|iovs|]) && Gather(iovs) <= Unread()
      ensures |chain| <= IOV_MAX ==> Gather(iovs) == Unread()
    {
      hide Owned, Contents, Gather, SpanBytes, Unread;
      iovs := [];
      var node := head;
      HeadIs(0);
      GatherNone(blocks);
      while node != null && |iovs| < IOV_MAX
        invariant |iovs| <= |chain| == |blocks| && |iovs| <= IOV_MAX
        invariant node == NextIn(chain, |iovs| - 1)
        invariant Gather(iovs) == Contents(blocks[..|iovs|])
        decreases |chain| - |iovs|
      {
        ghost var k := |iovs|;
        HeadIs(k);
        var span := Span(node.block.data, node.block.readPos, node.block.Size());
        ContentsTake(blocks, k);
        SpanUnread(node.block, span);
        GatherSnoc(iovs, span);
        iovs := iovs + [span];
        node := node.next;
      }
      GatheredAll(iovs);
    }

    lemma GatheredAll(iovs: seq<Span>)
      requires |iovs| <= |blocks| && Gather(iovs) == Contents(blocks[..|iovs|])
      ensures Gather(iovs) <= Unread() && (|iovs| == |blocks| ==> Gather(iovs) == Unread())
    {
      ContentsPrefix(blocks, |iovs|);
      assert blocks[..|blocks|] == blocks;
    }

    lemma HeadIs(k: nat)
      requires Owned() && k <= |chain|
      ensures head == NextIn(chain, -1) && |blocks| == |chain|
      ensures k < |chain| ==> chain[k].next == NextIn(chain, k) && chain[k].block.View() == blocks[k] && blocks[k].Ok()
    {
    }

    // -------------------------------------------------------------- receiving and reading

    /** What a buffer that is received into and read from always satisfies. */
    ghost predicate ReadSide()
      reads this, Repr
    {
      Valid() && ReadShape(blocks, consumed) && 0 <= limit <= INT32_MAX
    }

    lemma FromReadSide()
      requires ReadSide()
      ensures Valid() && ReadShape(blocks, consumed) && 0 <= limit <= INT32_MAX
      ensures |blocks| == |chain| && (chain != [] ==> blocks[|chain| - 1].Ok() && !blocks[|chain| - 1].Full() && blocks[0].Ok())
    {
    }

    lemma ToReadSide()
      requires Valid() && ReadShape(blocks, consumed) && 0 <= limit <= INT32_MAX
      ensures ReadSide()
    {
    }

    /** Makes the `resv` bytes that a read put into the room of the last block unread, and keeps room there. */
    method CommitResv(resv: int)
      requires ReadSide() && chain != [] && resv <= BLOCK_SIZE - blocks[|chain| - 1].writePos
      modifies this, Repr
      ensures ReadSide() && chain != [] && fresh(Repr - old(Repr)) && limit == old(limit) && consumed == old(consumed)
      ensures Unread() == old(Unread()) + if resv > 0 then old(Room())[..resv] else []
      ensures At() == AfterReceive(old(At()), Max(resv, 0))
    {
      hide Valid, Owned, Shown, Linked, Tight, Roomy, Contents, BlocksOk, ReadSide, Backable;
      FromReadSide();
      if resv > 0 {
        ghost var i := |chain| - 1;
        GetNode(i);
        FromValid();
        var block := tail.block;
        ReceivedShape(blocks, consumed, resv);
        SetPositions(i, block, block.readPos, block.writePos + resv);
        totalSize := totalSize + resv;
        ToValid();
        GetNode(i);
        if block.Full() {
          GrowRead();
        } else {
          LastRoomy(blocks);
        }
        ToReadSide();
      }
    }

    /** The storage of the last block after its write position. */
    ghost function Room(): Bytes
      reads this`blocks
    {
      if |blocks| > 0 && blocks[|blocks| - 1].writePos <= |blocks[|blocks| - 1].data|
      then blocks[|blocks| - 1].data[blocks[|blocks| - 1].writePos..] else []
    }

    method GrowRead()
      requires Valid() && Tight(blocks) && Backable(blocks, consumed) && chain != [] && blocks[|chain| - 1].Full()
      modifies this, Repr
      ensures Valid() && ReadShape(blocks, consumed) && chain != [] && fresh(Repr - old(Repr))
      ensures limit == old(limit) && consumed == old(consumed) && Unread() == old(Unread()) && At() == 0
    {
      hide Valid, Owned, Shown, Linked, Tight, Roomy, Contents, BlocksOk;
      GetNode(0);
      ghost var first := blocks[0];
      Grow();
      GetNode(0);
      assert blocks[..|old(blocks)|][0] == first;
    }

    /** Lines 220-227, for a span of `size` bytes. */
    method TakeSpan(size: nat)
      requires ReadSide() && chain != [] && head != null && size <= limit
      requires 0 < size <= blocks[0].writePos - blocks[0].readPos
      modifies this, head, head.block
      ensures ReadSide() && chain != [] && Repr == old(Repr) && At() == old(At())
      ensures size <= |old(Unread())| && Unread() == old(Unread())[size..]
      ensures consumed == old(consumed) + old(Unread())[..size]
      ensures limit == old(limit) - (if old(limit) == INT32_MAX then 0 else size)
    {
      hide Valid, Owned, Shown, Linked, Tight, Roomy, Contents, BlocksOk, ReadSide, ReadShape;
      FromReadSide();
      FromValid();
      FirstEmpty(blocks);
      ghost var read := consumed + Contents(blocks)[..size];
      limit := limit - (if limit == INT32_MAX then 0 else size);
      consumedBytes := consumedBytes + size;
      PassHead(consumed, size);
      consumed := read;
      totalSize := totalSize - size;
      ToValid();
      ToReadSide();
    }

    /** The read position of the first block moves on; a used-up block goes unless it is the last. */
    method PassHead(ghost had: Bytes, size: nat)
      requires Owned() && ReadShape(blocks, had) && chain != [] && head != null && blocks[0].Ok()
      requires 0 < size <= blocks[0].writePos - blocks[0].readPos && size <= |Contents(blocks)|
      modifies this`head, this`tail, this`freeList, this`chain, this`free, this`blocks, head, head.block
      ensures Owned() && chain != [] && ReadShape(blocks, had + old(Contents(blocks))[..size])
      ensures Contents(blocks) == old(Contents(blocks))[size..] && At() == old(At())
    {
      hide Valid, Owned, Shown, Linked, Tight, Roomy, Contents, BlocksOk, ReadSide, Backable;
      GetHead();
      GetNext();
      var block := head.block;
      LastAtKept(blocks, blocks[0].(readPos := block.readPos + size));
      ghost var was := blocks;
      if block.readPos + size == BLOCK_SIZE && head.next != null {
        UsedUpShape(was, had);
        SetPositions(0, block, block.readPos + size, block.writePos);
        RemoveHead();
        assert blocks == was[1..];
      } else {
        OnlyFull(was);
        AdvancedShape(was, had, size);
        SetPositions(0, block, block.readPos + size, block.writePos);
      }
    }

    /**
     Hands out the unread bytes of the first block, up to the limit, and counts them as read; fails when
     there is none or the limit is used up.
     */
    method InputNext() returns (span: Option<Span>)
      requires ReadSide() && chain != []
      modifies this, Repr
      ensures ReadSide() && chain != [] && Repr == old(Repr) && At() == old(At())
      ensures span == None <==> old(Unread()) == [] || old(limit) == 0
      ensures span == None ==> Unread() == old(Unread()) && consumed == old(consumed) && limit == old(limit)
      ensures span.Some? ==>
        && span.value.len == Min(FirstSize(|old(Unread())|, old(At())), old(limit))
        && 0 < span.value.len <= |old(Unread())|
        && SpanBytes(span.value) == old(Unread())[..span.value.len]
        && Unread() == old(Unread())[span.value.len..]
        && consumed == old(consumed) + old(Unread())[..span.value.len]
        && limit == old(limit) - (if old(limit) == INT32_MAX then 0 else span.value.len)
    {
      hide Valid, Owned, Shown, Linked, Tight, Roomy, Contents, BlocksOk, ReadSide, Backable;
      FromReadSide();
      GetNode(0);
      FirstEmpty(blocks);
      FirstBlockAt(blocks);
      var block := head.block;
      if block.Empty() || limit == 0 {
        return None;
      }
      var size := Min(block.Size(), limit);
      span := Some(Span(block.data, block.readPos, size));
      SpanFront(blocks, size);
      TakeSpan(size);
    }

    /** Gives back up to `n` of the bytes last read, as far as the first block goes back. */
    method InputBackUp(n: nat)
      requires ReadSide() && chain != []
      requires limit == INT32_MAX || limit + Min(n, HeadPos(|Unread()|, At())) <= INT32_MAX
      modifies this, Repr
      ensures ReadSide() && chain != [] && Repr == old(Repr) && At() == old(At())
      ensures var k := Min(n, HeadPos(|old(Unread())|, old(At())));
        && 0 <= k <= |old(consumed)|
        && Unread() == old(consumed)[|old(consumed)| - k..] + old(Unread())
        && consumed == old(consumed)[..|old(consumed)| - k]
        && limit == old(limit) + (if old(limit) == INT32_MAX then 0 else k)
    {
      hide Valid, Owned, Shown, Linked, Tight, Roomy, Contents, BlocksOk, ReadSide, Backable;
      FromReadSide();
      FromValid();
      GetNode(0);
      var block := head.block;
      var k := Min(n, block.readPos);
      FirstBlockAt(blocks);
      LastAtKept(blocks, blocks[0].(readPos := block.readPos - k));
      BackedUpShape(blocks, consumed, k);
      SetPositions(0, block, block.readPos - k, block.writePos);
      totalSize := totalSize + k;
      limit := limit + (if limit == INT32_MAX then 0 else k);
      consumedBytes := consumedBytes - k;
      consumed := consumed[..|consumed| - k];
      ToValid();
      ToReadSide();
    }

    method PushLimit(newLimit: int)
      requires ReadSide() && 0 <= newLimit <= INT32_MAX
      modifies this`limit
      ensures ReadSide() && limit == newLimit
    {
      limit := newLimit;
    }

    method PopLimit()
      requires ReadSide()
      modifies this`limit
      ensures ReadSide() && limit == INT32_MAX
    {
      limit := INT32_MAX;
    }

    /** One round of the copying read at lines 80-95. */
    method ReadSome(len: nat) returns (got: Bytes)
      requires ReadSide() && chain != [] && head != null && len > 0
      modifies this, Repr
      ensures ReadSide() && Repr == old(Repr) && limit == old(limit)
      ensures old(Unread()) == got + Unread() && consumed == old(consumed) + got && |got| <= len
      ensures |got| < len ==> |chain| < |old(chain)|
      ensures chain != [] ==> At() == old(At())
      ensures (if |got| < len then Empties(blocks, len - |got|) else chain == []) <==> old(Empties(blocks, len))
    {
      hide Valid, Owned, Shown, Linked, Tight, Roomy, Contents, BlocksOk, ReadSide, Backable, Empties;
      FromReadSide();
      FromValid();
      GetHead();
      var block := head.block;
      ghost var was := blocks;
      var n := Min(len, block.Size());
      got := block.data[block.readPos..block.readPos + n];
      EmptiesStep(was, len);
      UnreadFront(was, n);
      LastAtKept(was, Advanced(was[0], n));
      consumedBytes := consumedBytes + n;
      consumed := consumed + got;
      totalSize := totalSize - n;
      ReadBlock(block, n);
      if block.Empty() {
        RemoveHead();
        assert blocks == was[1..];
        LastRead(was, old(consumed));
      } else {
        AdvancedShape(was, old(consumed), n);
      }
      ToValid();
      ToReadSide();
    }

    /** `BufferBlock::read` on the first block. */
    method ReadBlock(block: BufferBlock, n: nat)
      requires Owned() && chain != [] && head != null && head.block == block && n <= block.Size()
      modifies this`blocks, block`readPos, block`writePos
      ensures Owned() && |blocks| == |chain| && (block.Empty() <==> n == old(block.Size()))
      ensures blocks == old(blocks)[0 := blocks[0]]
      ensures n < old(block.Size()) ==> blocks[0] == Advanced(old(blocks[0]), n)
    {
      hide Valid, Owned, Shown, Linked, Tight, Roomy, Contents, BlocksOk;
      GetOwned(0);
      var k := block.Read(n);
      blocks := blocks[0 := block.View()];
      OneBlock(0);
    }

    /** Of `len` bytes asked for, `out` has been read; whether the last node will go is as it was at first. */
    ghost predicate Reading(all: Bytes, had: Bytes, at: nat, out: Bytes, len: nat, goes: bool)
      reads this, Repr
    {
      && ReadSide() && |out| <= len && all == out + Unread() && consumed == had + out && |blocks| == |chain|
      && (chain != [] ==> At() == at)
      && ((if |out| < len then Empties(blocks, len - |out|) else chain == []) <==> goes)
    }

    method ReadRound(ghost all: Bytes, ghost had: Bytes, ghost at: nat, out: Bytes, len: nat, ghost goes: bool) returns (more: Bytes)
      requires Reading(all, had, at, out, len, goes) && chain != [] && head != null && |out| < len
      modifies this, Repr
      ensures Reading(all, had, at, more, len, goes) && Repr == old(Repr) && limit == old(limit)
      ensures |out| <= |more| && (|out| < |more| || |chain| < |old(chain)|)
    {
      hide Valid, ReadSide, ReadShape, Unread, Empties;
      FromReadSide();
      var got := ReadSome(len - |out|);
      more := out + got;
      Assoc(out, got, Unread());
      Assoc(had, out, got);
      FromReadSide();
    }

    lemma HeadOrNone()
      requires ReadSide()
      ensures head == null <==> chain == []
    {
    }

    /**
     Copies and consumes up to `len` bytes. The chain is left without any node exactly when more is asked
     for than there is, or all of it while the last block holds some.
     */
    method Read(len: nat) returns (out: Bytes)
      requires ReadSide()
      modifies this, Repr
      ensures ReadSide() && Repr == old(Repr) && limit == old(limit)
      ensures out == old(Unread())[..Min(len, |old(Unread())|)]
      ensures Unread() == old(Unread())[|out|..] && consumed == old(consumed) + out
      ensures chain == [] <==> old(chain) == [] || (len > 0 && LosesNode(|old(Unread())|, old(At()), len))
      ensures chain != [] ==> At() == old(At())
    {
      hide ReadSide, Unread;
      out := [];
      ghost var all, had, at, goes := Unread(), consumed, At(), Empties(blocks, len);
      if len == 0 {
        return;
      }
      FromReadSide();
      ReadGoes(len);
      assert Reading(all, had, at, out, len, goes);
      hide Reading;
      HeadOrNone();
      while head != null && |out| < len
        invariant Reading(all, had, at, out, len, goes) && (head == null <==> chain == [])
        invariant Repr == old(Repr) && limit == old(limit)
        decreases len - |out|, |chain|
      {
        out := ReadRound(all, had, at, out, len, goes);
        ReadingHead(all, had, at, out, len, goes);
      }
      ReadDone(all, had, at, out, len, goes);
    }

    lemma ReadGoes(len: nat)
      requires ReadSide() && len > 0
      ensures Empties(blocks, len) <==> chain == [] || LosesNode(|Unread()|, At(), len)
    {
      FromReadSide();
      if chain != [] { EmptiesExactly(blocks, len); }
    }

    lemma ReadingHead(all: Bytes, had: Bytes, at: nat, out: Bytes, len: nat, goes: bool)
      requires Reading(all, had, at, out, len, goes)
      ensures head == null <==> chain == []
    {
      HeadOrNone();
    }

    lemma ReadDone(all: Bytes, had: Bytes, at: nat, out: Bytes, len: nat, goes: bool)
      requires Reading(all, had, at, out, len, goes) && (chain == [] || |out| >= len)
      ensures ReadSide() && |out| <= |all| && out == all[..Min(len, |all|)] && Unread() == all[|out|..] && consumed == had + out
      ensures chain == [] <==> goes
      ensures chain != [] ==> At() == at
    {
    }
  
    /** The last block of a buffer that is read from always has room, and that is what `write_view` offers. */
    lemma RoomSize()
      requires ReadSide() && chain != []
      ensures |Room()| == BLOCK_SIZE - tail.block.writePos == BLOCK_SIZE - At() > 0 && |blocks| == |chain|
      ensures tail.block.writePos == blocks[|chain| - 1].writePos
    {
      hide Owned, Contents, Backable;
      GetOwned(|chain| - 1);
    }

    /** A read system call stores `src` in the room of the last block, `offset` bytes after the write position. */
    method FillRoom(offset: nat, src: Bytes)
      requires ReadSide() && chain != [] && offset + |src| <= |Room()|
      modifies this`blocks, tail.block.data
      ensures ReadSide() && Unread() == old(Unread()) && At() == old(At())
      ensures |Room()| == old(|Room()|) && Room()[..offset] == old(Room())[..offset]
      ensures Room()[offset..offset + |src|] == src
      ensures |blocks| == |chain| && blocks[|chain| - 1].writePos == old(blocks[|chain| - 1].writePos)
    {
      hide Valid, Owned, Shown, Linked, Tight, Roomy, Contents, BlocksOk, ReadSide, Backable;
      FromReadSide();
      FromValid();
      ghost var i := |chain| - 1;
      GetNode(i);
      ghost var b := blocks[i];
      RoomFilled(blocks, consumed, b.writePos + offset, src);
      FilledSame(b, b.writePos + offset, src);
      FillTail(tail.block.writePos + offset, src);
      assert blocks[i].data[b.writePos..][..offset] == b.data[b.writePos..][..offset] by {
        assert blocks[i].data[..b.writePos + offset] == b.data[..b.writePos + offset];
        SliceOfTake(blocks[i].data, b.data, b.writePos, offset);
      }
      ToValid();
      ToReadSide();
    }

    /**
     A reader under a limit: whatever the blocks, repeated `InputNext` hands out exactly the first
     min(limit, size) bytes, in order, and then fails.
     */
    method DrainUnderLimit(newLimit: int) returns (out: Bytes)
      requires ReadSide() && chain != [] && 0 <= newLimit < INT32_MAX
      modifies this, Repr
      ensures ReadSide() && chain != [] && Repr == old(Repr) && At() == old(At())
      ensures out == old(Unread())[..Min(newLimit, |old(Unread())|)]
      ensures Unread() == old(Unread())[|out|..] && consumed == old(consumed) + out
      ensures Unread() == [] || limit == 0
    {
      hide ReadSide, Unread;
      ghost var all, had, at := Unread(), consumed, At();
      PushLimit(newLimit);
      out := [];
      assert Draining(all, had, at, out, newLimit);
      hide Draining;
      while true
        invariant Draining(all, had, at, out, newLimit) && Repr == old(Repr)
        decreases |all| - |out|
      {
        var more, done := DrainRound(all, had, at, out, newLimit);
        if done {
          DrainDone(all, had, at, out, newLimit);
          return;
        }
        out := more;
      }
    }

    ghost predicate Draining(all: Bytes, had: Bytes, at: nat, out: Bytes, newLimit: int)
      reads this, Repr
    {
      && ReadSide() && chain != [] && all == out + Unread() && consumed == had + out
      && |out| <= newLimit && limit == newLimit - |out| && At() == at
    }

    method DrainRound(ghost all: Bytes, ghost had: Bytes, ghost at: nat, out: Bytes, newLimit: int) returns (more: Bytes, done: bool)
      requires Draining(all, had, at, out, newLimit) && newLimit < INT32_MAX
      modifies this, Repr
      ensures Draining(all, had, at, more, newLimit) && Repr == old(Repr) && |more| <= |all|
      ensures if done then more == out && (Unread() == [] || limit == 0) else |out| < |more|
    {
      hide ReadSide, Unread;
      var span := InputNext();
      if span == None {
        return out, true;
      }
      var s := span.value;
      more, done := out + SpanBytes(s), false;
      DrainBytes(out, old(Unread()), s.len);
    }

    lemma DrainDone(all: Bytes, had: Bytes, at: nat, out: Bytes, newLimit: int)
      requires Draining(all, had, at, out, newLimit) && (Unread() == [] || limit == 0)
      ensures ReadSide() && chain != [] && |out| <= |all| && out == all[..Min(newLimit, |all|)]
      ensures Unread() == all[|out|..] && consumed == had + out && At() == at
    {
    }
  }

  /** The last block's whole room counts as written, and is what `span` offers. */
  ghost predicate Extended(wasChain: seq<Node>, was: seq<Block>, chain: seq<Node>, blocks: seq<Block>, span: Span) {
    && |was| == |wasChain| > 0 && chain == wasChain
    && var n := |was| - 1;
       && was[n].Ok() && !was[n].Full() && blocks == was[n := was[n].(writePos := BLOCK_SIZE)]
       && span == Span(chain[n].block.data, was[n].writePos, BLOCK_SIZE - was[n].writePos)
  }

  /** A blank block was added after the full one, and then the full one was overwritten by it and offered. */
  ghost predicate Overwritten(wasChain: seq<Node>, was: seq<Block>, chain: seq<Node>, blocks: seq<Block>, span: Span) {
    && |was| == |wasChain| > 0 && |chain| == |blocks| == |was| + 1 && chain[..|was|] == wasChain
    && var n := |was| - 1;
       && was[n].Ok() && was[n].Full() && blocks[..n] == was[..n] && Blank(blocks[n + 1])
       && blocks[n].Ok() && blocks[n].readPos == 0 && blocks[n].writePos == BLOCK_SIZE
       && span == Span(chain[n].block.data, 0, BLOCK_SIZE)
  }

  lemma ExtendedHere(chain: seq<Node>, was: seq<Block>, blocks: seq<Block>, span: Span)
    requires |was| == |chain| > 0
    requires var n := |was| - 1;
      && was[n].Ok() && !was[n].Full() && blocks == was[n := was[n].(readPos := was[n].readPos, writePos := BLOCK_SIZE)]
      && span == Span(chain[n].block.data, was[n].writePos, BLOCK_SIZE - was[n].writePos)
    ensures Extended(chain, was, chain, blocks, span)
  {
  }

  lemma DrainBytes(out: Bytes, unread: Bytes, n: nat)
    requires n <= |unread|
    ensures out + unread == out + unread[..n] + unread[n..]
  {
  }

  lemma SliceOfTake(x: Bytes, y: Bytes, i: nat, n: nat)
    requires i + n <= |x| && i + n <= |y| && x[..i + n] == y[..i + n]
    ensures x[i..][..n] == y[i..][..n]
  {
    forall k | 0 <= k < n
      ensures x[i..][..n][k] == y[i..][..n][k]
    {
      assert x[..i + n][i + k] == y[..i + n][i + k];
    }
  }

  const IOV_MAX: nat := 1024

  /** `len` bytes of a storage from position `at`. */
  datatype Span = Span(data: array<Byte>, at: nat, len: nat)

  /** The bytes a span stands for at the moment. */
  function SpanBytes(span: Span): Bytes
    reads span.data
  {
    if span.at + span.len <= span.data.Length then span.data[span.at..span.at + span.len] else []
  }

  /** The bytes of several spans, one after the other. */
  function Gather(spans: seq<Span>): Bytes
    reads set s | s in spans :: s.data
  {
    if spans == [] then [] else Gather(spans[..|spans| - 1]) + SpanBytes(spans[|spans| - 1])
  }

  lemma GatherNone(blocks: seq<Block>)
    ensures Gather([]) == Contents(blocks[..0])
  {
    assert blocks[..0] == [];
  }

  lemma SpanUnread(block: BufferBlock, span: Span)
    requires block.View().Ok() && span == Span(block.data, block.readPos, block.Size())
    ensures SpanBytes(span) == block.View().Unread()
  {
  }

  lemma GatherSnoc(spans: seq<Span>, s: Span)
    ensures Gather(spans + [s]) == Gather(spans) + SpanBytes(s)
  {
    assert (spans + [s])[..|spans|] == spans;
  }

  lemma SeparateAt(chain: seq<Node>, free: seq<Node>, i: nat)
    requires Separate(chain, free) && i < |chain|
    ensures forall j :: 0 <= j < |chain| && j != i ==> Disjoint(chain[i], chain[j])
    ensures forall j :: 0 <= j < |free| ==> Disjoint(chain[i], free[j])
  {
  }

}
