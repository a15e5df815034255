/** A chain of blocks as a value: what it holds, and how single changes to it show in what it holds. */
module BlockChains {
  import opened Base
  import opened BufferBlocks
  import opened Geometry

  /** The block of a node that holds nothing. */
  ghost predicate Blank(b: Block) {
    b.Ok() && b.readPos == b.writePos == 0
  }

  ghost predicate BlocksOk(blocks: seq<Block>) {
    forall i :: 0 <= i < |blocks| ==> blocks[i].Ok()
  }

  /** The unread bytes along the chain. */
  ghost function Contents(blocks: seq<Block>): Bytes {
    if blocks == [] then [] else blocks[0].Unread() + Contents(blocks[1..])
  }

  /**
   The shape both kinds of use keep: every block but the last is full, full blocks hold unread bytes, and
   only the first block has been read from.
   */
  ghost predicate Tight(blocks: seq<Block>) {
    && (forall i :: 0 <= i < |blocks| ==> blocks[i].Ok())
    && (forall i :: 0 <= i < |blocks| - 1 ==> blocks[i].Full())
    && (forall i :: 0 <= i < |blocks| ==> blocks[i].Full() ==> !blocks[i].Empty())
    && (forall i :: 1 <= i < |blocks| ==> blocks[i].readPos == 0)
  }

  /** There is a last block and it has room. */
  ghost predicate Roomy(blocks: seq<Block>) {
    |blocks| > 0 && !blocks[|blocks| - 1].Full()
  }

  lemma {:induction false} ContentsSnoc(blocks: seq<Block>, b: Block)
    ensures Contents(blocks + [b]) == Contents(blocks) + b.Unread()
  {
    var all := blocks + [b];
    if blocks == [] {
      assert all[1..] == [];
    } else {
      ContentsSnoc(blocks[1..], b);
      assert all[1..] == blocks[1..] + [b];
    }
  }

  /** Replacing the last block replaces the last part of the contents. */
  lemma ContentsLast(blocks: seq<Block>, b: Block)
    requires |blocks| > 0
    ensures var n := |blocks| - 1;
      && Contents(blocks) == Contents(blocks[..n]) + blocks[n].Unread()
      && Contents(blocks[n := b]) == Contents(blocks[..n]) + b.Unread()
  {
    var n := |blocks| - 1;
    ContentsSnoc(blocks[..n], blocks[n]);
    ContentsSnoc(blocks[..n], b);
    assert blocks == blocks[..n] + [blocks[n]] && blocks[n := b] == blocks[..n] + [b];
  }

  lemma ContentsHead(blocks: seq<Block>, b: Block)
    requires |blocks| > 0
    ensures Contents(blocks[0 := b]) == b.Unread() + Contents(blocks[1..])
  {
    assert blocks[0 := b][1..] == blocks[1..];
  }

  /** Only an all-read chain of one block has no contents. */
  lemma ContentsEmpty(blocks: seq<Block>)
    requires Tight(blocks) && |blocks| > 0
    ensures blocks[0].Empty() ==> |blocks| == 1 && Contents(blocks) == []
    ensures blocks[0].Unread() <= Contents(blocks)
  {
    if |blocks| == 1 { assert blocks[1..] == []; }
  }

  lemma AppendedTight(blocks: seq<Block>, b: Block)
    requires Tight(blocks) && Blank(b) && (|blocks| > 0 ==> blocks[|blocks| - 1].Full())
    ensures Tight(blocks + [b]) && Roomy(blocks + [b]) && Contents(blocks + [b]) == Contents(blocks)
  {
    hide Contents;
    ContentsSnoc(blocks, b);
    AppendedShape(blocks, b);
  }

  lemma AppendedShape(blocks: seq<Block>, b: Block)
    requires Tight(blocks) && Blank(b) && (|blocks| > 0 ==> blocks[|blocks| - 1].Full())
    ensures Tight(blocks + [b]) && Roomy(blocks + [b])
  {
  }

  lemma WroteTight(blocks: seq<Block>, i: nat, src: Bytes)
    requires Tight(blocks) && i < |blocks| && src != []
    requires i == |blocks| - 1 || blocks[i].Full()
    ensures var n := Min(|src|, BLOCK_SIZE - blocks[i].writePos);
      var blocks' := blocks[i := Wrote(blocks[i], src)];
      && Tight(blocks') && Contents(blocks') == Contents(blocks) + src[..n]
      && (Roomy(blocks) && i == |blocks| - 1 ==> n > 0)
      && (Roomy(blocks) && i < |blocks| - 1 ==> Roomy(blocks'))
  {
    var b := Wrote(blocks[i], src);
    WroteShape(blocks, i, src);
    WroteUnread(blocks[i], src);
    hide Contents, Tight, Wrote, Block.Unread;
    if i == |blocks| - 1 {
      ContentsLast(blocks, b);
      Assoc(Contents(blocks[..i]), blocks[i].Unread(), src[..Min(|src|, BLOCK_SIZE - blocks[i].writePos)]);
    } else {
      assert src[..0] == [] && Contents(blocks) + [] == Contents(blocks);
    }
  }

  lemma WroteShape(blocks: seq<Block>, i: nat, src: Bytes)
    requires Tight(blocks) && i < |blocks| && src != []
    requires i == |blocks| - 1 || blocks[i].Full()
    ensures blocks[i].Ok()
    ensures var n := Min(|src|, BLOCK_SIZE - blocks[i].writePos);
      var blocks' := blocks[i := Wrote(blocks[i], src)];
      && Tight(blocks')
      && (blocks[i].Full() ==> n == 0 && blocks' == blocks)
      && (Roomy(blocks) && i == |blocks| - 1 ==> n > 0)
  {
    hide Block.Unread;
    var b := Wrote(blocks[i], src);
    if blocks[i].Full() {
      assert b.data == blocks[i].data;
      assert b == blocks[i];
      assert blocks[i := b] == blocks;
    }
  }

  /** `b` with `src` copied to position `at` of its storage. */
  ghost function Filled(b: Block, at: nat, src: Bytes): Block
    requires b.Ok() && at + |src| <= BLOCK_SIZE
  {
    b.(data := b.data[..at] + src + b.data[at + |src|..])
  }

  /** The last block's free room, whatever it holds, has become part of the contents. */
  ghost predicate Offered(was: seq<Block>, blocks: seq<Block>) {
    && |was| == |blocks| > 0
    && var n := |was| - 1;
       was[n].Ok() && blocks == was[n := was[n].(writePos := BLOCK_SIZE)]
       && Contents(blocks) == Contents(was) + was[n].data[was[n].writePos..]
  }

  lemma OfferedTight(was: seq<Block>)
    requires Tight(was) && Roomy(was)
    ensures var n := |was| - 1;
      var blocks := was[n := was[n].(writePos := BLOCK_SIZE)];
      Tight(blocks) && Offered(was, blocks)
  {
    var n := |was| - 1;
    var b := was[n].(writePos := BLOCK_SIZE);
    OfferedShape(was);
    hide Tight, Contents;
    ContentsLast(was, b);
    SliceSplit(was[n].data, was[n].readPos, was[n].writePos);
    assert b.Unread() == was[n].Unread() + was[n].data[was[n].writePos..];
    Assoc(Contents(was[..n]), was[n].Unread(), was[n].data[was[n].writePos..]);
  }

  lemma OfferedShape(was: seq<Block>)
    requires Tight(was) && Roomy(was)
    ensures var n := |was| - 1; was[n].Ok() && Tight(was[n := was[n].(writePos := BLOCK_SIZE)])
  {
  }

  lemma SliceJoin(s: Bytes, i: nat, j: nat, k: nat)
    requires i <= j <= k <= |s|
    ensures s[i..k] == s[i..j] + s[j..k]
  {
  }

  lemma SliceSplit(s: Bytes, i: nat, j: nat)
    requires i <= j <= |s|
    ensures s[i..] == s[i..j] + s[j..] && s[i..|s|] == s[i..]
  {
  }

  lemma FilledTight(was: seq<Block>, offered: seq<Block>, blocks: seq<Block>, src: Bytes)
    requires Tight(was) && Roomy(was) && Offered(was, offered)
    requires |src| <= BLOCK_SIZE - was[|was| - 1].writePos
    requires var n := |was| - 1; offered[n].Ok() && blocks == offered[n := Filled(offered[n], was[n].writePos, src)]
    ensures Tight(blocks) && |Contents(blocks)| == |Contents(offered)| >= |Contents(was)| + |src|
    ensures Contents(blocks)[..|Contents(was)| + |src|] == Contents(was) + src
    ensures var b := blocks[|blocks| - 1]; b.writePos == BLOCK_SIZE && b.readPos == was[|was| - 1].readPos <= was[|was| - 1].writePos
  {
    var n := |was| - 1;
    hide Contents, Filled, Block.Unread, Tight;
    TightLast(was);
    FilledLast(was[n], offered[n], src);
    FilledShape(was, blocks);
    FilledContents(was, offered, blocks, src);
  }

  lemma TightLast(blocks: seq<Block>)
    requires Tight(blocks) && |blocks| > 0
    ensures blocks[|blocks| - 1].Ok()
  {
  }

  lemma FilledShape(was: seq<Block>, blocks: seq<Block>)
    requires Tight(was) && |was| == |blocks| > 0 && Roomy(was)
    requires var n := |was| - 1; blocks == was[n := blocks[n]] && blocks[n].Ok() && blocks[n].readPos == was[n].readPos
    requires blocks[|was| - 1].writePos == BLOCK_SIZE
    ensures Tight(blocks)
  {
  }

  lemma FilledContents(was: seq<Block>, offered: seq<Block>, blocks: seq<Block>, src: Bytes)
    requires |was| == |offered| == |blocks| > 0
    requires var n := |was| - 1;
      && offered == was[n := offered[n]] && blocks == was[n := blocks[n]]
      && |blocks[n].Unread()| == |offered[n].Unread()| >= |was[n].Unread()| + |src|
      && blocks[n].Unread()[..|was[n].Unread()| + |src|] == was[n].Unread() + src
    ensures |Contents(blocks)| == |Contents(offered)| >= |Contents(was)| + |src|
    ensures Contents(blocks)[..|Contents(was)| + |src|] == Contents(was) + src
  {
    var n := |was| - 1;
    hide Contents, Block.Unread;
    ContentsLast(was, blocks[n]);
    ContentsLast(was, offered[n]);
    FillLast(Contents(was), Contents(blocks), Contents(was[..n]), was[n].Unread(), blocks[n].Unread(), src);
  }

  lemma FillLast(x: Bytes, y: Bytes, front: Bytes, u: Bytes, v: Bytes, src: Bytes)
    requires x == front + u && y == front + v && |v| >= |u| + |src| && v[..|u| + |src|] == u + src
    ensures |y| >= |x| + |src| && y[..|x| + |src|] == x + src
  {
    TakeInto(front, v, |u| + |src|);
    assert front + (u + src) == front + u + src;
  }

  lemma FilledLast(was: Block, offered: Block, src: Bytes)
    requires was.Ok() && offered == was.(writePos := BLOCK_SIZE) && |src| <= BLOCK_SIZE - was.writePos
    ensures var b := Filled(offered, was.writePos, src);
      && b.Ok() && b.writePos == BLOCK_SIZE && b.readPos == was.readPos
      && |b.Unread()| == |offered.Unread()| >= |was.Unread()| + |src|
      && b.Unread()[..|was.Unread()| + |src|] == was.Unread() + src
  {
    var r, w, m := was.readPos, was.writePos, was.writePos + |src|;
    Spliced(was.data, r, w, src);
    SliceTake(Filled(offered, w, src).data, r, BLOCK_SIZE, m);
  }

  lemma Spliced(data: Bytes, r: nat, w: nat, src: Bytes)
    requires r <= w && w + |src| <= |data|
    ensures var t := data[..w] + src + data[w + |src|..]; |t| == |data| && t[r..w + |src|] == data[r..w] + src
  {
  }

  /** Overwriting a full last block loses what it held: only the bytes already read from it are made up for. */
  lemma OverwrittenSize(was: seq<Block>, blocks: seq<Block>)
    requires |was| > 0 && was[|was| - 1].Ok() && was[|was| - 1].Full() && |blocks| == |was| + 1
    requires var n := |was| - 1;
      && blocks[..n] == was[..n] && blocks[n].readPos == 0 && blocks[n].writePos == BLOCK_SIZE && blocks[n].Ok()
      && Blank(blocks[n + 1])
    ensures |Contents(blocks)| == |Contents(was)| + was[|was| - 1].readPos
  {
    hide Contents, Block.Unread;
    var n := |was| - 1;
    UnreadLength(was[n]);
    UnreadLength(blocks[n]);
    UnreadLength(blocks[n + 1]);
    ContentsLength(was, n);
    ContentsLength(blocks, n + 1);
    ContentsLength(blocks[..n + 1], n);
    assert blocks[..n + 1][..n] == was[..n];
  }

  /** Other bytes at the same positions: the contents keep their length. */
  lemma {:induction false} SameLength(was: seq<Block>, blocks: seq<Block>)
    requires |blocks| == |was| && BlocksOk(was) && BlocksOk(blocks)
    requires forall i :: 0 <= i < |was| ==> blocks[i].readPos == was[i].readPos && blocks[i].writePos == was[i].writePos
    ensures |Contents(blocks)| == |Contents(was)|
  {
    if was != [] {
      UnreadLength(was[0]);
      UnreadLength(blocks[0]);
      SameLength(was[1..], blocks[1..]);
    }
  }

  lemma FilledLength(blocks: seq<Block>, i: nat, at: nat, src: Bytes)
    requires BlocksOk(blocks) && i < |blocks| && at + |src| <= BLOCK_SIZE
    ensures |Contents(blocks[i := Filled(blocks[i], at, src)])| == |Contents(blocks)|
  {
    SameLength(blocks, blocks[i := Filled(blocks[i], at, src)]);
  }

  /** The room of the last block counts as content, however the chain looks. */
  lemma ExtendedSize(was: seq<Block>)
    requires |was| > 0 && was[|was| - 1].Ok()
    ensures var n := |was| - 1;
      |Contents(was[n := was[n].(writePos := BLOCK_SIZE)])| == |Contents(was)| + BLOCK_SIZE - was[n].writePos
  {
    hide Contents, Block.Unread;
    var n := |was| - 1;
    var b := was[n].(writePos := BLOCK_SIZE);
    UnreadLength(was[n]);
    UnreadLength(b);
    ContentsLast(was, b);
  }

  lemma LastHolds(blocks: seq<Block>)
    requires Tight(blocks) && |blocks| > 0
    ensures var b := blocks[|blocks| - 1]; b.Ok() && (b.Full() ==> b.readPos < b.writePos)
  {
  }

  lemma UnreadLength(b: Block)
    requires b.Ok()
    ensures |b.Unread()| == b.writePos - b.readPos
  {
  }

  lemma ContentsLength(blocks: seq<Block>, n: nat)
    requires |blocks| == n + 1
    ensures |Contents(blocks)| == |Contents(blocks[..n])| + |blocks[n].Unread()|
  {
    ContentsSnoc(blocks[..n], blocks[n]);
    assert blocks == blocks[..n] + [blocks[n]];
  }

  lemma BackedShape(blocks: seq<Block>, count: nat)
    requires Tight(blocks) && |blocks| > 0
    requires var b := blocks[|blocks| - 1]; count <= b.writePos - b.readPos
    ensures var n := |blocks| - 1; Tight(blocks[n := blocks[n].(writePos := blocks[n].writePos - count)])
  {
  }

  lemma BackedContents(blocks: seq<Block>, count: nat)
    requires |blocks| > 0 && blocks[|blocks| - 1].Ok()
    requires var b := blocks[|blocks| - 1]; count <= b.writePos - b.readPos
    ensures var n := |blocks| - 1;
      var blocks' := blocks[n := blocks[n].(writePos := blocks[n].writePos - count)];
      count <= |Contents(blocks)| && Contents(blocks') == Contents(blocks)[..|Contents(blocks)| - count]
  {
    var n := |blocks| - 1;
    var b := blocks[n].(writePos := blocks[n].writePos - count);
    hide Contents, Block.Unread;
    ContentsLast(blocks, b);
    UnreadCut(blocks[n], count);
    CutLast(Contents(blocks), Contents(blocks[n := b]), Contents(blocks[..n]), blocks[n].Unread(), b.Unread(), count);
  }

  lemma UnreadCut(b: Block, count: nat)
    requires b.Ok() && count <= b.writePos - b.readPos
    ensures |b.Unread()| == b.writePos - b.readPos
    ensures b.(writePos := b.writePos - count).Unread() == b.Unread()[..|b.Unread()| - count]
  {
    SliceTake(b.data, b.readPos, b.writePos, b.writePos - count);
  }

  lemma SliceTake(s: Bytes, i: nat, j: nat, k: nat)
    requires i <= k <= j <= |s|
    ensures s[i..j][..k - i] == s[i..k]
  {
  }

  /** The unread bytes after the first `n` bytes of the first block. */
  lemma SentTight(blocks: seq<Block>, n: nat)
    requires Tight(blocks) && |blocks| > 0 && n <= blocks[0].writePos - blocks[0].readPos
    ensures var b := blocks[0].(readPos := blocks[0].readPos + n);
      && b.Ok() && Contents(blocks[0 := b]) == Contents(blocks)[n..]
      && (if b.Empty() then Contents(blocks[1..]) == Contents(blocks)[n..] else Tight(blocks[0 := b]))
    ensures n == 0 ==> blocks[0].Empty() ==> Contents(blocks) == []
  {
    var b := blocks[0].(readPos := blocks[0].readPos + n);
    ContentsHead(blocks, b);
    ContentsEmpty(blocks);
    assert b.Unread() == blocks[0].Unread()[n..];
    assert Contents(blocks) == blocks[0].Unread() + Contents(blocks[1..]);
  }

  /** Dropping a used-up first block drops no bytes. */
  lemma DroppedTight(was: seq<Block>, blocks: seq<Block>)
    requires Tight(was) && |was| > 0
    requires if |was| > 1 then blocks == was[1..] else |blocks| == 1 && Blank(blocks[0])
    ensures Tight(blocks) && |blocks| > 0
    ensures Contents(blocks) == Contents(was[1..])
  {
    if |was| == 1 { assert was[1..] == [] && blocks[1..] == []; }
  }

  lemma DropDrop(s: Bytes, i: nat, j: nat)
    requires i + j <= |s|
    ensures s[i..][j..] == s[i + j..]
  {
  }

  lemma CutLast(x: Bytes, x': Bytes, front: Bytes, u: Bytes, u': Bytes, count: nat)
    requires x == front + u && x' == front + u' && count <= |u| && u' == u[..|u| - count]
    ensures count <= |x| && x' == x[..|x| - count]
  {
  }

  lemma TakeInto(x: Bytes, y: Bytes, k: nat)
    requires k <= |y|
    ensures (x + y)[..|x| + k] == x + y[..k]
  {
  }

  lemma WroteNone(front: Bytes, data: Bytes)
    ensures front + data[..0] == front
  {
  }

  lemma TakeTake(s: Bytes, front: Bytes, src: Bytes, n: nat)
    requires n == |src| && |front| + n <= |s| && s[..|front| + n] == front + src[..n]
    ensures s[..|front| + n] == front + src
  {
  }

  lemma WroteAll(data: Bytes, written: int)
    requires written == |data|
    ensures data[..written] == data
  {
  }

  lemma Joined(front: Bytes, data: Bytes, i: nat, n: nat)
    requires i + n <= |data|
    ensures front + data[..i] + data[i..][..n] == front + data[..i + n]
  {
    Assoc(front, data[..i], data[i..][..n]);
    assert data[..i] + data[i..][..n] == data[..i + n];
  }

  // ---------------------------------------------------------------- reading

  /** The bytes of the first block that can be backed over are the last ones consumed. */
  ghost predicate Backable(blocks: seq<Block>, consumed: Bytes) {
    |blocks| > 0 ==>
      var b := blocks[0];
      b.readPos <= |consumed| && b.readPos <= |b.data| && consumed[|consumed| - b.readPos..] == b.data[..b.readPos]
  }

  /** The shape of a buffer that is filled by receiving and emptied by reading. */
  ghost predicate ReadShape(blocks: seq<Block>, consumed: Bytes) {
    Tight(blocks) && (|blocks| > 0 ==> Roomy(blocks)) && Backable(blocks, consumed)
  }

  /** `b` after `n` more bytes were read from it. */
  ghost function Advanced(b: Block, n: nat): Block {
    b.(readPos := b.readPos + n)
  }

  /** `b` after its last `n` bytes read were given back. */
  ghost function Retreated(b: Block, n: nat): Block
    requires n <= b.readPos
  {
    b.(readPos := b.readPos - n)
  }

  /** Reading `n` bytes of the first block, without using it up. */
  lemma AdvancedShape(blocks: seq<Block>, consumed: Bytes, n: nat)
    requires ReadShape(blocks, consumed) && |blocks| > 0 && n <= blocks[0].writePos - blocks[0].readPos
    requires n < blocks[0].writePos - blocks[0].readPos || !blocks[0].Full()
    ensures n <= |Contents(blocks)|
    ensures var blocks' := blocks[0 := Advanced(blocks[0], n)];
      && Contents(blocks') == Contents(blocks)[n..] && ReadShape(blocks', consumed + Contents(blocks)[..n])
  {
    hide Contents, Backable;
    AdvancedBackable(blocks, consumed, n);
    SentTight(blocks, n);
    ContentsEmpty(blocks);
    AdvancedTight(blocks, n);
  }

  lemma AdvancedTight(blocks: seq<Block>, n: nat)
    requires Tight(blocks) && |blocks| > 0 && n <= blocks[0].writePos - blocks[0].readPos
    requires n < blocks[0].writePos - blocks[0].readPos || !blocks[0].Full()
    ensures var blocks' := blocks[0 := Advanced(blocks[0], n)]; Tight(blocks') && (Roomy(blocks) ==> Roomy(blocks'))
  {
  }

  lemma AdvancedBackable(blocks: seq<Block>, consumed: Bytes, n: nat)
    requires Tight(blocks) && Backable(blocks, consumed) && |blocks| > 0 && n <= blocks[0].writePos - blocks[0].readPos
    ensures n <= |Contents(blocks)|
    ensures Backable(blocks[0 := Advanced(blocks[0], n)], consumed + Contents(blocks)[..n])
  {
    hide Tight;
    FirstOk(blocks);
    var b := blocks[0];
    assert Contents(blocks) == b.Unread() + Contents(blocks[1..]);
    TakeFront(b.Unread(), Contents(blocks[1..]), n);
    hide Contents;
    SuffixGrows(consumed, b.data, b.readPos, n);
    assert b.Unread()[..n] == b.data[b.readPos..b.readPos + n];
  }

  lemma FirstOk(blocks: seq<Block>)
    requires Tight(blocks) && |blocks| > 0
    ensures blocks[0].Ok()
  {
  }

  lemma TakeFront(x: Bytes, y: Bytes, n: nat)
    requires n <= |x|
    ensures (x + y)[..n] == x[..n]
  {
  }

  lemma SuffixGrows(consumed: Bytes, data: Bytes, r: nat, n: nat)
    requires r <= |consumed| && r + n <= |data| && consumed[|consumed| - r..] == data[..r]
    ensures var c := consumed + data[r..r + n]; r + n <= |c| && c[|c| - (r + n)..] == data[..r + n]
  {
    var c := consumed + data[r..r + n];
    assert c[|c| - (r + n)..] == consumed[|consumed| - r..] + data[r..r + n];
    assert data[..r + n] == data[..r] + data[r..r + n];
  }

  /** Reading all of the first block of several, which is then dropped. */
  lemma UsedUpShape(blocks: seq<Block>, consumed: Bytes)
    requires ReadShape(blocks, consumed) && |blocks| > 1
    ensures var n := blocks[0].writePos - blocks[0].readPos;
      && 0 < n <= |Contents(blocks)| && blocks[0].Full()
      && Contents(blocks[1..]) == Contents(blocks)[n..] && ReadShape(blocks[1..], consumed + Contents(blocks)[..n])
  {
    var b := blocks[0];
    assert Contents(blocks) == b.Unread() + Contents(blocks[1..]);
    UsedUpTight(blocks);
    UnreadLength(b);
    assert consumed + b.Unread() == consumed + Contents(blocks)[..|b.Unread()|];
  }

  lemma UsedUpTight(blocks: seq<Block>)
    requires Tight(blocks) && |blocks| > 1
    ensures Tight(blocks[1..]) && (Roomy(blocks) ==> Roomy(blocks[1..])) && blocks[1].readPos == 0
    ensures blocks[0].Ok() && blocks[0].Full() && !blocks[0].Empty()
  {
  }

  /** Backing `n` bytes of the first block up. */
  lemma BackedUpShape(blocks: seq<Block>, consumed: Bytes, n: nat)
    requires ReadShape(blocks, consumed) && |blocks| > 0 && n <= blocks[0].readPos
    ensures n <= |consumed|
    ensures var blocks' := blocks[0 := Retreated(blocks[0], n)];
      && Contents(blocks') == consumed[|consumed| - n..] + Contents(blocks)
      && ReadShape(blocks', consumed[..|consumed| - n])
  {
    hide Contents, Backable;
    BackedUpTight(blocks, n);
    BackedUpBytes(blocks, consumed, n);
  }

  lemma BackedUpTight(blocks: seq<Block>, n: nat)
    requires Tight(blocks) && |blocks| > 0 && n <= blocks[0].readPos
    ensures var blocks' := blocks[0 := Retreated(blocks[0], n)]; Tight(blocks') && (Roomy(blocks) ==> Roomy(blocks'))
  {
  }

  lemma BackedUpBytes(blocks: seq<Block>, consumed: Bytes, n: nat)
    requires Tight(blocks) && Backable(blocks, consumed) && |blocks| > 0 && n <= blocks[0].readPos
    ensures n <= |consumed|
    ensures var blocks' := blocks[0 := Retreated(blocks[0], n)];
      && Contents(blocks') == consumed[|consumed| - n..] + Contents(blocks)
      && Backable(blocks', consumed[..|consumed| - n])
  {
    FirstOk(blocks);
    hide Tight;
    var b := blocks[0];
    var r := b.readPos;
    var c := consumed;
    assert Contents(blocks) == b.Unread() + Contents(blocks[1..]);
    ContentsHead(blocks, Retreated(b, n));
    hide Contents;
    SuffixShrinks(c, b.data, r, n);
    SliceJoin(b.data, r - n, r, b.writePos);
    Assoc(b.data[r - n..r], b.Unread(), Contents(blocks[1..]));
  }

  lemma SuffixShrinks(c: Bytes, data: Bytes, r: nat, n: nat)
    requires n <= r <= |c| && r <= |data| && c[|c| - r..] == data[..r]
    ensures data[r - n..r] == c[|c| - n..]
    ensures c[..|c| - n][|c| - r..] == data[..r - n]
  {
    assert c[|c| - n..] == c[|c| - r..][r - n..];
    assert c[..|c| - n][|c| - r..] == c[|c| - r..][..r - n];
  }

  /** Receiving: `n` bytes already in the last block's room become unread. */
  lemma ReceivedShape(blocks: seq<Block>, consumed: Bytes, n: nat)
    requires ReadShape(blocks, consumed) && |blocks| > 0 && 0 < n <= BLOCK_SIZE - blocks[|blocks| - 1].writePos
    ensures var k := |blocks| - 1;
      var b := blocks[k];
      var blocks' := blocks[k := b.(writePos := b.writePos + n)];
      && b.writePos + n <= |b.data|
      && Contents(blocks') == Contents(blocks) + b.data[b.writePos..b.writePos + n]
      && Tight(blocks') && Backable(blocks', consumed)
  {
    hide Contents;
    ReceivedTight(blocks, n);
    ReceivedBytes(blocks, n);
  }

  lemma ReceivedTight(blocks: seq<Block>, n: nat)
    requires Tight(blocks) && |blocks| > 0 && 0 < n <= BLOCK_SIZE - blocks[|blocks| - 1].writePos
    ensures var k := |blocks| - 1; Tight(blocks[k := blocks[k].(writePos := blocks[k].writePos + n)]) && blocks[k].Ok()
  {
  }

  lemma ReceivedBytes(blocks: seq<Block>, n: nat)
    requires |blocks| > 0 && blocks[|blocks| - 1].Ok() && n <= BLOCK_SIZE - blocks[|blocks| - 1].writePos
    ensures var k := |blocks| - 1;
      var b := blocks[k];
      Contents(blocks[k := b.(writePos := b.writePos + n)]) == Contents(blocks) + b.data[b.writePos..b.writePos + n]
  {
    hide Contents;
    var b := blocks[|blocks| - 1];
    var b' := b.(writePos := b.writePos + n);
    ContentsLast(blocks, b');
    UnreadGrows(b, n);
    hide Block.Unread;
    assert Contents(blocks[..|blocks| - 1]) + (b.Unread() + b.data[b.writePos..b.writePos + n])
        == Contents(blocks[..|blocks| - 1]) + b.Unread() + b.data[b.writePos..b.writePos + n];
  }

  lemma UnreadGrows(b: Block, n: nat)
    requires b.Ok() && n <= BLOCK_SIZE - b.writePos
    ensures b.(writePos := b.writePos + n).Unread() == b.Unread() + b.data[b.writePos..b.writePos + n]
  {
  }

  /** A copying read of `len` bytes takes the last node away. */
  ghost predicate Empties(blocks: seq<Block>, len: nat) {
    len > 0 &&
    (|blocks| == 0 || len > |Contents(blocks)| || (len == |Contents(blocks)| && !blocks[|blocks| - 1].Empty()))
  }

  /** One round of the copying read: `n` bytes of the first block, which goes if that was all of it. */
  lemma EmptiesStep(blocks: seq<Block>, len: nat)
    requires Tight(blocks) && |blocks| > 0 && len > 0
    ensures var size := blocks[0].writePos - blocks[0].readPos;
      if len < size then !Empties(blocks, len)
      else if len == size then Empties(blocks, len) <==> |blocks| == 1
      else Empties(blocks, len) <==> Empties(blocks[1..], len - size)
  {
    assert Contents(blocks) == blocks[0].Unread() + Contents(blocks[1..]);
    UnreadLength(blocks[0]);
    if |blocks| > 1 {
      assert blocks[1..][|blocks| - 2] == blocks[|blocks| - 1];
      hide Contents;
      RestHolds(blocks[1..]);
    } else {
      assert Contents(blocks[1..]) == [];
    }
  }

  lemma RestHolds(blocks: seq<Block>)
    requires |blocks| > 0 && blocks[|blocks| - 1].Ok()
    ensures !blocks[|blocks| - 1].Empty() ==> |Contents(blocks)| > 0
  {
    ContentsLast(blocks, blocks[|blocks| - 1]);
  }

  lemma LastRoomy(blocks: seq<Block>)
    requires |blocks| > 0 && !blocks[|blocks| - 1].Full()
    ensures Roomy(blocks)
  {
  }

  /** A chain whose first block is empty has no contents, and the other way round. */
  lemma FirstEmpty(blocks: seq<Block>)
    requires Tight(blocks) && |blocks| > 0
    ensures blocks[0].Ok() && (blocks[0].Empty() <==> Contents(blocks) == [])
    ensures blocks[0].writePos - blocks[0].readPos <= |Contents(blocks)|
  {
    ContentsEmpty(blocks);
    UnreadLength(blocks[0]);
  }

  lemma OnlyFull(blocks: seq<Block>)
    requires Tight(blocks) && |blocks| > 0 && Roomy(blocks)
    ensures |blocks| == 1 ==> !blocks[0].Full()
    ensures |blocks| > 1 ==> blocks[0].Full()
  {
  }

  /** The first unread bytes of a chain are in its first block. */
  lemma SpanFront(blocks: seq<Block>, n: nat)
    requires Tight(blocks) && |blocks| > 0 && n <= blocks[0].writePos - blocks[0].readPos
    ensures var b := blocks[0];
      b.readPos + n <= |b.data| && n <= |Contents(blocks)| && Contents(blocks)[..n] == b.data[b.readPos..b.readPos + n]
  {
    FirstOk(blocks);
    UnreadTake(blocks[0], n);
    hide Tight, Block.Unread;
    assert Contents(blocks) == blocks[0].Unread() + Contents(blocks[1..]);
    TakeFront(blocks[0].Unread(), Contents(blocks[1..]), n);
  }

  lemma UnreadTake(b: Block, n: nat)
    requires b.Ok() && n <= b.writePos - b.readPos
    ensures |b.Unread()| == b.writePos - b.readPos && b.Unread()[..n] == b.data[b.readPos..b.readPos + n]
  {
  }

  lemma UnreadFront(blocks: seq<Block>, n: nat)
    requires Tight(blocks) && |blocks| > 0 && n <= blocks[0].writePos - blocks[0].readPos
    ensures var b := blocks[0];
      b.readPos + n <= |b.data| && Contents(blocks) == b.data[b.readPos..b.readPos + n] + Contents(blocks)[n..]
  {
    SpanFront(blocks, n);
  }

  /** The first block has been read to its end and dropped. */
  lemma LastRead(blocks: seq<Block>, consumed: Bytes)
    requires ReadShape(blocks, consumed) && |blocks| > 0
    ensures var n := blocks[0].writePos - blocks[0].readPos;
      && 0 <= n <= |Contents(blocks)|
      && Contents(blocks[1..]) == Contents(blocks)[n..] && ReadShape(blocks[1..], consumed + Contents(blocks)[..n])
  {
    if |blocks| > 1 {
      UsedUpShape(blocks, consumed);
    } else {
      OnlyContents(blocks);
    }
  }

  lemma OnlyContents(blocks: seq<Block>)
    requires Tight(blocks) && |blocks| == 1
    ensures var n := blocks[0].writePos - blocks[0].readPos;
      0 <= n == |Contents(blocks)| && blocks[1..] == [] && Contents(blocks[1..]) == Contents(blocks)[n..] == []
  {
    FirstOk(blocks);
    UnreadLength(blocks[0]);
    assert blocks[1..] == [];
    assert Contents(blocks) == blocks[0].Unread() + Contents(blocks[1..]);
  }

  /** Storing bytes in the room of the last block changes nothing that is unread or can be backed over. */
  lemma RoomFilled(blocks: seq<Block>, consumed: Bytes, at: nat, src: Bytes)
    requires ReadShape(blocks, consumed) && |blocks| > 0
    requires blocks[|blocks| - 1].writePos <= at && at + |src| <= BLOCK_SIZE
    ensures var k := |blocks| - 1;
      && blocks[k].Ok()
      && var blocks' := blocks[k := Filled(blocks[k], at, src)];
         ReadShape(blocks', consumed) && Contents(blocks') == Contents(blocks)
  {
    var k := |blocks| - 1;
    hide Contents;
    LastOk(blocks);
    var b := Filled(blocks[k], at, src);
    FilledSame(blocks[k], at, src);
    ContentsLast(blocks, b);
  }

  lemma LastOk(blocks: seq<Block>)
    requires Tight(blocks) && |blocks| > 0
    ensures blocks[|blocks| - 1].Ok()
  {
  }

  lemma FilledSame(b: Block, at: nat, src: Bytes)
    requires b.Ok() && b.writePos <= at && at + |src| <= BLOCK_SIZE
    ensures var b' := Filled(b, at, src);
      && b'.Ok() && b'.Unread() == b.Unread() && b'.data[..b.readPos] == b.data[..b.readPos]
      && b'.data[at..at + |src|] == src && b'.data[..at] == b.data[..at]
  {
  }

  /** Taking the chain block by block: one more block adds its unread bytes. */
  lemma ContentsTake(blocks: seq<Block>, k: nat)
    requires k < |blocks|
    ensures Contents(blocks[..k + 1]) == Contents(blocks[..k]) + blocks[k].Unread()
  {
    ContentsSnoc(blocks[..k], blocks[k]);
    assert blocks[..k + 1] == blocks[..k] + [blocks[k]];
  }

  lemma {:induction false} ContentsPrefix(blocks: seq<Block>, k: nat)
    requires k <= |blocks|
    ensures Contents(blocks[..k]) <= Contents(blocks)
    decreases |blocks| - k
  {
    if k == |blocks| {
      assert blocks[..k] == blocks;
    } else {
      ContentsTake(blocks, k);
      ContentsPrefix(blocks, k + 1);
    }
  }

  // ---------------------------------------------------------------- where the bytes lie

  /** The write position of the last block. */
  ghost function LastAt(blocks: seq<Block>): nat {
    if blocks == [] then 0 else blocks[|blocks| - 1].writePos
  }

  lemma {:induction false} ChainSize(blocks: seq<Block>)
    requires Tight(blocks) && |blocks| > 0
    ensures |Contents(blocks)| ==
      if |blocks| == 1 then blocks[0].writePos - blocks[0].readPos
      else BLOCK_SIZE - blocks[0].readPos + BLOCK_SIZE * (|blocks| - 2) + LastAt(blocks)
  {
    hide Block.Unread;
    UnreadLength(blocks[0]);
    assert Contents(blocks) == blocks[0].Unread() + Contents(blocks[1..]);
    if |blocks| == 1 {
      assert blocks[1..] == [];
    } else {
      ChainSize(blocks[1..]);
    }
  }

  /** How many bytes a chain holds and where its last block is written to determine its first block's positions. */
  lemma FirstBlockAt(blocks: seq<Block>)
    requires Tight(blocks) && |blocks| > 0
    ensures var size, at := |Contents(blocks)|, LastAt(blocks);
      blocks[0].writePos - blocks[0].readPos == FirstSize(size, at) && blocks[0].readPos == HeadPos(size, at)
  {
    ChainSize(blocks);
    EndsOk(blocks);
    hide Contents, Tight, FirstSize, HeadPos;
    if |blocks| > 1 {
      FirstOfSeveral(BLOCK_SIZE - blocks[0].readPos, |blocks| - 2, LastAt(blocks));
    } else {
      FirstOfOne(blocks[0].writePos, blocks[0].readPos);
    }
  }

  lemma EndsOk(blocks: seq<Block>)
    requires Tight(blocks) && |blocks| > 0
    ensures blocks[0].readPos <= blocks[0].writePos
    ensures |blocks| > 1 ==> blocks[0].readPos < BLOCK_SIZE == blocks[0].writePos
  {
  }

  lemma EmptiesExactly(blocks: seq<Block>, len: nat)
    requires Tight(blocks) && |blocks| > 0 && len > 0
    ensures Empties(blocks, len) <==> LosesNode(|Contents(blocks)|, LastAt(blocks), len)
  {
    ChainSize(blocks);
    hide Contents;
  }

  /** The bytes of the first `spans` blocks. */
  lemma OfferedBlocks(blocks: seq<Block>, spans: nat)
    requires Tight(blocks) && |blocks| > 0 && spans > 0
    ensures |Contents(blocks[..Min(|blocks|, spans)])| == OfferedSize(|Contents(blocks)|, LastAt(blocks), spans)
  {
    FirstBlockAt(blocks);
    ChainSize(blocks);
    hide Contents;
    if |blocks| <= spans {
      assert blocks[..|blocks|] == blocks;
    } else {
      PrefixTight(blocks, spans);
      ChainSize(blocks[..spans]);
    }
  }

  lemma PrefixTight(blocks: seq<Block>, k: nat)
    requires Tight(blocks) && 0 < k < |blocks|
    ensures Tight(blocks[..k]) && LastAt(blocks[..k]) == BLOCK_SIZE && blocks[..k][0] == blocks[0] && blocks[0].writePos == BLOCK_SIZE
  {
  }

  /** Changing the first block's read position, or dropping the first of several, leaves the last write position. */
  lemma LastAtKept(blocks: seq<Block>, b: Block)
    requires |blocks| > 0
    ensures b.writePos == blocks[0].writePos ==> LastAt(blocks[0 := b]) == LastAt(blocks)
    ensures |blocks| > 1 ==> LastAt(blocks[1..]) == LastAt(blocks) && LastAt(blocks[0 := b]) == LastAt(blocks)
    ensures |blocks| > 1 ==> LastAt(blocks[0 := b][1..]) == LastAt(blocks)
  {
  }

  /** One round of sending `n` bytes: when nothing is left the chain starts over at position 0. */
  lemma SentAt(was: seq<Block>, n: nat, blocks: seq<Block>)
    requires Tight(was) && |was| > 0 && n <= was[0].writePos - was[0].readPos
    requires var b := was[0].(readPos := was[0].readPos + n);
      if !b.Empty() then blocks == was[0 := b] && Tight(blocks)
      else if |was| > 1 then blocks == was[1..]
      else |blocks| == 1 && Blank(blocks[0])
    ensures LastAt(blocks) == if Contents(blocks) == [] then 0 else LastAt(was)
  {
    var b := was[0].(readPos := was[0].readPos + n);
    if !b.Empty() {
      ContentsEmpty(blocks);
      FirstEmpty(blocks);
    } else if |was| > 1 {
      UsedUpTight(was);
      FirstEmpty(blocks);
      ContentsEmpty(blocks);
    } else {
      assert blocks[1..] == [];
    }
  }
}
