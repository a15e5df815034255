/**
 The queue of util/mpmc_queue.h run by one thread at a time: completed pushes and pops, with chunks
 retired, kept on the free list and used again. A compare-exchange then succeeds exactly when the
 expected value is current.
 */
module MpmcQueue {
  import opened Base

  datatype Node<T> = Node(occupied: bool, storage: Option<T>)

  /** The value of a chunk's fields. */
  datatype Cell<T> = Cell(nodes: seq<Node<T>>, pushIndex: nat, popIndex: nat, activeReaders: nat, retired: bool) {
    function Capped(): nat {
      if pushIndex < CHUNK_SIZE then pushIndex else CHUNK_SIZE
    }

    /** The occupied slots are exactly those from the pop index up to the capped push index. */
    ghost predicate Ok() {
      && |nodes| == CHUNK_SIZE && popIndex <= Capped() && activeReaders == 0 && !retired
      && forall j :: 0 <= j < CHUNK_SIZE ==>
           && (nodes[j].occupied <==> popIndex <= j < Capped())
           && (nodes[j].occupied ==> nodes[j].storage.Some?)
    }

    /** A chunk on the free list: whatever its indexes, its slots are empty. */
    ghost predicate Free() {
      |nodes| == CHUNK_SIZE && activeReaders == 0 && forall j :: 0 <= j < CHUNK_SIZE ==> !nodes[j].occupied
    }

    ghost function Values(): seq<T>
      requires Ok()
    {
      seq(Capped() - popIndex, j requires 0 <= j < Capped() - popIndex => nodes[popIndex + j].storage.value)
    }
  }

  // ---------------------------------------------------------------- the chain as a value

  ghost predicate CellsOk<T>(cells: seq<Cell<T>>) {
    forall i :: 0 <= i < |cells| ==> cells[i].Ok()
  }

  /** Chunks before the last are full, and chunks after the first untouched by pops. */
  ghost predicate Shape<T>(cells: seq<Cell<T>>) {
    && |cells| > 0 && CellsOk(cells)
    && (forall i :: 0 <= i < |cells| - 1 ==> cells[i].pushIndex >= CHUNK_SIZE)
    && (forall i :: 0 < i < |cells| ==> cells[i].popIndex == 0)
  }

  /** A chunk is only linked for a value that goes into it. */
  ghost predicate TailUsed<T>(cells: seq<Cell<T>>) {
    |cells| > 1 ==> cells[|cells| - 1].pushIndex > 0
  }

  ghost function Contents<T>(cells: seq<Cell<T>>): seq<T>
    requires CellsOk(cells)
  {
    if cells == [] then [] else cells[0].Values() + Contents(cells[1..])
  }

  lemma {:induction false} ContentsSnoc<T>(cells: seq<Cell<T>>, c: Cell<T>)
    requires CellsOk(cells) && c.Ok()
    ensures CellsOk(cells + [c]) && Contents(cells + [c]) == Contents(cells) + c.Values()
  {
    var all := cells + [c];
    if cells == [] {
      assert all[1..] == [];
    } else {
      ContentsSnoc(cells[1..], c);
      assert all[1..] == cells[1..] + [c];
    }
  }

  /** One live chunk when empty, and at most 2 + (length - 1) div 64 otherwise. */
  ghost predicate SpaceBound(chunks: nat, length: nat) {
    if length == 0 then chunks == 1 else chunks <= 2 + (length - 1) / CHUNK_SIZE
  }

  lemma {:induction false} ContentsLength<T>(cells: seq<Cell<T>>)
    requires CellsOk(cells) && |cells| > 0
    requires forall i :: 0 <= i < |cells| - 1 ==> cells[i].pushIndex >= CHUNK_SIZE
    requires forall i :: 0 < i < |cells| ==> cells[i].popIndex == 0
    ensures |Contents(cells)| == CHUNK_SIZE * (|cells| - 1) + cells[|cells| - 1].Capped() - cells[0].popIndex
  {
    if |cells| > 1 {
      ContentsLength(cells[1..]);
    } else {
      assert cells[1..] == [];
    }
  }

  lemma ShapeBounds<T>(cells: seq<Cell<T>>)
    requires Shape(cells) && TailUsed(cells)
    ensures SpaceBound(|cells|, |Contents(cells)|)
  {
    ContentsLength(cells);
    assert cells[0].Ok() && cells[|cells| - 1].Ok();
  }

  // ---------------------------------------------------------------- one push and one pop on values

  /** `c` with `x` constructed in the slot just claimed. */
  function Constructed<T>(c: Cell<T>, x: T): Cell<T>
    requires c.pushIndex < |c.nodes|
  {
    c.(nodes := c.nodes[c.pushIndex := Node(true, Some(x))], pushIndex := c.pushIndex + 1)
  }

  lemma ConstructedValues<T>(c: Cell<T>, x: T)
    requires c.Ok() && c.pushIndex < CHUNK_SIZE
    ensures Constructed(c, x).Ok() && Constructed(c, x).Values() == c.Values() + [x]
  {
    var d := Constructed(c, x);
    forall j | 0 <= j < CHUNK_SIZE
      ensures d.nodes[j].occupied <==> d.popIndex <= j < d.Capped()
      ensures d.nodes[j].occupied ==> d.nodes[j].storage.Some?
    {
      assert c.nodes[j].occupied <==> c.popIndex <= j < c.Capped();
    }
  }

  lemma ConstructedContents<T>(cells: seq<Cell<T>>, x: T)
    requires CellsOk(cells) && |cells| > 0 && cells[|cells| - 1].pushIndex < CHUNK_SIZE
    ensures var n := |cells| - 1;
      var cells' := cells[n := Constructed(cells[n], x)];
      CellsOk(cells') && Contents(cells') == Contents(cells) + [x]
  {
    var n := |cells| - 1;
    var c := Constructed(cells[n], x);
    ConstructedValues(cells[n], x);
    ContentsSnoc(cells[..n], cells[n]);
    ContentsSnoc(cells[..n], c);
    assert cells == cells[..n] + [cells[n]] && cells[n := c] == cells[..n] + [c];
  }

  /** `c` with the value of the slot at the pop index moved out and destroyed. */
  function Consumed<T>(c: Cell<T>): Cell<T>
    requires c.popIndex < |c.nodes|
  {
    c.(nodes := c.nodes[c.popIndex := c.nodes[c.popIndex].(occupied := false)], popIndex := c.popIndex + 1)
  }

  lemma ConsumedContents<T>(cells: seq<Cell<T>>)
    requires CellsOk(cells) && |cells| > 0 && cells[0].popIndex < cells[0].Capped()
    ensures var c := cells[0];
      var cells' := cells[0 := Consumed(c)];
      && CellsOk(cells') && c.nodes[c.popIndex].storage.Some?
      && Contents(cells) == [c.nodes[c.popIndex].storage.value] + Contents(cells')
  {
    var c, d := cells[0], Consumed(cells[0]);
    assert c.Ok() && d.Ok() by {
      forall j | 0 <= j < CHUNK_SIZE
        ensures d.nodes[j].occupied <==> d.popIndex <= j < d.Capped()
        ensures d.nodes[j].occupied ==> d.nodes[j].storage.Some?
      {
        assert c.nodes[j].occupied <==> c.popIndex <= j < c.Capped();
      }
    }
    assert c.Values() == [c.nodes[c.popIndex].storage.value] + d.Values();
    assert cells[0 := d][1..] == cells[1..];
  }

  // ---------------------------------------------------------------- chunks

  class Chunk<T> {
    const nodes: array<Node<T>>
    var next: Chunk?<T>
    var pushIndex: nat
    var popIndex: nat
    var activeReaders: nat
    var retired: bool

    constructor ()
      ensures fresh(nodes) && next == null
      ensures View() == Cell(seq(CHUNK_SIZE, i => Node(false, None)), 0, 0, 0, false)
    {
      nodes := new Node<T>[CHUNK_SIZE](i => Node(false, None));
      next, pushIndex, popIndex, activeReaders, retired := null, 0, 0, 0, false;
      new;
      assert nodes[..] == seq(CHUNK_SIZE, i => Node<T>.Node(false, None));
    }

    /** Lines 235-239. */
    method Reset()
      requires View().Free()
      modifies this
      ensures next == null && pushIndex == 0 && View().Ok()
    {
      pushIndex, popIndex, next, activeReaders, retired := 0, 0, null, 0, false;
    }

    ghost function View(): Cell<T>
      reads this, nodes
    {
      Cell(nodes[..], pushIndex, popIndex, activeReaders, retired)
    }
  }

  class MpmcQueue<T> {
    var headChunk: Chunk<T>
    var tailChunk: Chunk<T>
    var freeList: Chunk?<T>
    var chunkCount: nat

    ghost var live: seq<Chunk<T>>   // the chain from headChunk
    ghost var free: seq<Chunk<T>>   // the chain from freeList
    ghost var cells: seq<Cell<T>>   // the values of the live chunks
    ghost var peak: nat             // the largest number of live chunks so far
    ghost var Repr: set<object>

    /** Memory: the two chains, which share no chunk. */
    ghost predicate Linked()
      reads this, Repr
    {
      && this in Repr && |live| > 0
      && (forall i :: 0 <= i < |live| ==> live[i] in Repr && live[i].nodes in Repr)
      && (forall i :: 0 <= i < |free| ==> free[i] in Repr && free[i].nodes in Repr)
      && (forall i {:trigger live[i].next} :: 0 <= i < |live| ==> live[i].next == NextIn(live, i))
      && (forall i {:trigger free[i].next} :: 0 <= i < |free| ==> free[i].next == NextIn(free, i))
      && headChunk == live[0] && tailChunk == live[|live| - 1] && freeList == NextIn(free, -1)
      && Separate(live, free)
    }

    /** All of the invariant but the chunk counter. */
    ghost predicate Body()
      reads this, Repr
    {
      && Linked()
      && |cells| == |live| && (forall i :: 0 <= i < |live| ==> live[i].View() == cells[i])
      && (forall i :: 0 <= i < |free| ==> free[i].View().Free())
      && Shape(cells)
    }

    ghost predicate Valid()
      reads this, Repr
    {
      Body() && Counted() && TailUsed(cells)
    }

    /** Every chunk ever made is live or free, and there are as many as were ever live at once. */
    ghost predicate Counted()
      reads this
    {
      chunkCount == |live| + |free| == peak
    }

    /** A chunk that is in neither chain, in its initial state. */
    ghost predicate Unused(c: Chunk<T>)
      reads this, Repr, c, c.nodes
    {
      Apart(c) && c.next == null && c.View().Ok() && c.pushIndex == 0
    }

    ghost predicate Apart(c: Chunk<T>)
      reads this, Repr
    {
      && c in Repr && c.nodes in Repr
      && (forall i :: 0 <= i < |live| ==> live[i] != c && live[i].nodes != c.nodes)
      && (forall i :: 0 <= i < |free| ==> free[i] != c && free[i].nodes != c.nodes)
    }

    /** The values in the queue, oldest first. */
    ghost function Value(): seq<T>
      requires Body()
      reads this, Repr
    {
      Contents(cells)
    }

    constructor ()
      ensures Valid() && fresh(Repr) && Contents(cells) == [] && |live| == peak == 1
    {
      var c := new Chunk<T>();
      headChunk, tailChunk, freeList, chunkCount := c, c, null, 1;
      live, free, cells, peak := [c], [], [Cell(seq(CHUNK_SIZE, i => Node(false, None)), 0, 0, 0, false)], 1;
      Repr := {this, c, c.nodes};
    }

    /** Lines 229-241: the first free chunk, reset. */
    method TakeFree() returns (c: Chunk<T>)
      requires Body() && freeList != null
      modifies this`freeList, this`free, Repr
      ensures Body() && Repr == old(Repr) && Unused(c)
      ensures live == old(live) && cells == old(cells) && old(free) == [c] + free && chunkCount == old(chunkCount)
      ensures peak == old(peak)
    {
      c := freeList;
      assert c == free[0];
      hide Cell.Ok, Shape;
      freeList := c.next;
      free := free[1..];
      c.Reset();
    }

    /** Takes a chunk from the free list and resets it, or makes a new one. */
    method AllocateChunk() returns (c: Chunk<T>)
      requires Body() && Counted()
      modifies this, Repr
      ensures Body() && fresh(Repr - old(Repr)) && Unused(c)
      ensures live == old(live) && cells == old(cells) && peak == old(peak)
      ensures if old(free) == [] then free == [] && fresh(c) else old(free) == [c] + free
      ensures chunkCount == |live| + |free| + 1
    {
      hide Cell.Ok, Cell.Free, Shape;
      if freeList != null {
        c := TakeFree();
      } else {
        chunkCount := chunkCount + 1;
        c := new Chunk<T>();
        assert c.View().Ok() by { NewCellOk(c.View()); }
        Repr := Repr + {c, c.nodes};
      }
    }
  
    /** Lines 143-145. */
    method LinkPointers(c: Chunk<T>)
      requires Linked() && Apart(c) && c.next == null
      modifies this`tailChunk, this`live, tailChunk`next
      ensures Linked() && live == old(live) + [c]
      ensures forall i :: 0 <= i < |old(live)| ==> old(live)[i].View() == old(live[i].View())
      ensures forall i :: 0 <= i < |free| ==> free[i].View() == old(free[i].View())
      ensures c.View() == old(c.View())
    {
      hide Separate;
      SeparateSnoc(live, free, c);
      tailChunk.next := c;
      tailChunk := c;
      live := live + [c];
    }

    /** Lines 143-146: the new chunk becomes the last one. */
    method Link(c: Chunk<T>)
      requires Body() && Unused(c) && tailChunk.pushIndex >= CHUNK_SIZE
      modifies this, tailChunk
      ensures Body() && Repr == old(Repr) && live == old(live) + [c] && free == old(free) && chunkCount == old(chunkCount)
      ensures Contents(cells) == old(Contents(cells)) && tailChunk.pushIndex == 0 && peak == Max(old(peak), |live|)
    {
      hide Cell.Ok, CellsOk, Cell.Free, Contents, Separate;
      LinkPointers(c);
      LinkedShape(cells, c.View());
      cells := cells + [c.View()];
      peak := Max(peak, |live|);
    }

    /** Line 126 on a full chunk. */
    method Overflow()
      requires Body() && tailChunk.pushIndex >= CHUNK_SIZE
      modifies this`cells, tailChunk`pushIndex
      ensures Body() && Contents(cells) == old(Contents(cells)) && tailChunk.pushIndex >= CHUNK_SIZE
    {
      hide Cell.Ok, Shape, Cell.Free, Contents;
      tailChunk.pushIndex := tailChunk.pushIndex + 1;
      OverflowShape(cells);
      var n := |cells| - 1;
      cells := cells[n := cells[n].(pushIndex := cells[n].pushIndex + 1)];
    }

    /** Lines 126-135 when the chunk has room: claim the next slot and construct the value in it. */
    method Construct(value: T)
      requires Body() && tailChunk.pushIndex < CHUNK_SIZE
      modifies this`cells, tailChunk`pushIndex, tailChunk.nodes
      ensures Body() && Contents(cells) == old(Contents(cells)) + [value] && TailUsed(cells)
    {
      hide Cell.Ok, Shape, Cell.Free, Contents;
      var tail := tailChunk;
      var n := |cells| - 1;
      assert tail.View() == cells[n];
      ConstructedShape(cells, value);
      var index := tail.pushIndex;
      tail.pushIndex := index + 1;
      if !tail.nodes[index].occupied {
        tail.nodes[index] := Node(true, Some(value));
      } else {
        assert false;
      }
      assert tail.nodes[..] == old(tail.nodes[..])[index := Node(true, Some(value))];
      cells := cells[n := Constructed(cells[n], value)];
    }

    /**
     Appends the value, in a new or recycled chunk when the last one is full.
     */
    method Push(value: T) returns (ok: bool)
      requires Valid()
      modifies this, Repr
      ensures Valid() && fresh(Repr - old(Repr)) && ok
      ensures Contents(cells) == old(Contents(cells)) + [value]
      ensures peak == Max(old(peak), |live|)
    {
      hide Body, Linked, Shape, Cell.Ok, CellsOk, Cell.Free, Contents, Separate, TailUsed, Unused;
      TailIs();
      while true
        invariant Body() && CellsOk(cells) && Counted() && fresh(Repr - old(Repr))
        invariant tailChunk in Repr && tailChunk.nodes in Repr
        invariant tailChunk.pushIndex < CHUNK_SIZE || TailUsed(cells)
        invariant Contents(cells) == old(Contents(cells)) && peak == Max(old(peak), |live|)
        decreases if tailChunk.pushIndex < CHUNK_SIZE then 0 else 1
      {
        if tailChunk.pushIndex < CHUNK_SIZE {
          Construct(value);
          return true;
        }
        Overflow();
        TailIs();
        var c := AllocateChunk();
        TailIs();
        Link(c);
        TailIs();
      }
    }

    lemma TailIs()
      requires Body()
      ensures CellsOk(cells) && |cells| > 0 && |live| > 0 && tailChunk == live[|live| - 1]
      ensures tailChunk in Repr && tailChunk.nodes in Repr && tailChunk.pushIndex == cells[|cells| - 1].pushIndex
      ensures tailChunk.pushIndex >= CHUNK_SIZE ==> TailUsed(cells)
    {
      assert tailChunk.View() == cells[|cells| - 1];
    }
  
    /** Lines 255-261: the chunk becomes the first free one. */
    method ReleaseChunk(c: Chunk<T>)
      requires Body() && Apart(c) && c.View().Free()
      modifies this`freeList, this`free, c`next
      ensures Body() && free == [c] + old(free)
    {
      hide Cell.Ok, CellsOk, Cell.Free, Separate;
      SeparateCons(live, free, c);
      c.next := freeList;
      freeList := c;
      free := [c] + free;
    }

    /** Lines 272-284: only a retired chunk without readers is released. */
    method TryReleaseChunk(c: Chunk<T>)
      requires Body() && (c.retired && c.activeReaders == 0 ==> Apart(c) && c.View().Free())
      modifies this`freeList, this`free, c`next, c`retired
      ensures Body() && (c.retired <==> old(c.retired) && c.activeReaders != 0)
      ensures free == if old(c.retired) && c.activeReaders == 0 then [c] + old(free) else old(free)
      ensures !old(c.retired) || c.activeReaders != 0 ==> c.next == old(c.next) && freeList == old(freeList)
    {
      hide Cell.Ok, CellsOk, Separate;
      if c.activeReaders == 0 {
        if c.retired {
          c.retired := false;
          ReleaseChunk(c);
        }
      }
    }

    /** Lines 264-270. */
    method RetireChunk(c: Chunk<T>)
      requires Body() && Apart(c) && c.View().Free()
      modifies this`freeList, this`free, c`next, c`retired
      ensures Body() && free == [c] + old(free)
    {
      hide Cell.Ok, CellsOk, Separate;
      c.retired := true;
      TryReleaseChunk(c);
    }

    /** Lines 174-177: the head moves past a used-up chunk, which is retired and so released. */
    method Advance()
      requires Body() && Counted() && |live| > 1 && headChunk.popIndex == CHUNK_SIZE
      modifies this, headChunk
      ensures Body() && Counted() && Repr == old(Repr) && live == old(live)[1..] && cells == old(cells)[1..]
      ensures peak == old(peak) && free == [old(headChunk)] + old(free)
      ensures Contents(cells) == old(Contents(cells))
    {
      hide Cell.Ok, CellsOk, Cell.Free, Contents, Separate;
      SeparateTail(live, free);
      var head := headChunk;
      assert head.View() == cells[0];
      AdvancedShape(cells);
      headChunk := head.next;
      live := live[1..];
      cells := cells[1..];
      RetireChunk(head);
    }

    /** Lines 200-219: claim the slot at the pop index, move the value out and destroy it. */
    method Consume() returns (out: T)
      requires Body() && headChunk.popIndex < CHUNK_SIZE && headChunk.popIndex < headChunk.pushIndex
      modifies this`cells, this`freeList, this`free, headChunk, headChunk.nodes
      ensures Body() && freeList == old(freeList) && free == old(free)
      ensures old(Contents(cells)) == [out] + Contents(cells)
      ensures TailUsed(old(cells)) ==> TailUsed(cells)
    {
      hide Cell.Ok, CellsOk, Cell.Free, Contents, Separate, Shape;
      var head := headChunk;
      out := Extract();
      TryReleaseChunk(head);
    }

    method Extract() returns (out: T)
      requires Body() && headChunk.popIndex < CHUNK_SIZE && headChunk.popIndex < headChunk.pushIndex
      modifies this`cells, headChunk, headChunk.nodes
      ensures Body() && headChunk.activeReaders == 0 && !headChunk.retired && headChunk.next == old(headChunk.next)
      ensures old(Contents(cells)) == [out] + Contents(cells)
      ensures TailUsed(old(cells)) ==> TailUsed(cells)
    {
      hide Cell.Ok, CellsOk, Cell.Free, Contents, Separate;
      SeparateTail(live, free);
      var head := headChunk;
      assert head.View() == cells[0];
      ConsumedShape(cells);
      out := Claim(head);
      cells := cells[0 := Consumed(cells[0])];
    }

    method Claim(head: Chunk<T>) returns (out: T)
      requires head.View().Ok() && head.popIndex < head.View().Capped()
      modifies head, head.nodes
      ensures head.View() == old(Consumed(head.View())) && head.next == old(head.next)
      ensures Some(out) == old(head.nodes[head.popIndex].storage)
    {
      var index := head.popIndex;
      head.popIndex := index + 1;
      head.activeReaders := head.activeReaders + 1;
      out := head.nodes[index].storage.value;
      head.nodes[index] := head.nodes[index].(occupied := false);
      head.activeReaders := head.activeReaders - 1;
      assert head.nodes[..] == old(head.nodes[..])[index := old(head.nodes[index]).(occupied := false)];
    }

    /**
     Takes the first value, or fails when there is none. On the way, used-up chunks are retired.
     */
    method Pop() returns (out: Option<T>)
      requires Valid()
      modifies this, Repr
      ensures Valid() && Repr == old(Repr) && peak == old(peak)
      ensures out == None <==> old(Contents(cells)) == []
      ensures old(Contents(cells)) == (if out == None then [] else [out.value]) + Contents(cells)
    {
      hide Cell.Free, Contents, Separate;
      while true
        invariant Valid() && Repr == old(Repr) && peak == old(peak) && Contents(cells) == old(Contents(cells))
        decreases |live|
      {
        var index := headChunk.popIndex;
        var pushIndex := headChunk.pushIndex;
        assert headChunk.View() == cells[0] && cells[0].Ok();
        if index >= CHUNK_SIZE {
          if headChunk.next == null {
            EmptyContents(cells);
            return None;
          }
          Advance();
        } else if index >= pushIndex {
          if headChunk.next != null { assert false; }
          EmptyContents(cells);
          return None;
        } else {
          var x := Consume();
          return Some(x);
        }
      }
    }
  }

  // ---------------------------------------------------------------- whole runs

  datatype Op<T> = PushOp(value: T) | PopOp

  /** What a plain first-in-first-out sequence answers to the pops among `ops`. */
  function FifoAnswers<T>(s: seq<T>, ops: seq<Op<T>>): seq<Option<T>>
    decreases |ops|
  {
    if ops == [] then []
    else match ops[0]
      case PushOp(x) => FifoAnswers(s + [x], ops[1..])
      case PopOp => if s == [] then [None] + FifoAnswers(s, ops[1..]) else [Some(s[0])] + FifoAnswers(s[1..], ops[1..])
  }

  /** Main result. Any sequence of calls on a new queue is answered as by a plain sequence, recycling included. */
  method RunAll<T>(ops: seq<Op<T>>) returns (answers: seq<Option<T>>, queue: MpmcQueue<T>)
    ensures answers == FifoAnswers([], ops) && queue.Valid()
  {
    hide Contents, CellsOk, Shape, MpmcQueue.Linked;
    answers := [];
    queue := new MpmcQueue<T>();
    for i := 0 to |ops|
      invariant queue.Valid() && fresh(queue.Repr)
      invariant answers + FifoAnswers(queue.Value(), ops[i..]) == FifoAnswers([], ops)
    {
      assert ops[i..][1..] == ops[i + 1..];
      ghost var before := queue.Value();
      match ops[i]
      case PushOp(x) =>
        var ok := queue.Push(x);
      case PopOp =>
        var out := queue.Pop();
        answers := answers + [out];
        if out == None { assert queue.Value() == before; } else { assert queue.Value() == before[1..] && before[0] == out.value; }
    }
    assert ops[|ops|..] == [];
  }

  /** In every state between calls, the chunks in use are within the space bound and all chunks are accounted for. */
  lemma SpaceUsed<T>(queue: MpmcQueue<T>)
    requires queue.Valid()
    ensures SpaceBound(|queue.live|, |queue.Value()|)
    ensures queue.chunkCount == |queue.live| + |queue.free| == queue.peak
  {
    ShapeBounds(queue.cells);
  }

  /** In every state between calls, slot `j` of live chunk `i` is occupied exactly when it is between the two indexes. */
  lemma OccupiedSlots<T>(queue: MpmcQueue<T>, i: nat, j: nat)
    requires queue.Valid() && i < |queue.live| && j < CHUNK_SIZE
    ensures queue.live[i].nodes.Length == CHUNK_SIZE
    ensures var c := queue.live[i]; c.nodes[j].occupied <==> c.popIndex <= j < Min(c.pushIndex, CHUNK_SIZE)
  {
    var c := queue.live[i];
    assert c.View() == queue.cells[i] && queue.cells[i].Ok();
    assert c.nodes[..][j] == c.nodes[j];
  }

  lemma EmptyContents<T>(cells: seq<Cell<T>>)
    requires Shape(cells) && |cells| == 1 && cells[0].popIndex == cells[0].Capped()
    ensures Contents(cells) == []
  {
    ContentsLength(cells);
  }

  lemma SeparateCons<T>(live: seq<Chunk<T>>, free: seq<Chunk<T>>, c: Chunk<T>)
    requires Separate(live, free)
    requires forall i :: 0 <= i < |live| ==> live[i] != c && live[i].nodes != c.nodes
    requires forall i :: 0 <= i < |free| ==> free[i] != c && free[i].nodes != c.nodes
    ensures Separate(live, [c] + free)
  {
  }

  lemma SeparateTail<T>(live: seq<Chunk<T>>, free: seq<Chunk<T>>)
    requires Separate(live, free) && |live| > 0
    ensures Separate(live[1..], free)
    ensures forall i :: 1 <= i < |live| ==> live[i] != live[0] && live[i].nodes != live[0].nodes
    ensures forall i :: 0 <= i < |free| ==> free[i] != live[0] && free[i].nodes != live[0].nodes
  {
  }

  lemma AdvancedShape<T>(cells: seq<Cell<T>>)
    requires Shape(cells) && |cells| > 1 && cells[0].popIndex == CHUNK_SIZE
    ensures Shape(cells[1..]) && Contents(cells[1..]) == Contents(cells) && cells[0].Free()
    ensures cells[0].activeReaders == 0
  {
    assert cells[0].Ok();
    assert cells[0].Values() == [];
  }

  lemma ConsumedShape<T>(cells: seq<Cell<T>>)
    requires Shape(cells) && cells[0].popIndex < cells[0].Capped()
    ensures var c := cells[0];
      && c.Ok() && c.activeReaders == 0 && !c.retired && Shape(cells[0 := Consumed(c)])
      && Contents(cells) == [c.nodes[c.popIndex].storage.value] + Contents(cells[0 := Consumed(c)])
  {
    assert cells[0].Ok();
    ConsumedContents(cells);
  }

  lemma LinkedShape<T>(cells: seq<Cell<T>>, c: Cell<T>)
    requires Shape(cells) && cells[|cells| - 1].pushIndex >= CHUNK_SIZE && c.Ok() && c.pushIndex == 0
    ensures Shape(cells + [c]) && Contents(cells + [c]) == Contents(cells)
  {
    ContentsSnoc(cells, c);
  }

  lemma OverflowShape<T>(cells: seq<Cell<T>>)
    requires Shape(cells) && cells[|cells| - 1].pushIndex >= CHUNK_SIZE
    ensures var n := |cells| - 1;
      var cells' := cells[n := cells[n].(pushIndex := cells[n].pushIndex + 1)];
      Shape(cells') && Contents(cells') == Contents(cells)
  {
    var n := |cells| - 1;
    var c := cells[n].(pushIndex := cells[n].pushIndex + 1);
    OverflowValues(cells[n]);
    hide Cell.Ok, Cell.Values, Contents;
    LastContents(cells, c);
  }

  /** A last cell with the same values leaves the contents. */
  lemma LastContents<T>(cells: seq<Cell<T>>, c: Cell<T>)
    requires |cells| > 0 && CellsOk(cells) && c.Ok() && c.Values() == cells[|cells| - 1].Values()
    ensures CellsOk(cells[|cells| - 1 := c]) && Contents(cells[|cells| - 1 := c]) == Contents(cells)
  {
    hide Cell.Ok, Cell.Values, Contents;
    var n := |cells| - 1;
    ContentsSnoc(cells[..n], cells[n]);
    ContentsSnoc(cells[..n], c);
    assert cells == cells[..n] + [cells[n]] && cells[n := c] == cells[..n] + [c];
  }

  lemma OverflowValues<T>(c: Cell<T>)
    requires c.Ok() && c.pushIndex >= CHUNK_SIZE
    ensures var d := c.(pushIndex := c.pushIndex + 1); d.Ok() && d.Values() == c.Values()
  {
  }

  lemma SeparateSnoc<T>(live: seq<Chunk<T>>, free: seq<Chunk<T>>, c: Chunk<T>)
    requires Separate(live, free)
    requires forall i :: 0 <= i < |live| ==> live[i] != c && live[i].nodes != c.nodes
    requires forall i :: 0 <= i < |free| ==> free[i] != c && free[i].nodes != c.nodes
    ensures Separate(live + [c], free)
    ensures forall i :: 0 <= i < |live| - 1 ==> live[i] != live[|live| - 1]
    ensures |live| > 0 ==> forall i :: 0 <= i < |free| ==> free[i] != live[|live| - 1]
  {
  }

  lemma ConstructedShape<T>(cells: seq<Cell<T>>, x: T)
    requires Shape(cells) && cells[|cells| - 1].pushIndex < CHUNK_SIZE
    ensures var n := |cells| - 1;
      && |cells[n].nodes| == CHUNK_SIZE && !cells[n].nodes[cells[n].pushIndex].occupied
      && var cells' := cells[n := Constructed(cells[n], x)];
         Shape(cells') && Contents(cells') == Contents(cells) + [x]
  {
    assert cells[|cells| - 1].Ok();
    ConstructedContents(cells, x);
  }

  lemma NewCellOk<T>(c: Cell<T>)
    requires c == Cell(seq(CHUNK_SIZE, i => Node(false, None)), 0, 0, 0, false)
    ensures c.Ok()
  {
  }

  ghost function NextIn<T>(chunks: seq<Chunk<T>>, i: int): Chunk?<T>
    requires -1 <= i < |chunks|
  {
    if i + 1 < |chunks| then chunks[i + 1] else null
  }

  /** No chunk and no node array occurs twice. */
  ghost predicate Separate<T>(live: seq<Chunk<T>>, free: seq<Chunk<T>>) {
    && (forall i, j :: 0 <= i < j < |live| ==> live[i] != live[j] && live[i].nodes != live[j].nodes)
    && (forall i, j :: 0 <= i < j < |free| ==> free[i] != free[j] && free[i].nodes != free[j].nodes)
    && (forall i, j :: 0 <= i < |live| && 0 <= j < |free| ==> live[i] != free[j] && live[i].nodes != free[j].nodes)
  }
}
