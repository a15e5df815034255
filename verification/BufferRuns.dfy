/**
 Whole runs of a buffer, from construction, against a plain byte queue: as the read buffer of a connection, and
 as its write buffer. What every operation answers is a function of the queue and the block size.
 */
module BufferRuns {
  import opened Base
  import opened BufferBlocks
  import opened Geometry
  import opened BlockChains
  import opened ChainedBuffers

  // ---------------------------------------------------------------- the read side

  datatype ReadOp =
    | Receive(bytes: Bytes)   // a read system call delivers these, as far as there is room
    | Next
    | BackUp(n: nat)
    | PushLimit(limit: int)
    | PopLimit
    | Take(len: nat)          // the copying read

  datatype ReadOutcome = Accepted(n: nat) | Handed(bytes: Bytes) | NoSpan | BackedUp(n: nat) | LimitSet | Copied(bytes: Bytes)

  /** The bytes consumed and not backed up, and those after them. */
  datatype ReadQueue = ReadQueue(consumed: Bytes, unread: Bytes, limit: int, hasNode: bool)

  const ReadStart: ReadQueue := ReadQueue([], [], INT32_MAX, true)

  function RoomLeft(q: ReadQueue): nat {
    BLOCK_SIZE - (|q.consumed| + |q.unread|) % BLOCK_SIZE
  }

  /** A span ends with its block, with the bytes, or at the limit. */
  function NextSize(q: ReadQueue): int {
    Min(Min(|q.unread|, BLOCK_SIZE - |q.consumed| % BLOCK_SIZE), q.limit)
  }

  /** Backing up goes back to the start of the block; one that would overflow the limit is left out. */
  function BackUpSize(q: ReadQueue, n: nat): nat {
    var k := Min(n, |q.consumed| % BLOCK_SIZE);
    if q.limit == INT32_MAX || q.limit + k <= INT32_MAX then k else 0
  }

  /** The last node goes when a copying read takes the last byte of a block that is not full, or finds too few. */
  predicate TakesNode(q: ReadQueue, len: nat) {
    len > |q.unread| || (len == |q.unread| > 0 && (|q.consumed| + len) % BLOCK_SIZE != 0)
  }

  function Spend(limit: int, n: int): int {
    if limit == INT32_MAX then limit else limit - n
  }

  /** What an operation answers, and the queue after it. */
  function ReadAnswer(q: ReadQueue, op: ReadOp): (ReadQueue, ReadOutcome)
    requires q.limit >= 0
  {
    match op
    case Receive(bytes) =>
      var n := Min(|bytes|, RoomLeft(q));
      (q.(unread := q.unread + bytes[..n]), Accepted(n))
    case Next =>
      var k := NextSize(q);
      if k == 0 then (q, NoSpan)
      else (q.(consumed := q.consumed + q.unread[..k], unread := q.unread[k..], limit := Spend(q.limit, k)), Handed(q.unread[..k]))
    case BackUp(n) =>
      var k := BackUpSize(q, n);
      var rest := |q.consumed| - k;
      (q.(consumed := q.consumed[..rest], unread := q.consumed[rest..] + q.unread, limit := Spend(q.limit, 0 - k)), BackedUp(k))
    case PushLimit(limit) => (q.(limit := limit), LimitSet)
    case PopLimit => (q.(limit := INT32_MAX), LimitSet)
    case Take(len) =>
      var n := Min(len, |q.unread|);
      (q.(consumed := q.consumed + q.unread[..n], unread := q.unread[n..], hasNode := !TakesNode(q, len)), Copied(q.unread[..n]))
  }

  predicate OpsOk(ops: seq<ReadOp>) {
    forall i :: 0 <= i < |ops| && ops[i].PushLimit? ==> 0 <= ops[i].limit <= INT32_MAX
  }

  predicate LimitOk(q: ReadQueue) {
    0 <= q.limit <= INT32_MAX
  }

  lemma AnswerLimit(q: ReadQueue, op: ReadOp)
    requires LimitOk(q) && OpsOk([op])
    ensures LimitOk(ReadAnswer(q, op).0)
  {
    assert [op][0] == op;
  }

  /** The answers to a list of operations, up to the one that leaves no node. */
  function ReadAnswers(q: ReadQueue, ops: seq<ReadOp>): seq<ReadOutcome>
    requires LimitOk(q) && OpsOk(ops)
    decreases |ops|
  {
    if ops == [] || !q.hasNode then []
    else
      assert [ops[0]][0] == ops[0];
      AnswerLimit(q, ops[0]);
      var (q', out) := ReadAnswer(q, ops[0]);
      [out] + ReadAnswers(q', ops[1..])
  }

  function ReadResult(q: ReadQueue, ops: seq<ReadOp>): ReadQueue
    requires LimitOk(q) && OpsOk(ops)
    decreases |ops|
  {
    if ops == [] || !q.hasNode then q
    else
      assert [ops[0]][0] == ops[0];
      AnswerLimit(q, ops[0]);
      ReadResult(ReadAnswer(q, ops[0]).0, ops[1..])
  }

  /** The bytes received by the operations that were answered. */
  function ReceivedBytes(ops: seq<ReadOp>, outs: seq<ReadOutcome>): Bytes {
    if ops == [] || outs == [] then []
    else if ops[0].Receive? && outs[0].Accepted? && outs[0].n <= |ops[0].bytes|
      then ops[0].bytes[..outs[0].n] + ReceivedBytes(ops[1..], outs[1..])
    else ReceivedBytes(ops[1..], outs[1..])
  }

  /** The queue is first in, first out: what was consumed followed by what is unread is what was received. */
  lemma {:induction false} ReadsConserve(q: ReadQueue, ops: seq<ReadOp>)
    requires LimitOk(q) && OpsOk(ops)
    ensures var r := ReadResult(q, ops);
      r.consumed + r.unread == q.consumed + q.unread + ReceivedBytes(ops, ReadAnswers(q, ops))
    decreases |ops|
  {
    if ops != [] && q.hasNode {
      assert [ops[0]][0] == ops[0];
      AnswerLimit(q, ops[0]);
      var (q', out) := ReadAnswer(q, ops[0]);
      ReadsConserve(q', ops[1..]);
      AnswerConserves(q, ops[0]);
      assert ([out] + ReadAnswers(q', ops[1..]))[1..] == ReadAnswers(q', ops[1..]);
      if ops[0].Receive? {
        Assoc(q.consumed + q.unread, ops[0].bytes[..out.n], ReceivedBytes(ops[1..], ReadAnswers(q', ops[1..])));
      }
    }
  }

  lemma AnswerConserves(q: ReadQueue, op: ReadOp)
    requires LimitOk(q)
    ensures var (q', out) := ReadAnswer(q, op);
      q'.consumed + q'.unread == q.consumed + q.unread + if op.Receive? then op.bytes[..out.n] else []
  {
    match op
    case Receive(bytes) => Assoc(q.consumed, q.unread, bytes[..Min(|bytes|, RoomLeft(q))]);
    case Next => Regrouped(q.consumed, q.unread, NextSize(q));
    case BackUp(n) => Reshuffled(q.consumed, q.unread, BackUpSize(q, n));
    case Take(len) => Regrouped(q.consumed, q.unread, Min(len, |q.unread|));
    case _ => assert q.consumed + q.unread + [] == q.consumed + q.unread;
  }

  lemma Reshuffled(front: Bytes, rest: Bytes, k: nat)
    requires k <= |front|
    ensures front[..|front| - k] + (front[|front| - k..] + rest) == front + rest + []
  {
  }

  lemma Regrouped(front: Bytes, rest: Bytes, n: nat)
    requires n <= |rest|
    ensures front + rest[..n] + rest[n..] == front + rest + []
  {
  }

  /** The buffer holds what the queue says; its last block is written up to the number of bytes received. */
  ghost predicate ShowsRead(buf: ChainedBuffer, q: ReadQueue)
    reads buf, buf.Repr
  {
    && buf.ReadSide() && buf.consumed == q.consumed && buf.Unread() == q.unread && buf.limit == q.limit
    && (buf.chain != [] <==> q.hasNode)
    && (q.hasNode ==> buf.At() == (|q.consumed| + |q.unread|) % BLOCK_SIZE)
  }

  /** Main result: every operation on a buffer that is received into answers as the queue does. */
  method RunReads(ops: seq<ReadOp>) returns (buf: ChainedBuffer, outs: seq<ReadOutcome>)
    requires OpsOk(ops)
    ensures fresh(buf) && outs == ReadAnswers(ReadStart, ops) && ShowsRead(buf, ReadResult(ReadStart, ops))
    ensures buf.made == |buf.chain| + |buf.free| == buf.peak && Separate(buf.chain, buf.free)
  {
    hide ReadAnswer, ShowsRead, ReadAnswers, ReadResult, ChainedBuffer.Owned, ChainedBuffer.ReadSide, ReceivedBytes;
    buf := new ChainedBuffer();
    outs := [];
    ghost var q := ReadStart;
    ToShowsRead(buf, q);
    for i := 0 to |ops|
      invariant fresh(buf) && fresh(buf.Repr) && LimitOk(q) && ShowsRead(buf, q)
      invariant outs + ReadAnswers(q, ops[i..]) == ReadAnswers(ReadStart, ops)
      invariant ReadResult(q, ops[i..]) == ReadResult(ReadStart, ops)
    {
      AnswersNext(q, ops, i);
      var gone := NodeGone(buf, q);
      if gone {
        ReadsOver(q, ops[i..]);
        assert outs + [] == outs;
        OwnedNodes(buf, q);
        return;
      }
      ghost var rest := ReadAnswers(ReadAnswer(q, ops[i]).0, ops[i + 1..]);
      var out := ReadOne(buf, q, ops[i]);
      OneMore(outs, out, rest);
      outs := outs + [out];
      q := ReadAnswer(q, ops[i]).0;
    }
    ReadsOver(q, ops[|ops|..]);
    assert outs + [] == outs;
    OwnedNodes(buf, q);
  }

  lemma OneMore<T>(outs: seq<T>, out: T, rest: seq<T>)
    ensures outs + ([out] + rest) == outs + [out] + rest
  {
  }

  lemma AnswersNext(q: ReadQueue, ops: seq<ReadOp>, i: nat)
    requires LimitOk(q) && OpsOk(ops) && i < |ops|
    ensures OpsOk([ops[i]]) && LimitOk(ReadAnswer(q, ops[i]).0)
    ensures q.hasNode ==> ReadAnswers(q, ops[i..]) == [ReadAnswer(q, ops[i]).1] + ReadAnswers(ReadAnswer(q, ops[i]).0, ops[i + 1..])
    ensures q.hasNode ==> ReadResult(q, ops[i..]) == ReadResult(ReadAnswer(q, ops[i]).0, ops[i + 1..])
  {
    hide ReadAnswer;
    assert ops[i..][0] == ops[i] && ops[i..][1..] == ops[i + 1..];
    assert [ops[i]][0] == ops[i];
    AnswerLimit(q, ops[i]);
  }

  lemma ReadsOver(q: ReadQueue, ops: seq<ReadOp>)
    requires LimitOk(q) && OpsOk(ops) && (ops == [] || !q.hasNode)
    ensures ReadAnswers(q, ops) == [] && ReadResult(q, ops) == q
  {
  }

  lemma ToShowsRead(buf: ChainedBuffer, q: ReadQueue)
    requires buf.ReadSide() && buf.consumed == q.consumed && buf.Unread() == q.unread && buf.limit == q.limit
    requires buf.chain != [] <==> q.hasNode
    requires q.hasNode ==> buf.At() == (|q.consumed| + |q.unread|) % BLOCK_SIZE
    ensures ShowsRead(buf, q)
  {
  }

  lemma OwnedNodes(buf: ChainedBuffer, q: ReadQueue)
    requires ShowsRead(buf, q)
    ensures buf.made == |buf.chain| + |buf.free| == buf.peak && Separate(buf.chain, buf.free)
  {
    buf.FromReadSide();
    buf.FromValid();
    buf.NodesMade();
  }

  method NodeGone(buf: ChainedBuffer, ghost q: ReadQueue) returns (gone: bool)
    requires ShowsRead(buf, q)
    ensures gone <==> !q.hasNode
  {
    buf.HeadOrNone();
    gone := buf.head == null;
  }

  method ReadOne(buf: ChainedBuffer, ghost q: ReadQueue, op: ReadOp) returns (out: ReadOutcome)
    requires ShowsRead(buf, q) && q.hasNode && LimitOk(q) && OpsOk([op])
    modifies buf, buf.Repr
    ensures fresh(buf.Repr - old(buf.Repr))
    ensures ShowsRead(buf, ReadAnswer(q, op).0) && out == ReadAnswer(q, op).1
  {
    hide ChainedBuffer.Owned, ChainedBuffer.ReadSide, ChainedBuffer.Unread, LosesNode, FirstSize, HeadPos;
    ReadPositions(|q.consumed|, |q.unread|);
    match op {
      case Receive(bytes) =>
        var n := ReceiveSome(buf, bytes);
        ReceivedAt(|q.consumed|, |q.unread|, n);
        out := Accepted(n);
      case Next =>
        var span := buf.InputNext();
        out := if span.Some? then Handed(SpanBytes(span.value)) else NoSpan;
      case BackUp(n) =>
        var k := BackUpSome(buf, q, n);
        out := BackedUp(k);
      case PushLimit(limit) =>
        assert [op][0] == op;
        buf.PushLimit(limit);
        out := LimitSet;
      case PopLimit =>
        buf.PopLimit();
        out := LimitSet;
      case Take(len) =>
        var bytes := buf.Read(len);
        TakenNode(q, len);
        out := Copied(bytes);
    }
  }

  lemma ReceivedAt(consumed: nat, size: nat, n: nat)
    ensures AfterReceive((consumed + size) % BLOCK_SIZE, n) == (consumed + (size + n)) % BLOCK_SIZE
  {
  }

  lemma TakenNode(q: ReadQueue, len: nat)
    ensures TakesNode(q, len) <==> len > 0 && LosesNode(|q.unread|, (|q.consumed| + |q.unread|) % BLOCK_SIZE, len)
  {
  }

  method ReceiveSome(buf: ChainedBuffer, bytes: Bytes) returns (n: nat)
    requires buf.ReadSide() && buf.chain != []
    modifies buf, buf.Repr
    ensures buf.ReadSide() && buf.chain != [] && fresh(buf.Repr - old(buf.Repr))
    ensures n == Min(|bytes|, BLOCK_SIZE - old(buf.At())) && buf.At() == AfterReceive(old(buf.At()), n)
    ensures buf.Unread() == old(buf.Unread()) + bytes[..n] && buf.consumed == old(buf.consumed) && buf.limit == old(buf.limit)
  {
    hide ChainedBuffer.Owned, ChainedBuffer.ReadSide, ChainedBuffer.Room, Contents, ReadShape;
    buf.RoomSize();
    buf.FromReadSide();
    buf.GetOwned(|buf.chain| - 1);
    n := Min(|bytes|, BLOCK_SIZE - buf.tail.block.writePos);
    buf.FillRoom(0, bytes[..n]);
    buf.RoomSize();
    assert buf.Room()[0..0 + n] == buf.Room()[..n];
    buf.CommitResv(n);
    assert bytes[..0] == [] && old(buf.Unread()) + [] == old(buf.Unread());
  }

  method BackUpSome(buf: ChainedBuffer, ghost q: ReadQueue, n: nat) returns (k: nat)
    requires ShowsRead(buf, q) && q.hasNode && LimitOk(q)
    modifies buf, buf.Repr
    ensures buf.Repr == old(buf.Repr) && k == BackUpSize(q, n) && ShowsRead(buf, ReadAnswer(q, BackUp(n)).0)
  {
    hide ChainedBuffer.Owned, ChainedBuffer.Valid, ChainedBuffer.ReadSide, ChainedBuffer.Unread, HeadPos, ShowsRead;
    ShownHead(buf, q);
    k := Min(n, buf.head.block.readPos);
    if buf.limit == INT32_MAX || buf.limit + k <= INT32_MAX {
      buf.InputBackUp(n);
    } else {
      k := 0;
    }
    ToBackedUp(buf, q, n);
  }

  lemma ShownHead(buf: ChainedBuffer, q: ReadQueue)
    requires ShowsRead(buf, q) && q.hasNode
    ensures buf.ReadSide() && buf.chain != [] && buf.consumed == q.consumed && buf.Unread() == q.unread && buf.limit == q.limit
    ensures buf.At() == (|q.consumed| + |q.unread|) % BLOCK_SIZE
    ensures buf.head != null && buf.head.block.readPos == HeadPos(|buf.Unread()|, buf.At()) == |q.consumed| % BLOCK_SIZE
  {
    ReadPositions(|q.consumed|, |q.unread|);
    HeadAt(buf);
  }

  lemma ToBackedUp(buf: ChainedBuffer, q: ReadQueue, n: nat)
    requires LimitOk(q) && buf.ReadSide() && buf.chain != [] && q.hasNode && buf.At() == (|q.consumed| + |q.unread|) % BLOCK_SIZE
    requires var k := BackUpSize(q, n);
      && buf.Unread() == q.consumed[|q.consumed| - k..] + q.unread && buf.consumed == q.consumed[..|q.consumed| - k]
      && buf.limit == Spend(q.limit, 0 - k)
    ensures ShowsRead(buf, ReadAnswer(q, BackUp(n)).0)
  {
    hide ChainedBuffer.ReadSide, Contents;
  }

  lemma HeadAt(buf: ChainedBuffer)
    requires buf.ReadSide() && buf.chain != []
    ensures buf.head != null && buf.head.block.readPos == HeadPos(|buf.Unread()|, buf.At())
  {
    hide Contents;
    buf.FromReadSide();
    FirstBlockAt(buf.blocks);
    buf.FromValid();
    buf.GetHead();
  }

  // ---------------------------------------------------------------- the write side

  datatype WriteOp =
    | Write(data: Bytes)
    | Serialize(message: Bytes)   // output_next until the message fits, and output_back_up of the rest
    | Send(n: nat)                // a socket accepts up to n bytes of what one writev offers

  datatype WriteOutcome = Wrote | Serialized | Sent(bytes: Bytes)

  /** What is buffered, the write position of the last block, and whether no full block was overwritten yet. */
  datatype WriteQueue = WriteQueue(content: Bytes, at: nat, whole: bool)

  const WriteStart: WriteQueue := WriteQueue([], 0, true)

  /** What an operation answers, and the queue after it. */
  function WriteAnswer(q: WriteQueue, op: WriteOp): (WriteQueue, WriteOutcome) {
    match op
    case Write(data) => (q.(content := q.content + data, at := AfterWrite(q.at, |data|)), Wrote)
    case Serialize(message) =>
      if MessageFits(q.at, |message|) then (q.(content := q.content + message, at := q.at + |message|), Serialized)
      else (q.(whole := false), Serialized)
    case Send(n) =>
      var k := SendSize(q, n);
      (q.(content := q.content[k..], at := AfterSend(q.at, |q.content|, k)), Sent(q.content[..k]))
  }

  function SendSize(q: WriteQueue, n: nat): (k: nat)
    ensures k <= |q.content| && k <= n
  {
    Min(n, OfferedSize(|q.content|, q.at, IOV_MAX))
  }

  /** The answers to a list of operations, up to the one that overwrites a full block. */
  function WriteAnswers(q: WriteQueue, ops: seq<WriteOp>): seq<WriteOutcome>
    decreases |ops|
  {
    if ops == [] || !q.whole then []
    else [WriteAnswer(q, ops[0]).1] + WriteAnswers(WriteAnswer(q, ops[0]).0, ops[1..])
  }

  function WriteResult(q: WriteQueue, ops: seq<WriteOp>): WriteQueue
    decreases |ops|
  {
    if ops == [] || !q.whole then q else WriteResult(WriteAnswer(q, ops[0]).0, ops[1..])
  }

  function Appended(ops: seq<WriteOp>): Bytes {
    if ops == [] then []
    else (match ops[0] case Write(data) => data case Serialize(message) => message case Send(_) => []) + Appended(ops[1..])
  }

  function SentBytes(outs: seq<WriteOutcome>): Bytes {
    if outs == [] then [] else (if outs[0].Sent? then outs[0].bytes else []) + SentBytes(outs[1..])
  }

  /** As long as every message fits, what was sent followed by what is buffered is all that was appended, in order. */
  lemma {:induction false} WritesConserve(q: WriteQueue, ops: seq<WriteOp>)
    requires WriteResult(q, ops).whole
    ensures SentBytes(WriteAnswers(q, ops)) + WriteResult(q, ops).content == q.content + Appended(ops)
    decreases |ops|
  {
    if ops == [] {
      assert q.content + [] == [] + q.content;
    } else if !q.whole {
      assert false;
    } else {
      var (q', out) := WriteAnswer(q, ops[0]);
      WritesConserve(q', ops[1..]);
      hide SendSize, MessageFits, AfterWrite, AfterSend;
      var outs := WriteAnswers(q', ops[1..]);
      assert ([out] + outs)[1..] == outs;
      match ops[0] {
        case Write(data) => ConserveAppend(SentBytes(outs), WriteResult(q', ops[1..]).content, q.content, data, Appended(ops[1..]));
        case Serialize(message) =>
          if MessageFits(q.at, |message|) {
            ConserveAppend(SentBytes(outs), WriteResult(q', ops[1..]).content, q.content, message, Appended(ops[1..]));
          } else {
            assert false;
          }
        case Send(n) => ConserveSend(SentBytes(outs), WriteResult(q', ops[1..]).content, q.content, SendSize(q, n), Appended(ops[1..]));
      }
    }
  }

  lemma ConserveAppend(sent: Bytes, left: Bytes, content: Bytes, data: Bytes, rest: Bytes)
    requires sent + left == content + data + rest
    ensures [] + sent + left == content + (data + rest)
  {
    Assoc(content, data, rest);
    assert [] + sent == sent;
  }

  lemma ConserveSend(sent: Bytes, left: Bytes, content: Bytes, k: nat, rest: Bytes)
    requires k <= |content| && sent + left == content[k..] + rest
    ensures content[..k] + sent + left == content + ([] + rest)
  {
    Assoc(content[..k], sent, left);
    Assoc(content[..k], content[k..], rest);
    assert content[..k] + content[k..] == content && [] + rest == rest;
  }

  /** The buffer holds what the queue says; once a full block was overwritten it counts more than it holds. */
  ghost predicate ShowsWrite(buf: ChainedBuffer, q: WriteQueue)
    reads buf, buf.Repr
  {
    && buf.Owned() && buf.chain != []
    && (buf.Valid() <==> q.whole)
    && if q.whole then Tight(buf.blocks) && buf.Unread() == q.content && buf.At() == q.at <= BLOCK_SIZE
       else |buf.Unread()| < buf.totalSize
  }

  /** Main result: every operation on a buffer that is written to answers as the queue does. */
  method RunWrites(ops: seq<WriteOp>) returns (buf: ChainedBuffer, outs: seq<WriteOutcome>)
    ensures fresh(buf) && outs == WriteAnswers(WriteStart, ops) && ShowsWrite(buf, WriteResult(WriteStart, ops))
    ensures buf.made == |buf.chain| + |buf.free| == buf.peak && Separate(buf.chain, buf.free)
  {
    hide WriteAnswer, ShowsWrite, WriteAnswers, WriteResult, ChainedBuffer.Owned, ChainedBuffer.ReadSide;
    buf := new ChainedBuffer();
    outs := [];
    ghost var q := WriteStart;
    var whole := true;
    ToShowsWrite(buf, q);
    for i := 0 to |ops|
      invariant fresh(buf) && fresh(buf.Repr) && ShowsWrite(buf, q) && whole == q.whole
      invariant outs + WriteAnswers(q, ops[i..]) == WriteAnswers(WriteStart, ops)
      invariant WriteResult(q, ops[i..]) == WriteResult(WriteStart, ops)
    {
      WriteNext(q, ops, i);
      if !whole {
        assert outs + [] == outs;
        WrittenNodes(buf, q);
        return;
      }
      var out;
      out, whole := WriteOne(buf, q, ops[i]);
      OneMore(outs, out, WriteAnswers(WriteAnswer(q, ops[i]).0, ops[i + 1..]));
      outs := outs + [out];
      q := WriteAnswer(q, ops[i]).0;
    }
    WritesOver(q, ops[|ops|..]);
    assert outs + [] == outs;
    WrittenNodes(buf, q);
  }

  lemma WriteNext(q: WriteQueue, ops: seq<WriteOp>, i: nat)
    requires i < |ops|
    ensures !q.whole ==> WriteAnswers(q, ops[i..]) == [] && WriteResult(q, ops[i..]) == q
    ensures q.whole ==> WriteAnswers(q, ops[i..]) == [WriteAnswer(q, ops[i]).1] + WriteAnswers(WriteAnswer(q, ops[i]).0, ops[i + 1..])
    ensures q.whole ==> WriteResult(q, ops[i..]) == WriteResult(WriteAnswer(q, ops[i]).0, ops[i + 1..])
  {
    hide WriteAnswer;
    assert ops[i..][0] == ops[i] && ops[i..][1..] == ops[i + 1..];
  }

  lemma WritesOver(q: WriteQueue, ops: seq<WriteOp>)
    requires ops == []
    ensures WriteAnswers(q, ops) == [] && WriteResult(q, ops) == q
  {
  }

  lemma ToShowsWrite(buf: ChainedBuffer, q: WriteQueue)
    requires buf.Valid() && buf.chain != [] && q.whole && Tight(buf.blocks) && buf.Unread() == q.content && buf.At() == q.at <= BLOCK_SIZE
    ensures ShowsWrite(buf, q)
  {
    hide Contents, Tight;
  }

  lemma WrittenNodes(buf: ChainedBuffer, q: WriteQueue)
    requires ShowsWrite(buf, q)
    ensures buf.made == |buf.chain| + |buf.free| == buf.peak && Separate(buf.chain, buf.free)
  {
    buf.NodesMade();
  }

  method WriteOne(buf: ChainedBuffer, ghost q: WriteQueue, op: WriteOp) returns (out: WriteOutcome, whole: bool)
    requires ShowsWrite(buf, q) && q.whole
    modifies buf, buf.Repr
    ensures fresh(buf.Repr - old(buf.Repr)) && ShowsWrite(buf, WriteAnswer(q, op).0) && out == WriteAnswer(q, op).1
    ensures whole == WriteAnswer(q, op).0.whole
  {
    hide ChainedBuffer.Owned, Contents, Tight, ChainedBuffer.Valid, OfferedSize, AfterWrite, AfterSend;
    whole := true;
    buf.GetOwned(|buf.chain| - 1);
    match op {
      case Write(data) =>
        var n := buf.Write(data);
        buf.FromValid();
        out := Wrote;
      case Serialize(message) =>
        whole := |message| <= BLOCK_SIZE - buf.tail.block.writePos;
        buf.WriteMessage(message);
        out := Serialized;
      case Send(n) =>
        var bytes := SendUpTo(buf, n);
        buf.FromValid();
        out := Sent(bytes);
    }
  }

  /** A writev of the gathered spans that accepts up to `n` bytes, and the commit. */
  method SendUpTo(buf: ChainedBuffer, n: nat) returns (bytes: Bytes)
    requires buf.Valid() && Tight(buf.blocks) && buf.chain != [] && buf.At() <= BLOCK_SIZE
    modifies buf, buf.Repr
    ensures buf.Valid() && Tight(buf.blocks) && buf.chain != [] && fresh(buf.Repr - old(buf.Repr))
    ensures var k := Min(n, OfferedSize(|old(buf.Unread())|, old(buf.At()), IOV_MAX));
      && k <= |old(buf.Unread())| && bytes == old(buf.Unread())[..k] && buf.Unread() == old(buf.Unread())[k..]
      && buf.At() == AfterSend(old(buf.At()), |old(buf.Unread())|, k) <= BLOCK_SIZE
  {
    hide ChainedBuffer.Owned, Contents, Tight, OfferedSize, Gather;
    buf.FromValid();
    buf.GetBlocks();
    OfferedBlocks(buf.blocks, IOV_MAX);
    var iovs := buf.GetIovecs();
    bytes := Gather(iovs);
    ghost var all := buf.Unread();
    PrefixTake(bytes, all, Min(n, |bytes|));
    bytes := bytes[..Min(n, |bytes|)];
    buf.GetBlocks();
    buf.CommitSend(|bytes|);
  }

  lemma PrefixTake(part: Bytes, whole: Bytes, n: nat)
    requires part <= whole && n <= |part|
    ensures part[..n] == whole[..n] && |part| <= |whole|
  {
  }
}
