/**
 Reading and writing on a non-blocking socket: net/connection.cpp over the chained buffers, with the
 answers of the system calls as parameters.
 */
module Connections {
  import opened Base
  import opened BufferBlocks
  import opened BlockChains
  import opened ChainedBuffers

  /** What a `writev` call answers: it accepted some bytes, or errno is EAGAIN, EINTR or another error. */
  datatype WriteAnswer = Accepted(n: nat) | WriteAgain | WriteInterrupted | WriteFailed

  /** What a `read` call answers; at the end of the stream it answers 0 bytes. */
  datatype ReadAnswer = Data(bytes: Bytes) | Eof | ReadAgain | ReadInterrupted | ReadFailed

  // ---------------------------------------------------------------- one call of async_write on values

  /** The counts of the `writev` calls that one `async_write` makes, `need` bytes being left to write. */
  function Counts(answers: seq<WriteAnswer>, need: int): seq<nat> {
    if need <= 0 || answers == [] then []
    else match answers[0]
      case Accepted(n) => [n] + Counts(answers[1..], need - n)
      case WriteInterrupted => Counts(answers[1..], need)
      case _ => []
  }

  function Sum(counts: seq<nat>): nat {
    if counts == [] then 0 else counts[0] + Sum(counts[1..])
  }

  /** What the socket has accepted: every call was offered the same bytes, from the first one on. */
  function SentBytes(offered: Bytes, counts: seq<nat>): Bytes {
    if counts == [] then []
    else offered[..Min(counts[0], |offered|)] + SentBytes(offered, counts[1..])
  }

  function Positive(counts: seq<nat>): nat {
    if counts == [] then 0 else (if counts[0] > 0 then 1 else 0) + Positive(counts[1..])
  }

  /** At most one of the calls accepted any byte. */
  predicate AtMostOne(counts: seq<nat>) {
    Positive(counts) <= 1
  }

  lemma {:induction false} NonePositive(offered: Bytes, counts: seq<nat>)
    requires Positive(counts) == 0
    ensures Sum(counts) == 0 && SentBytes(offered, counts) == []
  {
    if counts != [] { NonePositive(offered, counts[1..]); }
  }

  /** With at most one accepting call, what was accepted is what will be dropped. */
  lemma {:induction false} OneIsConserved(offered: Bytes, counts: seq<nat>)
    requires AtMostOne(counts) && Sum(counts) <= |offered|
    ensures SentBytes(offered, counts) == offered[..Sum(counts)]
  {
    if counts != [] {
      if counts[0] > 0 {
        NonePositive(offered, counts[1..]);
      } else {
        OneIsConserved(offered, counts[1..]);
        assert offered[..0] == [];
      }
    } else {
      assert offered[..0] == [];
    }
  }

  /** Accepted and still buffered bytes make up the buffered ones of before. */
  ghost predicate Conserved(content: Bytes, counts: seq<nat>) {
    Sum(counts) <= |content| && SentBytes(content, counts) + content[Sum(counts)..] == content
  }

  /** Some later call took the first byte again, when `k` bytes had been taken. */
  ghost predicate FirstAgain(counts: seq<nat>, k: nat) {
    k < Sum(counts) && forall c: Bytes :: |c| > 0 && |c| >= Sum(counts) ==> |SentBytes(c, counts)| > k && SentBytes(c, counts)[k] == c[0]
  }

  lemma {:induction false} FirstTaken(counts: seq<nat>)
    requires Positive(counts) >= 1
    ensures FirstAgain(counts, 0)
  {
    if counts[0] == 0 { FirstTaken(counts[1..]); }
  }

  lemma {:induction false} SecondTaken(counts: seq<nat>)
    requires Positive(counts) >= 2
    ensures exists k :: 0 < k && FirstAgain(counts, k)
  {
    if counts[0] == 0 {
      SecondTaken(counts[1..]);
      var k :| 0 < k && FirstAgain(counts[1..], k);
      assert FirstAgain(counts, k);
    } else {
      FirstTaken(counts[1..]);
      assert FirstAgain(counts, counts[0]);
    }
  }

  /**
   Main result: calls of `writev` between two commits keep the outgoing stream free of gaps and repeats, whatever
   the buffered bytes are, exactly when at most one of them accepts bytes.
   */
  lemma ConservedExactlyWhen(counts: seq<nat>, length: nat)
    requires Sum(counts) <= length
    ensures (forall content: Bytes :: |content| == length ==> Conserved(content, counts)) <==> AtMostOne(counts)
  {
    if AtMostOne(counts) {
      forall content: Bytes | |content| == length ensures Conserved(content, counts) {
        OneIsConserved(content, counts);
      }
    } else {
      assert !Conserved(Marked(length), counts) by { MarkedTwice(counts, length); }
    }
  }

  /** Bytes whose first one is unlike the others. */
  function Marked(length: nat): (r: Bytes)
    ensures |r| == length && forall i :: 0 <= i < length ==> r[i] == if i == 0 then 1 else 0
  {
    seq(length, i => if i == 0 then 1 else 0)
  }

  lemma MarkedTwice(counts: seq<nat>, length: nat)
    requires Sum(counts) <= length && Positive(counts) >= 2
    ensures !Conserved(Marked(length), counts)
  {
    hide SentBytes;
    SecondTaken(counts);
    var k :| 0 < k && FirstAgain(counts, k);
    var content := Marked(length);
    var sent := SentBytes(content, counts);
    assert |sent| > k && sent[k] == content[0];
    assert (sent + content[Sum(counts)..])[k] == content[0];
    assert content[k] != content[0];
  }

  /** The answers after which the write loop goes on: accepted bytes, and interruptions. */
  predicate WritesOn(answers: seq<WriteAnswer>) {
    forall i :: 0 <= i < |answers| ==> answers[i].Accepted? || answers[i].WriteInterrupted?
  }

  function CountsOf(answers: seq<WriteAnswer>): seq<nat> {
    if answers == [] then []
    else (if answers[0].Accepted? then [answers[0].n] else []) + CountsOf(answers[1..])
  }

  lemma CountsStep(answers: seq<WriteAnswer>)
    requires answers != []
    ensures var rest := CountsOf(answers[1..]);
      CountsOf(answers) == if answers[0].Accepted? then [answers[0].n] + rest else rest
    ensures Sum(CountsOf(answers)) == (if answers[0].Accepted? then answers[0].n else 0) + Sum(CountsOf(answers[1..]))
  {
    if answers[0].Accepted? {
      assert CountsOf(answers)[1..] == CountsOf(answers[1..]);
    }
  }

  /**
   Main result for writing, on the answers alone: EAGAIN and errors end the loop with what was accepted before them, as
   long as something was left to write.
   */
  lemma {:induction false} FirstRefusalEnds(pre: seq<WriteAnswer>, a: WriteAnswer, post: seq<WriteAnswer>, need: int)
    requires WritesOn(pre) && (a.WriteAgain? || a.WriteFailed?) && Sum(CountsOf(pre)) < need
    ensures Counts(pre + [a] + post, need) == CountsOf(pre)
    decreases |pre|
  {
    var answers := pre + [a] + post;
    if pre == [] {
      assert answers[0] == a;
    } else {
      assert answers[0] == pre[0] && answers[1..] == pre[1..] + [a] + post;
      CountsStep(pre);
      FirstRefusalEnds(pre[1..], a, post, if pre[0].Accepted? then need - pre[0].n else need);
    }
  }

  /** The loop ends when as much was accepted as there was to write. */
  lemma {:induction false} EnoughEnds(pre: seq<WriteAnswer>, post: seq<WriteAnswer>, need: int)
    requires WritesOn(pre) && need > 0 && pre != [] && pre[|pre| - 1].Accepted? && Sum(CountsOf(pre)) >= need
    requires Sum(CountsOf(pre[..|pre| - 1])) < need
    ensures Counts(pre + post, need) == CountsOf(pre)
    decreases |pre|
  {
    var answers := pre + post;
    assert answers[0] == pre[0] && answers[1..] == pre[1..] + post;
    CountsStep(pre);
    if |pre| == 1 {
      assert CountsOf(pre[1..]) == [];
    } else {
      var short := pre[..|pre| - 1];
      CountsStep(short);
      assert short[0] == pre[0] && short[1..] == pre[1..][..|pre| - 2];
      EnoughEnds(pre[1..], post, if pre[0].Accepted? then need - pre[0].n else need);
    }
  }

  // ---------------------------------------------------------------- one call of async_read on values

  /** How the loop at lines 11-43 ends. */
  datatype Ending = RoomUsed | SawAgain | SawEof | SawFailure

  /** The bytes that one `async_read` receives into `room` free bytes. */
  function Received(answers: seq<ReadAnswer>, room: int): Bytes {
    if room <= 0 || answers == [] then []
    else match answers[0]
      case Data(bytes) => bytes + Received(answers[1..], room - |bytes|)
      case ReadInterrupted => Received(answers[1..], room)
      case _ => []
  }

  function ReadEnding(answers: seq<ReadAnswer>, room: int): Ending {
    if room <= 0 || answers == [] then RoomUsed
    else match answers[0]
      case Data(bytes) => ReadEnding(answers[1..], room - |bytes|)
      case ReadInterrupted => ReadEnding(answers[1..], room)
      case Eof => SawEof
      case ReadAgain => SawAgain
      case ReadFailed => SawFailure
  }

  /** The answers after which the loop goes on: data, and interruptions. */
  predicate GoesOn(answers: seq<ReadAnswer>) {
    forall i :: 0 <= i < |answers| ==> answers[i].Data? || answers[i].ReadInterrupted?
  }

  function DataOf(answers: seq<ReadAnswer>): Bytes {
    if answers == [] then []
    else (if answers[0].Data? then answers[0].bytes else []) + DataOf(answers[1..])
  }

  /**
   Main result for reading, on the answers alone. The first answer that is neither data nor an interruption decides, if
   the data before it leave room: the end of the stream and an error close the connection, EAGAIN suspends if there
   were no data, and what is received are the data before it, in order.
   */
  lemma {:induction false} FirstOtherAnswerDecides(pre: seq<ReadAnswer>, a: ReadAnswer, post: seq<ReadAnswer>, room: int)
    requires GoesOn(pre) && !a.Data? && !a.ReadInterrupted? && |DataOf(pre)| < room
    ensures var answers := pre + [a] + post;
      && Received(answers, room) == DataOf(pre)
      && (ReadEnding(answers, room) in {SawEof, SawFailure} <==> a.Eof? || a.ReadFailed?)
      && (ReadEnding(answers, room) == SawAgain <==> a.ReadAgain?)
    decreases |pre|
  {
    var answers := pre + [a] + post;
    if pre == [] {
      assert answers[0] == a;
    } else {
      var rest := pre[1..] + [a] + post;
      assert answers[0] == pre[0] && answers[1..] == rest;
      FirstOtherAnswerDecides(pre[1..], a, post, if pre[0].Data? then room - |pre[0].bytes| else room);
    }
  }

  /** Data that use up the room end the loop: it neither closes nor suspends. */
  lemma {:induction false} DataFillTheRoom(pre: seq<ReadAnswer>, post: seq<ReadAnswer>, room: int)
    requires GoesOn(pre) && room > 0 && |DataOf(pre)| == room
    requires pre[|pre| - 1].Data? && pre[|pre| - 1].bytes != []
    ensures var answers := pre + post;
      Received(answers, room) == DataOf(pre) != [] && ReadEnding(answers, room) == RoomUsed
    decreases |pre|
  {
    var answers := pre + post;
    assert answers[0] == pre[0] && answers[1..] == pre[1..] + post;
    if |pre| == 1 {
      assert DataOf(pre[1..]) == [];
    } else {
      LastData(pre[1..]);
      DataFillTheRoom(pre[1..], post, if pre[0].Data? then room - |pre[0].bytes| else room);
    }
  }

  lemma {:induction false} LastData(pre: seq<ReadAnswer>)
    requires pre != [] && pre[|pre| - 1].Data? && pre[|pre| - 1].bytes != []
    ensures |DataOf(pre)| > 0
    decreases |pre|
  {
    if |pre| > 1 { LastData(pre[1..]); }
  }

  /** There is an answer to every call of `read`, and none delivers more bytes than it was asked for, or none at all. */
  predicate ReadAnswers(answers: seq<ReadAnswer>, room: int) {
    room <= 0 ||
    (answers != [] && match answers[0]
      case Data(bytes) => 0 < |bytes| <= room && ReadAnswers(answers[1..], room - |bytes|)
      case ReadInterrupted => ReadAnswers(answers[1..], room)
      case _ => true)
  }

  /** There is an answer to every call of `writev`, and none accepts more than the `offered` bytes. */
  predicate WriteAnswers(answers: seq<WriteAnswer>, offered: nat, need: int) {
    need <= 0 ||
    (answers != [] && match answers[0]
      case Accepted(n) => n <= offered && WriteAnswers(answers[1..], offered, need - n)
      case WriteInterrupted => WriteAnswers(answers[1..], offered, need)
      case _ => true)
  }

  /** A second call may accept all of the offered bytes again, and then more is committed than is buffered. */
  lemma SecondCallOverruns(need: nat)
    requires need >= 2
    ensures var answers := [Accepted(1), Accepted(need)];
      WriteAnswers(answers, need, need) && Sum(Counts(answers, need)) == need + 1
  {
    var answers := [Accepted(1), Accepted(need)];
    assert answers[1..] == [Accepted(need)] && answers[1..][1..] == [];
    assert Counts(answers[1..], need - 1) == [need];
    assert Counts(answers, need) == [1, need];
    assert Sum([need]) == need && [1, need][1..] == [need];
  }

  class Connection {
    const readBuf: ChainedBuffer
    const writeBuf: ChainedBuffer
    var closed: bool
    ghost var accepted: Bytes   // what the socket has accepted so far

    constructor ()
      ensures Valid() && !closed && accepted == []
      ensures readBuf.Unread() == [] && writeBuf.Unread() == []
      ensures fresh(readBuf.Repr + writeBuf.Repr)
    {
      readBuf := new ChainedBuffer();
      writeBuf := new ChainedBuffer();
      closed, accepted := false, [];
    }

    ghost predicate Valid()
      reads this, readBuf, writeBuf, readBuf.Repr, writeBuf.Repr
    {
      && readBuf.ReadSide() && readBuf.chain != []
      && writeBuf.Valid() && Tight(writeBuf.blocks) && writeBuf.chain != []
      && readBuf in readBuf.Repr && writeBuf in writeBuf.Repr && this !in readBuf.Repr && this !in writeBuf.Repr && readBuf.Repr !! writeBuf.Repr
    }

    /**
     Sends what is buffered. Between two calls of `writev` nothing is committed, so each is offered the same
     bytes; the socket may not accept more in all than there is, because `commit_send` is not defined there.
     */
    method AsyncWrite(answers: seq<WriteAnswer>) returns (shouldSuspend: bool)
      requires Valid() && WriteAnswers(answers, Offered(), writeBuf.totalSize)
      requires Sum(Counts(answers, writeBuf.totalSize)) <= writeBuf.totalSize
      modifies this, writeBuf, writeBuf.Repr
      ensures Valid() && closed == old(closed)
      ensures var counts := Counts(answers, old(writeBuf.totalSize));
        && accepted == old(accepted) + SentBytes(old(writeBuf.Unread()), counts)
        && writeBuf.Unread() == old(writeBuf.Unread())[Sum(counts)..]
        && (shouldSuspend <==> !closed && writeBuf.Unread() != [])
        && (AtMostOne(counts) ==> accepted + writeBuf.Unread() == old(accepted + writeBuf.Unread()))
    {
      hide SentBytes, Counts, Sum, WriteAnswers, AtMostOne, ChainedBuffer.ReadSide, ChainedBuffer.Owned, Contents, Tight;
      var needWrite := writeBuf.totalSize;
      ghost var counts := Counts(answers, needWrite);
      var written := WriteLoop(answers, needWrite);
      writeBuf.CommitSend(written);
      writeBuf.GetOwned(0);
      shouldSuspend := !closed && written < needWrite;
      Committed(old(accepted), old(writeBuf.Unread()), counts);
    }

    /** Lines 53-76. */
    method WriteLoop(answers: seq<WriteAnswer>, needWrite: nat) returns (written: int)
      requires writeBuf.Owned() && writeBuf.chain != [] && this !in writeBuf.Repr
      requires WriteAnswers(answers, Offered(), needWrite)
      modifies this`accepted
      ensures var counts := Counts(answers, needWrite);
        written == Sum(counts) && accepted == old(accepted) + SentBytes(writeBuf.Unread(), counts)
    {
      hide ChainedBuffer.Owned, Contents, Underway, Gather;
      writeBuf.GetOwned(0);
      written := 0;
      var rest := answers;
      ghost var content, counts, before := writeBuf.Unread(), Counts(answers, needWrite), accepted;
      ContentsPrefix(writeBuf.blocks, Min(|writeBuf.blocks|, IOV_MAX));
      assert Offered() <= |content| by { LongerWhole(Contents(writeBuf.blocks[..Min(|writeBuf.blocks|, IOV_MAX)]), content); }
      UnderwayFirst(answers, Offered(), needWrite, content, before);
      while written < needWrite
        invariant writeBuf.Owned() && this !in writeBuf.Repr && |writeBuf.blocks| == |writeBuf.chain|
        invariant Underway(rest, Offered(), needWrite - written, content, written, accepted, counts, before)
        decreases |rest|
      {
        UnderwayNext(rest, Offered(), needWrite - written, content, written, accepted, counts, before);
        var iovs := writeBuf.GetIovecs();
        var answer := rest[0];
        rest := rest[1..];
        match answer {
          case Accepted(n) =>
            TakeOfPrefix(Gather(iovs), content, n);
            accepted := accepted + Gather(iovs)[..n];
            written := written + n;
          case WriteInterrupted =>
          case _ => return;
        }
      }
      UnderwayLast(rest, Offered(), needWrite - written, content, written, accepted, counts, before);
    }

    /** Receives into the room of the last block, until the room is used, nothing is there, or the stream ends. */
    method AsyncRead(answers: seq<ReadAnswer>) returns (shouldSuspend: bool)
      requires Valid() && ReadAnswers(answers, |readBuf.Room()|)
      modifies this, readBuf, readBuf.Repr
      ensures Valid() && accepted == old(accepted) && writeBuf.Unread() == old(writeBuf.Unread())
      ensures var room := old(|readBuf.Room()|);
        && readBuf.Unread() == old(readBuf.Unread()) + Received(answers, room)
        && (closed <==> old(closed) || ReadEnding(answers, room) in {SawEof, SawFailure})
        && (shouldSuspend <==> !closed && Received(answers, room) == [])
        && (shouldSuspend ==> ReadEnding(answers, room) == SawAgain)
      ensures readBuf.limit == old(readBuf.limit) && readBuf.consumed == old(readBuf.consumed)
    {
      hide Received, ReadEnding, ReadAnswers, ChainedBuffer.ReadSide, ChainedBuffer.Owned, ChainedBuffer.Room, Contents, Tight;
      readBuf.RoomSize();
      readBuf.FromReadSide();
      readBuf.GetOwned(|readBuf.chain| - 1);
      var read := ReadLoop(answers);
      readBuf.RoomSize();
      readBuf.CommitResv(read);
      readBuf.FromReadSide();
      readBuf.GetOwned(0);
      shouldSuspend := !closed && read <= 0;
    }

    /** Lines 11-43. */
    method ReadLoop(answers: seq<ReadAnswer>) returns (read: int)
      requires readBuf.ReadSide() && readBuf.chain != [] && this !in readBuf.Repr && |readBuf.Room()| > 0
      requires ReadAnswers(answers, |readBuf.Room()|)
      modifies this`closed, readBuf`blocks, readBuf.tail.block.data
      ensures readBuf.ReadSide() && readBuf.Unread() == old(readBuf.Unread())
      ensures 0 <= read <= |readBuf.Room()| == old(|readBuf.Room()|)
      ensures readBuf.Room()[..read] == Received(answers, |readBuf.Room()|)
      ensures closed <==> old(closed) || ReadEnding(answers, |readBuf.Room()|) in {SawEof, SawFailure}
      ensures read == 0 && !closed ==> ReadEnding(answers, |readBuf.Room()|) == SawAgain
    {
      hide Receiving, ChainedBuffer.ReadSide, ChainedBuffer.Owned, ChainedBuffer.Valid, Contents, ChainedBuffer.Room, Received, ReadAnswers;
      read := 0;
      var rest := answers;
      readBuf.RoomSize();
      readBuf.FromReadSide();
      readBuf.GetOwned(|readBuf.chain| - 1);
      var maxsize := BLOCK_SIZE - readBuf.tail.block.writePos;
      ghost var room := |readBuf.Room()|;
      assert readBuf.Room()[..0] == [];
      ReceivingFirst(answers, room);
      while maxsize > 0
        invariant readBuf.ReadSide() && readBuf.Unread() == old(readBuf.Unread()) && this !in readBuf.Repr
        invariant |readBuf.Room()| == room && 0 <= read <= room && maxsize == room - read
        invariant Receiving(rest, maxsize, readBuf.Room()[..read], answers, room)
        invariant closed == old(closed)
        decreases |rest|
      {
        ReceivingNext(rest, maxsize, readBuf.Room()[..read], answers, room);
        var answer := rest[0];
        rest := rest[1..];
        match answer {
          case Data(bytes) =>
            ghost var got := readBuf.Room()[..read];
            readBuf.FillRoom(read, bytes);
            TakeMore(readBuf.Room(), read, bytes, got);
            read := read + |bytes|;
            maxsize := maxsize - |bytes|;
          case Eof =>
            closed := true;
            return;
          case ReadAgain => return;
          case ReadInterrupted =>
          case ReadFailed =>
            closed := true;
            return;
        }
      }
      ReceivingLast(rest, maxsize, readBuf.Room()[..read], answers, room);
    }

    /** The bytes one call of `writev` is offered. */
    ghost function Offered(): nat
      reads writeBuf`blocks
    {
      |Contents(writeBuf.blocks[..Min(|writeBuf.blocks|, IOV_MAX)])|
    }
  }

  lemma Committed(before: Bytes, content: Bytes, counts: seq<nat>)
    requires Sum(counts) <= |content|
    ensures AtMostOne(counts) ==> before + SentBytes(content, counts) + content[Sum(counts)..] == before + content
  {
    if AtMostOne(counts) {
      OneIsConserved(content, counts);
      Assoc(before, content[..Sum(counts)], content[Sum(counts)..]);
      assert content[..Sum(counts)] + content[Sum(counts)..] == content;
    }
  }

  /** In the middle of the read loop: the bytes `got` so far, and what the remaining answers will add. */
  ghost predicate Receiving(rest: seq<ReadAnswer>, left: int, got: Bytes, answers: seq<ReadAnswer>, room: int) {
    && ReadAnswers(rest, left)
    && got + Received(rest, left) == Received(answers, room)
    && ReadEnding(rest, left) == ReadEnding(answers, room)
  }

  lemma ReceivingFirst(answers: seq<ReadAnswer>, room: int)
    requires ReadAnswers(answers, room)
    ensures Receiving(answers, room, [], answers, room)
  {
    assert [] + Received(answers, room) == Received(answers, room);
  }

  function EndingOf(answer: ReadAnswer): Ending {
    match answer
    case Eof => SawEof
    case ReadFailed => SawFailure
    case _ => SawAgain
  }

  lemma ReceivingNext(rest: seq<ReadAnswer>, left: int, got: Bytes, answers: seq<ReadAnswer>, room: int)
    requires Receiving(rest, left, got, answers, room) && left > 0
    ensures rest != []
    ensures var a := rest[0];
      if a.Data? then 0 < |a.bytes| <= left && Receiving(rest[1..], left - |a.bytes|, got + a.bytes, answers, room)
      else if a.ReadInterrupted? then Receiving(rest[1..], left, got, answers, room)
      else got == Received(answers, room) && ReadEnding(answers, room) == EndingOf(a)
  {
    if rest[0].Data? {
      Assoc(got, rest[0].bytes, Received(rest[1..], left - |rest[0].bytes|));
    } else if !rest[0].ReadInterrupted? {
      assert got + [] == got;
    }
  }

  lemma ReceivingLast(rest: seq<ReadAnswer>, left: int, got: Bytes, answers: seq<ReadAnswer>, room: int)
    requires Receiving(rest, left, got, answers, room) && left <= 0
    ensures got == Received(answers, room) && ReadEnding(answers, room) == RoomUsed
  {
    assert got + [] == got;
  }

  lemma TakeMore(room: Bytes, n: nat, bytes: Bytes, got: Bytes)
    requires n + |bytes| <= |room| && room[..n] == got && room[n..n + |bytes|] == bytes
    ensures room[..n + |bytes|] == got + bytes
  {
  }

  lemma LongerWhole(part: Bytes, whole: Bytes)
    requires part <= whole
    ensures |part| <= |whole|
  {
  }

  lemma TakeOfPrefix(part: Bytes, whole: Bytes, n: nat)
    requires part <= whole && n <= |part|
    ensures part[..n] == whole[..n]
  {
  }

  /** In the middle of the loop: what was written and accepted, and what the remaining answers will add. */
  ghost predicate Underway(rest: seq<WriteAnswer>, offered: nat, left: int, content: Bytes, written: int, taken: Bytes, counts: seq<nat>, before: Bytes) {
    && WriteAnswers(rest, offered, left) && offered <= |content|
    && written + Sum(Counts(rest, left)) == Sum(counts)
    && taken + SentBytes(content, Counts(rest, left)) == before + SentBytes(content, counts)
  }

  lemma UnderwayFirst(answers: seq<WriteAnswer>, offered: nat, need: int, content: Bytes, before: Bytes)
    requires WriteAnswers(answers, offered, need) && offered <= |content|
    ensures Underway(answers, offered, need, content, 0, before, Counts(answers, need), before)
  {
  }

  lemma UnderwayNext(rest: seq<WriteAnswer>, offered: nat, left: int, content: Bytes, written: int, taken: Bytes, counts: seq<nat>, before: Bytes)
    requires Underway(rest, offered, left, content, written, taken, counts, before) && left > 0
    ensures rest != []
    ensures var a := rest[0];
      if a.Accepted? then a.n <= offered && Underway(rest[1..], offered, left - a.n, content, written + a.n, taken + content[..a.n], counts, before)
      else if a.WriteInterrupted? then Underway(rest[1..], offered, left, content, written, taken, counts, before)
      else written == Sum(counts) && taken == before + SentBytes(content, counts)
  {
    if rest[0].Accepted? {
      var n := rest[0].n;
      assert Counts(rest, left)[1..] == Counts(rest[1..], left - n);
      Assoc(taken, content[..n], SentBytes(content, Counts(rest[1..], left - n)));
    } else if !rest[0].WriteInterrupted? {
      assert taken + [] == taken;
    }
  }

  lemma UnderwayLast(rest: seq<WriteAnswer>, offered: nat, left: int, content: Bytes, written: int, taken: Bytes, counts: seq<nat>, before: Bytes)
    requires Underway(rest, offered, left, content, written, taken, counts, before) && left <= 0
    ensures written == Sum(counts) && taken == before + SentBytes(content, counts)
  {
    assert taken + [] == taken;
  }
}
