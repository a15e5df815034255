# dRPC in Dafny

dRPC is a small RPC runtime on one executor thread per side: a lock-free task queue, chained buffers between
sockets and coroutines, a framed wire protocol with Protocol Buffers headers, and an epoll loop that resumes
the coroutines. This project models those parts and proves what each promises, over every input, every run or
every reachable state.

## How it is built

| part | modules | form |
|---|---|---|
| task queue, interleaved | `MpmcSteps`, `MpmcInvariant`, `MpmcEdits`, `MpmcLinks`, `MpmcRuns`, `MpmcFifo`, `MpmcResults`, `MpmcOnce`, `MpmcCalls`, `MpmcReclaim`, `MpmcProgress`, `MpmcWitness` | a step system: any number of threads, one program counter each, one atomic access per step, sequentially consistent memory, every chunk fresh |
| task queue, sequential | `MpmcQueue` | classes over heap chunks, with retiring, the free list and reuse |
| buffers | `BufferBlocks`, `Geometry`, `BlockChains`, `ChainedBuffers`, `BufferRuns` | classes over linked nodes with array storage; `Geometry` says as arithmetic where bytes lie, `BlockChains` has the facts about a chain as a value |
| wire format | `Varints`, `Utf8`, `HeaderCodec`, `WireFormat`, `Frames` | the encoding as functions, said again byte by byte and field by field, and the generated class as a class whose methods are proved against them |
| the two loops on bytes alone | `ServerLoop`, `RpcProtocol` | resumable parsers as step functions, and the invariant of the two parties |
| the two ends over their buffers | `Memories`, `BufferedServers`, `BufferedFrames`, `BufferedClients`, `RpcWorld`, `RpcWitness` | the same loops with the buffers that decide whether they can go on, and exactly when that makes no difference |
| the two ends as objects | `FrameWriters`, `Sessions`, `ClientChannels` | classes over two chained buffers each, proved against the loops over buffers |
| connection | `Connections` | a class over two chained buffers; the answers of `read` and `writev` are parameters |
| executor | `EventLoop`, `Wakeup` | step systems: coroutines, awaiters and edge-triggered epoll; spawns and the eventfd |

The wire encoding follows the sections "Base 128 Varints", "Length-Delimited Records" and "Last One Wins" of
the Protocol Buffers Encoding guide.

## What turned out to be conditional

Each condition below is proved exact, in both directions, and comes with an input, a run or a state that breaks
the promise.

- **Reading a length that is all there is.** `read` leaves the chain without a node when it takes the last byte of a
  block that is not full (util/chained_buffer.h:92-95), and the next `async_read` or `input_next` dereferences null
  (lines 144 and 212). So a server or client crashes when a read delivers bytes up to the end of a length, other than
  on a 4096-byte boundary of what it has received: a length on its own, or a frame whose body is empty. For every
  split of every stream into reads the loop does with its buffers what it does on the bytes alone if and only if that
  does not happen and every response fits (`BufferedServers.DeliveredExactlyWhen`,
  `BufferedClients.ResponsesExactlyWhen`); for streams of frames the positions are explicit
  (`BufferedFrames.FrameRoundTrip`).
- **Serializing past the end of a block.** `output_next` on a full last block copies the new block over the old one
  (util/chained_buffer.h:273) and loses what that held. A serialized message is appended if and only if it fits the
  room of the last block (`ChainedBuffers.ChainedBuffer.WriteMessage`), so no header or body of 4096 bytes or more is
  ever sent intact, and `Geometry.SomeTailFits` says which sizes can be.
- **The protocol** therefore keeps its promise in every state of a run if and only if every step is guarded against
  these two (`RpcWorld.ComposedSafety`). `RpcWitness.SmallCallAnswered` shows that guarded runs do answer calls, and
  `RpcWitness.LengthAloneBreaks` one that ends in a crash.
- **Concurrent FIFO** needs three things the code does not ensure. A pop must read lines 169 and 188 of
  util/mpmc_queue.h in one step, or it can step past a chunk that filled up in between. And `release_chunk` must not
  overwrite the `next` of a retired chunk (lines 256 and 260) while another thread can still come through that chunk,
  or a pop can return false with values in the queue; nor while `tail_chunk` still leads to it, or a push can link a
  chunk that pops never reach. This is so even if no chunk is ever reused. With all three the promise holds in every
  run, and with any one missing it does not (`MpmcWitness.FifoExactlyWhen`). Delivery at most once needs none of them
  (`MpmcOnce.ConcurrentAtMostOnce`), nor does it that each call of `push` claims one slot for its value and each call
  of `pop` delivers at most one (`MpmcCalls.PushClaimsOnce`, `MpmcCalls.PopDeliversOnce`).
- **`async_write`** offers the same bytes again to a second `writev`. What the socket accepted followed by what is
  buffered is what was appended exactly when at most one `writev` per call accepts bytes
  (`Connections.ConservedExactlyWhen`, `EventLoop.ConservedExactlyWhen`).
- **Edge-triggered reading** is safe exactly when the last block of the read buffer is never full, which `commit_resv`
  ensures (`ChainedBuffers.ChainedBuffer.RoomSize`), and reading always leaves a node, which `read` does not
  (`EventLoop.ReadSafeExactlyWhen`).
- **Wake-up** never misses a spawn that does its exchange after the flag is raised, but the executor can go to
  sleep on a closure that was queued between its last look and the store at scheduler/epoll_executor.cpp:46. Those
  closures are exactly the stranded ones, and none is ever stranded exactly when the loop looks again after that
  store (`Wakeup.StrandedExactly`, `Wakeup.NeverStrandedExactlyWhen`).

## Model

| member | source | states |
|---|---|---|
| MpmcRuns.CheckStep | util/mpmc_queue.h:131-132 | the slot a push has just claimed is never occupied, so the branch that constructs the value is always taken |
| MpmcLinks.LinkQueue | util/mpmc_queue.h:143-146 | a successful link extends the chain at its end: only the last chunk has no next one |
| MpmcLinks.DetachQueue | util/mpmc_queue.h:255-260 | overwriting the `next` of a retired chunk that nobody can come back to keeps the queue invariant |
| MpmcRuns.StepKeeps | util/mpmc_queue.h:121-284 | every atomic step of every thread, releases waiting until nobody can come back to the chunk, keeps the chain, slot, history and program-counter invariants |
| MpmcFifo.PeekOrdered | util/mpmc_queue.h:169-191 | a pop that sees an exhausted, not yet full chunk finds no next one |
| MpmcFifo.ClaimOrdered | util/mpmc_queue.h:200-203 | a successful pop claim is on the head chunk and keeps the claims in slot order |
| MpmcFifo.StepOrdered | util/mpmc_queue.h:160-223 | every step keeps the k-th successful pop claim on slot k mod 64 of chunk k div 64 |
| MpmcResults.ConcurrentFifo | util/mpmc_queue.h:121-223 | in every run (under the two conditions) the k-th push claim and the k-th pop claim are the same slot, k mod 64 of chunk k div 64, and a pop returns false only when every claimed slot has been taken |
| MpmcResults.NothingLost | util/mpmc_queue.h:121-223 | when all threads are idle, every popped push has been delivered and every other pushed value is in its slot, in order |
| MpmcOnce.PushClaimSound | util/mpmc_queue.h:126-128 | a push claim takes a slot that no push claimed before, wherever its chunk is |
| MpmcOnce.PopClaimSound | util/mpmc_queue.h:200-203 | a pop claim takes a slot that no pop claimed before |
| MpmcOnce.TakeSound | util/mpmc_queue.h:207-216 | the value moved out is the one pushed to that slot, and the slot is delivered once |
| MpmcOnce.StepSound | util/mpmc_queue.h:121-284 | every step of every thread keeps the slot accounting, with nothing assumed about reads or releases |
| MpmcOnce.ConcurrentAtMostOnce | util/mpmc_queue.h:126-216 | in every interleaving with fresh chunks distinct pops return values of distinct pushes, none is invented, and a pop waiting at line 208 waits on a slot that a push has claimed and not yet published |
| MpmcCalls.PushClaimsOnce | util/mpmc_queue.h:121-158 | in every run, whatever the mode, a call of `push` with v that has returned - from leaving idleness to being idle again - has claimed exactly one slot, for v, has published v there, and has taken nothing out |
| MpmcCalls.PopDeliversOnce | util/mpmc_queue.h:160-223 | a call of `pop` that has returned has claimed nothing for a push and has delivered exactly one value if it returned true, none if false |
| MpmcCalls.ClaimHasCall | util/mpmc_queue.h:121-135 | the converse: every push claim was made inside a call of `push` with that value, by the thread it belongs to |
| MpmcCalls.PushNotLost | util/mpmc_queue.h:121-223 | under the conditions of the queue, the value of a call of `push` that returned is, when all threads are idle, delivered if as many slots were popped as lie before it, and otherwise in the slot the call claimed |
| MpmcReclaim.StepReclaims | util/mpmc_queue.h:249-284 | every step keeps: a chunk out of use waits for its readers, is in the hands of one thread, or is once on the free list; `active_readers` counts the threads inside |
| MpmcReclaim.ChunksAccountedFor | util/mpmc_queue.h:249-284 | in every state the chunks of the free list are distinct and out of use, and when all threads are idle every chunk is in use or on the free list: none is given back twice or kept |
| MpmcProgress.PushCanReturn | util/mpmc_queue.h:121-158 | a push is never blocked: from every state of a run, whatever the others are in the middle of, it can go on to its return by steps of its own |
| MpmcProgress.PopCanReturn | util/mpmc_queue.h:160-223 | so can a pop when nobody else is at work and `tail_chunk` is the last chunk |
| MpmcWitness.SplitPeekBreaksOrder | util/mpmc_queue.h:169-198 | a run in which a pop steps past sixty-four values and the next pop takes the sixty-fifth |
| MpmcWitness.EarlyReleaseMissesValue | util/mpmc_queue.h:168-181 | a run in which a chunk is released early and a pop returns false with a value waiting |
| MpmcWitness.TailBehindLosesValue | util/mpmc_queue.h:143-146 | a run in which `tail_chunk` is left behind on a released chunk and a push claims a slot of a chunk that pops never reach |
| MpmcWitness.FifoExactlyWhen | util/mpmc_queue.h:121-284 | no run breaks the first-in-first-out promise if and only if pop reads in one step and releases wait for both `tail_chunk` and the other threads |
| MpmcQueue.MpmcQueue.constructor | util/mpmc_queue.h:85-92 | a new queue is empty, with one live chunk and none free |
| MpmcQueue.MpmcQueue.AllocateChunk | util/mpmc_queue.h:226-247 | a reset chunk in neither list: the first free one, or a new one that is counted |
| MpmcQueue.MpmcQueue.Link | util/mpmc_queue.h:139-146 | the new chunk becomes the last of the chain, and the contents do not change |
| MpmcQueue.MpmcQueue.Construct | util/mpmc_queue.h:126-135 | the value goes into the next slot and is appended to the contents |
| MpmcQueue.MpmcQueue.Push | util/mpmc_queue.h:121-158 | the value is appended, recycling or adding a chunk when the last is full |
| MpmcQueue.MpmcQueue.Extract | util/mpmc_queue.h:200-218 | the first value is moved out and its slot is free |
| MpmcQueue.MpmcQueue.Advance | util/mpmc_queue.h:171-177 | the head moves past a used-up chunk, which goes to the free list; the contents do not change |
| MpmcQueue.MpmcQueue.TryReleaseChunk | util/mpmc_queue.h:272-284 | a retired chunk without readers becomes the first free one; any other chunk and the free list are left as they are |
| MpmcQueue.MpmcQueue.Pop | util/mpmc_queue.h:160-223 | the first value, or none exactly when the queue is empty, and then nothing changes |
| MpmcQueue.RunAll | util/mpmc_queue.h:121-284 | any sequence of calls is answered as by a plain FIFO sequence |
| MpmcQueue.OccupiedSlots | util/mpmc_queue.h:131-134 | between calls a slot of a live chunk is occupied exactly when it is between pop index and capped push index |
| MpmcQueue.SpaceUsed | util/mpmc_queue.h:77-91 | between calls `chunk_count` is live plus free chunks and the peak of live ones: one live chunk when empty, at most 2 + (length - 1) div 64 otherwise |
| MpmcQueue.ConstructedContents | util/mpmc_queue.h:131-134 | constructing in the claimed slot appends one value to the contents of the chain |
| MpmcQueue.ConsumedContents | util/mpmc_queue.h:207-216 | destroying the slot at the pop index removes the first value of the contents |
| MpmcQueue.ContentsLength | util/mpmc_queue.h:128-146 | the length of the queue from the number of chunks and the outer indexes |
| BufferBlocks.BufferBlock.Write | util/buffer_block.h:25-34 | as many bytes as fit are appended to the unread ones, the rest of the storage is unchanged |
| BufferBlocks.BufferBlock.Read | util/buffer_block.h:36-47 | as many bytes as there are become read, and an emptied block is reset |
| ChainedBuffers.ChainedBuffer.constructor | util/chained_buffer.h:25-29 | a new buffer is empty and has one node with room |
| ChainedBuffers.ChainedBuffer.AllocateNode | util/chained_buffer.h:310-321 | an unlinked node with an empty block: the first free one, or a new one that is counted |
| ChainedBuffers.ChainedBuffer.DeallocateNode | util/chained_buffer.h:323-331 | the node is reset and becomes the first free one |
| ChainedBuffers.ChainedBuffer.AppendNode | util/chained_buffer.h:333-346 | the chain grows by an empty last node and every other block is unchanged |
| ChainedBuffers.ChainedBuffer.RemoveHead | util/chained_buffer.h:348-360 | the first node leaves the chain for the free list and the other blocks are unchanged |
| ChainedBuffers.ChainedBuffer.WriteSome | util/chained_buffer.h:52-64 | one round of `write` moves bytes, or finds the last block full, appends a node and moves none |
| ChainedBuffers.ChainedBuffer.Write | util/chained_buffer.h:44-67 | all of the data is appended, the loop ends although some rounds move nothing, and where the last block is then written to |
| ChainedBuffers.ChainedBuffer.SendSome | util/chained_buffer.h:123-139 | one round drops bytes from the front and never leaves the chain empty; with nothing buffered it moves nothing, so the loop does not end |
| ChainedBuffers.ChainedBuffer.CommitSend | util/chained_buffer.h:117-140 | exactly the first `send` bytes go, and a chain that was sent completely starts over |
| ChainedBuffers.ChainedBuffer.GetIovecs | util/chained_buffer.h:156-166 | the spans concatenate to the content, or to that of the first IOV_MAX blocks |
| ChainedBuffers.ChainedBuffer.OutputNext | util/chained_buffer.h:266-280 | a last block with room is offered to its end; a full one is overwritten by the block added after it, and the buffer holds fewer bytes than it counts |
| ChainedBuffers.ChainedBuffer.OutputBackUp | util/chained_buffer.h:282-289 | the last bytes written to the last block go, up to `count` of them |
| ChainedBuffers.ChainedBuffer.WriteMessage | util/chained_buffer.h:266-289 | a serializer that takes spans until the message fits and gives back the rest appends the message if and only if it fits the room of the last block; otherwise the buffer holds fewer bytes than it counts |
| Geometry.SomeTailFits | util/chained_buffer.h:266-289 | which sizes of header and body fit the last block for some write position, and so can be sent at all |
| Geometry.ReadPositions | util/chained_buffer.h:101-115 | the head of a buffer that is received into is read up to the number of bytes consumed modulo the block size |
| ChainedBuffers.ChainedBuffer.CommitResv | util/chained_buffer.h:101-115 | the bytes received into the room of the last block are appended, and the last block has room again |
| ChainedBuffers.ChainedBuffer.RoomSize | util/chained_buffer.h:142-147 | the view offered to a read is the room of the last block, and never empty |
| ChainedBuffers.ChainedBuffer.FillRoom | util/chained_buffer.h:142-147 | a read that stores bytes in the room changes no content |
| ChainedBuffers.ChainedBuffer.InputNext | util/chained_buffer.h:210-229 | hands out the next unread bytes, up to the end of the block and the limit, and counts them as consumed; fails exactly when there are none or the limit is used up |
| ChainedBuffers.ChainedBuffer.InputBackUp | util/chained_buffer.h:231-240 | exactly the last min(n, read position of the head) bytes consumed are unread again |
| ChainedBuffers.ChainedBuffer.Read | util/chained_buffer.h:70-99 | the first min(len, size) bytes are copied and consumed; no node is left exactly when more is asked for than there is, or all of it off a block boundary |
| ChainedBuffers.ChainedBuffer.DrainUnderLimit | util/chained_buffer.h:210-229 | after `push_limit` repeated `input_next` hands out exactly the first min(limit, size) bytes and then fails |
| BufferRuns.RunReads | util/chained_buffer.h:70-115 | every list of read-side operations is answered - bytes received, spans handed out, bytes backed up and copied - as by a plain byte queue, and the buffer ends as that queue says, with every node accounted for |
| BufferRuns.ReadsConserve | util/chained_buffer.h:70-115 | that queue is first in, first out: consumed plus unread bytes are the received ones |
| BufferRuns.RunWrites | util/chained_buffer.h:44-166 | every list of write-side operations is answered - bytes offered to the socket and sent - as by a plain byte queue, up to the message that overwrites a block, with every node accounted for |
| BufferRuns.WritesConserve | util/chained_buffer.h:44-166 | as long as every message fits, sent plus buffered bytes are the appended ones, in order |
| Varints.GroupsRoundTrip | proto/message.pb.cc:241-323 | reading up to k groups inverts encoding for all numbers below 128 to the k, and leaves what follows |
| Varints.Varint64RoundTrip | proto/message.pb.cc:250-279 | the two readers on an encoded 64-bit number: the number, and the number truncated to 32 bits |
| Varints.SignedRoundTrip | proto/message.pb.cc:256-281 | signed fields survive their two's complement encoding in 64 bits |
| Varints.SizeIsLength | proto/message.pb.cc:409-428 | the computed size of a varint is the length of its encoding, one to ten bytes |
| Varints.EncodeBytes | proto/message.pb.cc:331-382 | byte i of a varint is the i-th group of seven bits of the number, with the high bit set on all but the last |
| Varints.EncodeShortest | proto/message.pb.cc:331-382 | a varint has no more groups than the number needs |
| Varints.GroupsExactly | proto/message.pb.cc:241-323 | on arbitrary bytes: reading succeeds exactly when one of the first k bytes is below 128, and the value is the sum of the seven-bit groups up to it |
| Varints.ReadersExactly | proto/message.pb.cc:241-323 | on arbitrary bytes: what the readers of 64-bit and 32-bit fields, tags and lengths accept, and the value they give |
| WireFormat.SerializedFields | proto/message.pb.cc:325-382 | a record reader that knows nothing of the header reads a serialized header as exactly its numbered fields, those that are set and no others, in order |
| WireFormat.TwosComplement | proto/message.pb.cc:331-354 | a negative 32-bit field is written as the 64-bit number that is congruent to it |
| WireFormat.UnknownSkipped | proto/message.pb.cc:304-315 | a well-formed field that is not one of the six, or not of its wire type, changes nothing and parsing goes on after it |
| WireFormat.BadTagFails | proto/message.pb.cc:304-309 | a tag of no field number, one that ends a group, or one of no wire type does not parse |
| Utf8.ValidExactlyWhen | proto/message.pb.cc:287-297 | names pass the check exactly when they are the encoding of a sequence of Unicode scalar values |
| HeaderCodec.ParseMerges | proto/message.pb.cc:241-382 | parsing a serialized header, whatever follows it, has the effect of merging it into the header at hand |
| HeaderCodec.ParseInvertsSerialize | proto/message.pb.cc:241-382 | parsing inverts serializing for every header with valid UTF-8 names |
| HeaderCodec.ConcatenationMerges | proto/message.pb.cc:440-470 | two serialized headers one after the other parse to the second merged into the first, zero scalars and present empty names included |
| HeaderCodec.HeaderMessage.InternalParse | proto/message.pb.cc:241-323 | the loop that sets fields one tag at a time succeeds exactly when the bytes parse, and sets what they say |
| HeaderCodec.HeaderMessage.InternalSerialize | proto/message.pb.cc:325-382 | appends exactly the encoding of the fields |
| HeaderCodec.HeaderMessage.ByteSizeLong | proto/message.pb.cc:384-431 | the length of what `InternalSerialize` appends, ten-byte varints of negative numbers included |
| HeaderCodec.HeaderMessage.MergeFrom | proto/message.pb.cc:440-470 | non-zero scalars and present names of the other header win, everything else stays, the other header is unchanged |
| Frames.Len32RoundTrip | client/client_channel.cpp:72-73 | a length read from its four bytes is the length written |
| Frames.LittleEndian | client/client_channel.cpp:181-186 | the bytes of a length are its base-256 digits, lowest first |
| Frames.InFrameTake | server/rpc_server.cpp:46-127 | in each phase of a frame enough bytes are there, they are the next part of the frame, and what follows fits the next phase |
| ServerLoop.ServedVerdict | server/rpc_server.cpp:77-126 | a request that fits the format is served exactly when no check of the loop turns it down |
| ServerLoop.FrameRejected | server/rpc_server.cpp:71-126 | on the bytes alone: a frame that is turned down stops the loop for the first reason it comes to, with nothing dispatched or written |
| BufferedServers.RunAgrees | server/rpc_server.cpp:42-147 | one run of the loop over its buffers does what the loop on the bytes does, or reads a length that is all there is, or writes a response that does not fit, and which of these is decided by the bytes |
| BufferedServers.DeliveredExactlyWhen | server/rpc_server.cpp:42-147 | for all splits of a stream into reads: same requests, responses, bytes left and phase as on the bytes alone, and buffers to go on with, if and only if no read ends right after a length off a block boundary and every response fits |
| BufferedServers.ChunkingIndependence | server/rpc_server.cpp:42-147 | two such splits of one stream end in the same state |
| BufferedServers.DispatchedPrefix | server/rpc_server.cpp:42-147 | what is dispatched and answered after some reads is a prefix of what is after more of them |
| BufferedServers.LengthAloneCrashes | server/rpc_server.cpp:46-63 | a first read of just the four bytes of a length leaves the loop without a node |
| BufferedFrames.CutsInFrames | server/rpc_server.cpp:46-97 | in a stream of frames the reads that may not end there are exactly those right after one of the two lengths of a frame |
| BufferedFrames.FrameRoundTrip | server/rpc_server.cpp:46-144 | the frames of any list of requests, in any split into reads, are decoded to exactly those headers and bodies and answered in order, if and only if no read ends right after a length off a block boundary and every response fits |
| BufferedFrames.FrameRoundTripThen | server/rpc_server.cpp:46-144 | the same followed by any bytes, which are left to the loop |
| BufferedFrames.FramesDecided | server/rpc_server.cpp:42-147 | of any list of frames exactly those before the first one turned down are dispatched and answered, and that one stops the loop for its reason, under the same conditions |
| BufferedFrames.EmptyBodyCrashes | server/rpc_server.cpp:92-123 | a stream that ends with an empty body off a block boundary is decoded in no split |
| BufferedFrames.BigResponsesFail | server/rpc_server.cpp:142-144 | a response body of 4096 bytes or more is never written intact |
| FrameWriters.WriteFrame | client/client_channel.cpp:181-187 | the two lengths, the header and the body are appended if and only if both messages fit the last block when they are serialized |
| FrameWriters.TakeLength | server/rpc_server.cpp:54-59 | four bytes are taken, and a node is left unless they were all there was off a block boundary |
| FrameWriters.TakeMessage | server/rpc_server.cpp:70-75 | a message parsed under a limit takes exactly that many bytes |
| Sessions.Session.Resume | server/rpc_server.cpp:38-147 | over two chained buffers: the loop run after one read has the effect on phase, dispatched requests and both buffers that the loop over buffers says |
| Sessions.Session.RunOne | server/rpc_server.cpp:46-146 | one part of it, the checks and the response included |
| Sessions.Session.Respond | server/rpc_server.cpp:129-146 | the response frame is written and the send coroutine resumed, unless a message does not fit |
| Sessions.Session.ReadHeader | server/rpc_server.cpp:69-84 | a header that does not parse, or has the wrong magic number or version, ends the loop |
| BufferedClients.ClientRunAgrees | client/client_channel.cpp:60-145 | one run of the client loop over its buffers does what the loop on the bytes does, unless a length is all there is |
| BufferedClients.ResponsesExactlyWhen | client/client_channel.cpp:60-145 | for all splits of the responses into reads: the same callbacks run as on the bytes alone, and the loop can go on, if and only if no read ends where a length would be all there is |
| ClientChannels.ClientChannel.CallMethod | client/client_channel.cpp:169-194 | over the chained write buffer: the frame of the call is appended under the next id if it fits, and its session is registered |
| ClientChannels.ClientChannel.Resume | client/client_channel.cpp:55-145 | over the chained read buffer: the loop run after one read looks sessions up, erases them and runs callbacks as the loop over buffers says |
| ClientChannels.ClientChannel.RunOne | client/client_channel.cpp:60-145 | one part of it; a response to no session is left in the buffer |
| RpcWorld.GuardedKeeps | client/client_channel.cpp:60-194 | a guarded step of either end keeps the invariant of the two parties and buffers they can work with |
| RpcWorld.UnguardedBreaks | client/client_channel.cpp:60-194 | any other step ends the promise |
| RpcWorld.ComposedSafety | client/client_channel.cpp:119-194 | a run keeps in every state: each callback has run at most once with the answer to its own request, the registry holds exactly the ids from answered to issued, "Session not found" is not reached, no loop has stopped and the buffers are sound - if and only if every step is guarded |
| RpcWorld.QuietMeansAnswered | client/client_channel.cpp:119-194 | a run of guarded steps that comes to rest has answered every call |
| RpcWorld.BigBodiesBreak | client/client_channel.cpp:185-187 | a call with a body of 4096 bytes or more ends the promise in every run it comes up in |
| RpcWorld.BigAnswersBreak | server/rpc_server.cpp:142-144 | and so does an answer of that size |
| RpcProtocol.ProperWhen | client/client_channel.cpp:171-192 | conditions a caller can check - valid names of a registered method that accepts the body, sizes and id in range - under which a call is one the server serves |
| RpcWitness.SmallCallAnswered | client/client_channel.cpp:60-194 | a guarded run in which a call is answered, for every call and answer that are not empty and fit a block |
| RpcWitness.LengthAloneBreaks | server/rpc_server.cpp:46-63 | a run in which the four bytes of a length arrive alone and the server is left without a node |
| Connections.OneIsConserved | net/connection.cpp:54-77 | with at most one accepting `writev` what the socket took is what `commit_send` drops |
| Connections.ConservedExactlyWhen | net/connection.cpp:54-77 | for all contents of a length nothing is repeated or skipped, if and only if at most one `writev` accepts bytes |
| Connections.SecondCallOverruns | net/connection.cpp:54-77 | two calls can accept more than is buffered in all, which `commit_send` is not defined for |
| Connections.Connection.AsyncWrite | net/connection.cpp:50-80 | what the socket accepted, what is left in the chained buffer, and suspension exactly when something is left |
| Connections.Connection.WriteLoop | net/connection.cpp:53-76 | the accepted bytes and their number from the answers of `writev`, offered the same spans each time |
| Connections.Connection.AsyncRead | net/connection.cpp:7-48 | the received bytes are appended; the call suspends only after a read saw EAGAIN, and closes exactly at end of stream or on an error |
| Connections.Connection.ReadLoop | net/connection.cpp:11-43 | the bytes received are in the room of the last block, in order, and the reason the loop ended |
| Connections.FirstOtherAnswerDecides | net/connection.cpp:11-46 | on the answers alone: after data shorter than the room and interrupted reads, the first other answer ends the loop - with a closed connection exactly if it is the end or an error - and the bytes received are the data before it, in order |
| Connections.DataFillTheRoom | net/connection.cpp:11-46 | data that use up the room end the loop, with the connection open and bytes received |
| Connections.FirstRefusalEnds | net/connection.cpp:53-76 | on the answers alone: after accepting and interrupted calls that leave something, the first EAGAIN or error ends the loop with what was accepted before it |
| Connections.EnoughEnds | net/connection.cpp:53-76 | the loop ends with the call that accepts the last of what there is to write, and not before |
| EventLoop.ControlKept | scheduler/awaitable.cpp:15-40 | in every step each coroutine runs exactly when the executor thread is in it |
| EventLoop.WritesKept | scheduler/awaitable.cpp:25-40 | in every step a coroutine suspended for space has bytes to write, EPOLLOUT armed or just reported, and a mark if there is room |
| EventLoop.ReadsKept | net/connection.cpp:7-48 | in every step a suspended reader has read everything or has an event coming, when the last block is never full |
| EventLoop.StreamKept | net/connection.cpp:50-80 | in every step the socket's bytes and the unsent ones are the appended ones, when one `writev` per call accepts |
| EventLoop.StepKeeps | scheduler/epoll_executor.cpp:77-89 | every step of the executor thread and of the kernel keeps the invariant |
| EventLoop.NoStuckWrites | scheduler/awaitable.cpp:25-40 | between closures and events a non-empty write buffer has its coroutine in the write awaiter with EPOLLOUT armed; if there is room, the next `epoll_wait` resumes it |
| EventLoop.ResumedWhileSuspended | scheduler/epoll_executor.cpp:77-89 | every resume of either coroutine happens while it is suspended |
| EventLoop.SuspendsOnEagain | net/connection.cpp:28-46 | a step makes the read coroutine wait only after an `async_read` that received nothing, and, when the last block is never full, that has just seen EAGAIN on an empty socket |
| EventLoop.NothingPending | scheduler/epoll_executor.cpp:46-89 | a connection with nothing pending has read everything and can send nothing |
| EventLoop.WaitsWhenRefused | net/connection.cpp:60-80 | the write coroutine begins to wait for space only after its latest `writev` answered EAGAIN or an error |
| EventLoop.BytesAccountedFor | net/connection.cpp:7-48 | in every reachable state: the bytes that have arrived are those unread in the socket, in the read in progress, buffered, and consumed |
| EventLoop.FullBlockSleeps | net/connection.cpp:9-46 | with a full last block the coroutine suspends with a byte unread and no edge |
| EventLoop.NoNodeCrashes | net/connection.cpp:9-9 | a copying read that takes all there is leaves no node, and the next read of the socket crashes |
| EventLoop.TwoAcceptsRepeat | net/connection.cpp:54-77 | with two accepting calls the first byte is sent twice and the second never |
| EventLoop.ReadSafeExactlyWhen | scheduler/awaitable.cpp:15-23 | no reachable state crashes in a read, has unread bytes without an EPOLLIN edge pending, or has the coroutine waiting although its last read received bytes, if and only if the last block is never full and reading leaves a node |
| EventLoop.ConservedExactlyWhen | net/connection.cpp:50-80 | the outgoing stream has no gap and no repeat in every reachable state, if and only if one `writev` per call accepts |
| Wakeup.HandshakeKept | scheduler/epoll_executor.cpp:112-127 | in every step: since the store of the flag it is still up, or a wake-up is on its way |
| Wakeup.RanInOrder | scheduler/epoll_executor.cpp:41-44 | in every reachable state the tasks run so far followed by the queued ones are the spawned ones: each runs at most once, in order, and one that has not run is queued |
| Wakeup.QueueKept | scheduler/epoll_executor.cpp:38-46 | in every step: queued tasks by when their spawn did its exchange |
| Wakeup.StepKeeps | scheduler/epoll_executor.cpp:38-127 | every step of the executor and of the spawning threads keeps the invariant |
| Wakeup.WakeUpOnItsWay | scheduler/epoll_executor.cpp:46-66 | in `epoll_wait`, if a spawn has done its exchange since the store, an edge is pending or a winner has yet to write; if none has, the next one wins |
| Wakeup.StrandedExactly | scheduler/epoll_executor.cpp:41-48 | with no wake-up on its way the stranded tasks are exactly those queued and exchanged between the failed pop and the store |
| Wakeup.ReachAsleep | scheduler/epoll_executor.cpp:41-48 | a run that ends in `epoll_wait` with a task queued and nothing to wake the executor |
| Wakeup.NeverStrandedExactlyWhen | scheduler/epoll_executor.cpp:41-46 | no task is ever stranded if and only if the loop looks at the queue again after the store |

## Left out

- Weak memory orders, and chunk reuse between threads: atomics are sequentially consistent and the interleaved model never takes a chunk from the free list; reuse is covered by the sequential class.
- Size and count fields that wrap around (`size_t`, `int`): counters are unbounded, except for 32-bit lengths, 64-bit varints and the truncations of the header fields, which are modelled.
- `input_skip` of the chained buffer: it compares its argument with the bytes already consumed and goes on with a block it has removed, so no useful contract fits it.
- `for_each_block`, `block_count` and `clear` of the chained buffer: plain walks along the chain.
- ChainedBuffers.ChainedBuffer.OutputBackUp: not for a count that would cut into bytes of the last block that were already sent, which leaves its write position before its read position.
- ChainedBuffers.ChainedBuffer.CommitSend: only for at most `size()` bytes; beyond that the loop does not end, as `SendSome` says of a round with nothing buffered.
- Connections.Connection.AsyncWrite: repeated accepting calls that together take more than is buffered are excluded, because the commit that follows does not end; `SecondCallOverruns` shows that they are possible.
- ChainedBuffers.ChainedBuffer.CommitResv: specified for a chain that has a node, like `input_next` and the reads of a connection, since the source dereferences a null pointer otherwise; `Read` says exactly when that state arises, and the loops over buffers cannot go on from it.
- What a peer makes of a stream after a block was overwritten, or of a connection whose end has crashed: nothing is said of an end from there on.
- How the Protocol Buffers library takes spans from an output stream is not part of this model: a serializer takes spans until its message fits and gives back the rest, and takes none for an empty message.
- BufferRuns.RunReads: a back-up that would overflow the read limit, which is undefined in the source, is answered as backing up nothing.
- Frame lengths from 2^31 - 1 on: as a read limit they overflow or mean "no limit", so the modelled loops stop there with a reason of their own.
- Unknown fields: they are skipped when parsed, as the source does, but not kept, merged or written again.
- Request and response bodies: opaque bytes, with parsing of requests as a predicate, the answer as a function of service, method and body, and parsing of responses as always succeeding.
- Everything after a connection closes, among it the loop at server/rpc_server.cpp:116, the destruction of coroutines and stale handles: the event loop is modelled for an open connection, with EPOLLHUP left out.
- `epoll_ctl` is taken to succeed, a `read` that is not at the end delivers bytes or EAGAIN only on an empty socket, and a `writev` sees EAGAIN only without room.
- Several connections on one executor: the event loop follows one connection; closures and events of others take place between its steps.
- Accepting, connecting, sockets, logging, time-outs, thread join and `stop_`, which is taken to stay false.
