# toyBasket: verified models

toyBasket is a reactor-style communication library with an RPC layer, a timer scheduler and a serial
CRC. This project models the parts that carry state, loops and arithmetic, in Dafny 4.11, and proves
what they are for. `dafny verify dfyconfig.toml` checks everything.

Most components appear twice. A class whose fields and methods are those of the C++ class does the
work step by step, with the source's `assert`s as proof obligations. Beside it stands a specification
on values: a function, or a state machine whose runs are all interleavings of the component's atomic
steps. Each method's contract ties it to the specification, and the main results are proved about
that specification for every input, every run or every reachable state. A machine's `Run` is any
finite sequence of enabled events; results over "every reachable state" are inductions over `Run`.

| files | what they model |
|---|---|
| Bytes, Buffer | the gap buffer as a byte queue in one growable array, its size bound, integers in network order |
| RpcMeta, RpcMetaMessage | the RpcMeta codec of the Protocol Buffers encoding, on values and on the generated object |
| Framing | the length-prefixed frame, its incremental decoder, chunk independence, exact residue |
| RpcEndpoints, RpcProtocol | RpcChannel and RpcServer on real buffers; exactly-once calls over all byte-level interleavings |
| Heap, Timer, TimerRuns, TimerDelays | push_heap, pop_heap, make_heap (section 25.4.6 of ISO/IEC 14882:2011), the tick loop, exact firing times, delays by self-deleting actions |
| EventLoop | the queue of functors, the eventfd wake-up and quit as interleaved steps of any number of threads |
| Sending, StreamConnection | send conservation, half-close after drain, over whole runs and on real buffers; the channel's interest |
| ConnectionLife, ConnectionSteps, ConnectionFailures, StreamServer | the life of all connections and the server's map; exactly which steps lead to failing asserts |
| EPollPoller | channels, the poller's three-valued index and the kernel's interest set |
| Crc, SerialCrc | the bit-serial CRC on machine words, and its algebra over polynomials modulo 2 |
| Connector | the ledger of sockets and the retry back-off |
| BlockingQueue | the condition-variable monitor with spurious wake-ups |

Findings about the code that the proofs make exact:

- Both decoders compare strictly, so a frame with an empty payload is dispatched only when a later
  byte arrives. `RpcProtocol.QuietIsDone` says exactly when calls are left waiting for ever.
- A functor queued on the loop thread before `loop()` is not signalled (`EventLoops.EarlyTaskIsSignalledIff`).
- A queued close of a connection with nothing enabled (stopRead, then forceClose) registers its channel
  again, and a hang-up at the next poll closes it twice; so does stopRead or startRead after a close.
  `ConnectionFailures.CarefulIff` says exactly which steps lead to a failing assert.
- An event with HUP and PRI or RDHUP but not IN closes a connection twice if the read then finds the end
  of the stream (`ConnectionFailures.OneEventIff`).
- `~StreamServer` is safe only if every connection in the map is connected and, inside an event, nothing
  else of the server was polled in the same round (`ConnectionLives.DestructorSafeIff`).
- `disableAll` on a channel that is not watched registers its descriptor with an empty mask
  (`EPollPollers.Channel.DisableAll`).
- `start` while a retry timer is pending, unless the attempt fails for good, and `restart` from inside the
  new-connection callback break the asserts of `startInLoop` and `connecting`
  (`Connectors.StartSafeIff`, `Connectors.ConnectingAssertIff`).
- A `quit` before `loop()` is erased (`EventLoops.QuitHoldsIff`).
- `shrink` loses content of 2^31 bytes and more (`Buffers.Buffer.Shrink`).

## Model

| member | source | states |
|---|---|---|
| `Bytes.IntRoundTrip` | src/communication/Buffer.h:234-258 | Decoding the network-order encoding of any signed integer of the width, negative ones included, gives it back. |
| `Bytes.IntOnto` | src/communication/Buffer.h:300-333 | Conversely every byte string of the width is the encoding of the integer it decodes to. |
| `Bytes.BigEndianDigits` | src/communication/Buffer.h:234-253 | Byte k of the encoding is the k-th most significant base-256 digit: network byte order, stated without the recursion. |
| `Bytes.LittleIsBigReversed` | src/communication/net/protorpc/rpc_meta.pb.cc:291-296 | The little-endian encoding of a value is its big-endian one backwards, so its first byte is the least significant. |
| `Bytes.TwosComplement` | src/communication/Buffer.h:234-258 | A negative integer of the width is encoded as the unsigned number 256^width above it. |
| `Buffers.Buffer.constructor` | src/communication/Buffer.h:46-54 | A new buffer is empty with the asked writable space and 8 prependable bytes. |
| `Buffers.Buffer.Swap` | src/communication/Buffer.h:59-64 | Contents, storage and indices of two buffers change places; also when a buffer is swapped with itself. |
| `Buffers.Buffer.Peek` | src/communication/Buffer.h:81-84 | The bytes handed out are the asked slice of the abstract content. |
| `Buffers.Buffer.Retrieve` | src/communication/Buffer.h:119-130 | The content loses exactly its first len bytes; an emptied buffer goes back to the reserve. |
| `Buffers.Buffer.RetrieveAll` | src/communication/Buffer.h:159-163 | The content becomes empty and the reader index returns to 8. |
| `Buffers.Buffer.RetrieveAsString` | src/communication/Buffer.h:170-176 | Result followed by the remaining content is the old content. |
| `Buffers.Buffer.Append` | src/communication/Buffer.h:188-193 | The content grows by exactly the data, whether the gap was big enough, the content slid left, or the storage grew; the data asked for is recorded in the size bound. |
| `Buffers.Buffer.EnsureWritableBytes` | src/communication/Buffer.h:200-207 | Afterwards len bytes are writable (its assert) and the content is unchanged. |
| `Buffers.Buffer.HasWritten` | src/communication/Buffer.h:219-223 | The bytes already stored behind the content join it. |
| `Buffers.Buffer.Unwrite` | src/communication/Buffer.h:225-229 | The content loses exactly its last len bytes. |
| `Buffers.Buffer.AppendInt` | src/communication/Buffer.h:234-258 | The content grows by the network-order encoding. |
| `Buffers.Buffer.ReadInt` | src/communication/Buffer.h:264-294 | The encoding of the result followed by the new content is the old content. |
| `Buffers.Buffer.PeekInt` | src/communication/Buffer.h:300-333 | The result is the only integer of the width whose encoding starts the content. |
| `Buffers.Buffer.PrependInt` | src/communication/Buffer.h:338-362 | The encoding is put in front of the content, within the prependable bytes. |
| `Buffers.Buffer.Prepend` | src/communication/Buffer.h:364-370 | The data is put in front of the content; storage behind it is untouched. |
| `Buffers.Buffer.MakeSpace` | src/communication/Buffer.h:403-420 | Both branches keep the content, make len bytes writable and keep the size bound max(8 + initial size, 2P + 8), P being the largest readable-plus-requested length; its asserts hold. |
| `Buffers.Buffer.SlideLeft` | src/communication/Buffer.h:411-419 | The overlapping left move keeps the content: each byte is read before it is overwritten. |
| `Buffers.Buffer.Copy` | src/communication/Buffer.h:191 | The range holds the data and every byte outside it is unchanged. |
| `Buffers.Buffer.Resize` | src/communication/Buffer.h:408 | Growing the storage keeps every old byte in place. |
| `Buffers.Buffer.ReadFd` | src/communication/Buffer.cpp:26-58 | A scatter read appends exactly the bytes read, through the gap and the 64 KiB overflow area; an error changes nothing and is reported. |
| `Buffers.Buffer.Readv` | src/communication/Buffer.cpp:31-39 | The kernel fills the gap first and only then the overflow area. |
| `Buffers.Buffer.Shrink` | src/communication/Buffer.h:372-379 | With fewer than 2^31 readable bytes, and only then, the same content in fresh storage with the reserve writable; through the int length a negative one fails and changes nothing, one past 2^32 keeps only the front. |
| `RpcMetas.VarintRoundTrip` | src/communication/net/protorpc/rpc_meta.pb.cc:250-258 | A varint in front of any input reads back as its value and its length, within any limit it fits (Base 128 Varints). |
| `RpcMetas.VarintPrefix` | src/communication/net/protorpc/rpc_meta.pb.cc:250-258 | Later input never changes a varint already complete. |
| `RpcMetas.VarintLength` | src/communication/net/protorpc/rpc_meta.pb.cc:347-352 | The size formula used for string lengths is the length of the encoding. |
| `RpcMetas.NegativeVarintLength` | src/communication/net/protorpc/rpc_meta.pb.cc:362-366 | A negative int32 takes ten bytes. |
| `RpcMetas.WireFormat` | src/communication/net/protorpc/rpc_meta.pb.cc:282-333 | The bytes of a message: the byte 9 and eight bytes for an id, 18 and 26 with length and bytes for server and method, 32 and a varint for the data size, in this order, each left out when zero or empty. |
| `RpcMetas.VarintDigits` | src/communication/net/protorpc/rpc_meta.pb.cc:250-258 | Byte i of a varint is the i-th base-128 digit of the value, least significant first, with 128 added unless it is the last; of more than one byte the last is not 0. |
| `RpcMetas.ReadVarintDigits` | src/communication/net/protorpc/rpc_meta.pb.cc:250-258 | A varint is read up to the first byte below 128 if that comes within the limit, and the digits of its value are the low seven bits of those bytes. |
| `RpcMetas.ReadVarintFails` | src/communication/net/protorpc/rpc_meta.pb.cc:250-258 | Without a byte below 128 within the limit nothing is read. |
| `RpcMetas.ParseField` | src/communication/net/protorpc/rpc_meta.pb.cc:208-273 | One field consumes at least one byte and no more than there are, and keeps every field within its type. |
| `RpcMetas.SerializedMerges` | src/communication/net/protorpc/rpc_meta.pb.cc:201-333 | Parsing a serialized message in front of any input merges it into the message so far and goes on behind it. |
| `RpcMetas.RoundTrip` | src/communication/net/protorpc/rpc_meta.pb.cc:201-333 | Parsing the serialization of any RpcMeta succeeds and gives it back. |
| `RpcMetas.ConcatenationMerges` | src/communication/net/protorpc/rpc_meta.pb.cc:395-419 | Parsing serialize(a) followed by serialize(b) equals MergeFrom of b into a (Last One Wins). |
| `RpcMetas.ParseContinues` | src/communication/net/protorpc/rpc_meta.pb.cc:208-273 | The same for any accepted input, canonical or not: parsing s then t is parsing t from the result of s. |
| `RpcMetas.SizeMatches` | src/communication/net/protorpc/rpc_meta.pb.cc:335-376 | The size computed field by field is the length of the serialization. |
| `RpcMetaMessages.Message.ParseFromString` | src/communication/net/protorpc/rpc_meta.pb.cc:201-280 | The object ends up as the parser function says, on failure with the fields read before it. |
| `RpcMetaMessages.Message.InternalParse` | src/communication/net/protorpc/rpc_meta.pb.cc:201-280 | The while loop over tags computes the parser function from any starting message. |
| `RpcMetaMessages.Message.ParseFieldAt` | src/communication/net/protorpc/rpc_meta.pb.cc:213-272 | The switch over one tag sets one field and advances the pointer past it, or fails without effect. |
| `RpcMetaMessages.Message.ReadVarintAt` | src/communication/net/protorpc/rpc_meta.pb.cc:253 | The byte loop with running value and weight reads what the recursive definition reads. |
| `RpcMetaMessages.Message.ReadStringAt` | src/communication/net/protorpc/rpc_meta.pb.cc:230 | A length-prefixed string is read from the pointer, refused when it would end behind the input. |
| `RpcMetaMessages.Message.InternalSerialize` | src/communication/net/protorpc/rpc_meta.pb.cc:282-333 | The serialization is written at the pointer, the pointer advances by its length, and no other byte of the target changes. |
| `RpcMetaMessages.Message.WriteId` | src/communication/net/protorpc/rpc_meta.pb.cc:290-296 | The id field is written unless the id is zero. |
| `RpcMetaMessages.Message.WriteString` | src/communication/net/protorpc/rpc_meta.pb.cc:298-314 | Tag, length and bytes are written unless the string is empty. |
| `RpcMetaMessages.Message.WriteDataSize` | src/communication/net/protorpc/rpc_meta.pb.cc:316-322 | The data_size field is written unless it is zero. |
| `RpcMetaMessages.Message.WriteVarint` | src/communication/net/protorpc/rpc_meta.pb.cc:320 | The loop over 7-bit groups writes the varint. |
| `RpcMetaMessages.Message.ByteSizeLong` | src/communication/net/protorpc/rpc_meta.pb.cc:335-376 | The total is the length of the serialization. |
| `RpcMetaMessages.Message.MergeFrom` | src/communication/net/protorpc/rpc_meta.pb.cc:395-419 | Each non-default field of the source replaces the target's; the others stay. |
| `Framing.DecodeOne` | src/communication/net/protorpc/rpc_server.cc:42-58 | An iteration that goes on retrieves at least 4 bytes and no more than are readable, so the loop terminates. |
| `Framing.DispatchIff` | src/communication/net/protorpc/rpc_server.cc:42-58 | For any bytes at all, when a frame is dispatched and which: the length in the first four bytes is not negative, a byte behind the meta has arrived, and so has the payload the meta tells of. |
| `Framing.WaitsIff` | src/communication/net/protorpc/rpc_server.cc:42-66 | For any bytes at all, when the loop waits: strictly too few bytes for the length or the meta, too few for the payload, or a sum that wraps below zero and compares as a huge one. |
| `Framing.DecisionIsFinal` | src/communication/net/protorpc/rpc_server.cc:42-58 | Once an iteration has enough bytes to decide, later bytes never change its decision. |
| `Framing.FeedContinues` | src/communication/net/protorpc/rpc_server.cc:40-68 | Decoding after each of two reads does what decoding after one read of both would. |
| `Framing.ChunkIndependence` | src/communication/net/protorpc/rpc_server.cc:40-68 | For every byte stream, well-formed or not, and every way of cutting it into reads: frames dispatched, left-over bytes and fault are those of one read of the whole. |
| `Framing.FrameDispatched` | src/communication/net/protorpc/rpc_channel.cc:29-45 | An encoded frame followed by anything is dispatched as itself with its own length, if it has a payload or at least one byte follows. |
| `Framing.FrameWaits` | src/communication/net/protorpc/rpc_channel.cc:62-71 | Any proper prefix of a frame, and a whole frame with an empty payload, is not dispatched. |
| `Framing.PrefixDecodes` | src/communication/net/protorpc/rpc_server.cc:42-66 | Decoding any prefix of a concatenation of encoded frames dispatches exactly the complete frames in order and leaves exactly the bytes held back. |
| `Framing.ChunksOfStream` | src/communication/net/protorpc/rpc_server.cc:42-66 | The same however the prefix was cut into reads. |
| `Framing.Residue` | src/communication/net/protorpc/rpc_server.cc:42-66 | What is held back is a proper prefix of the next frame or one whole empty-payload frame, and with the dispatched frames it is every byte received. |
| `Framing.WholeStream` | src/communication/net/protorpc/rpc_channel.cc:62-71 | A completely received stream is completely dispatched if and only if it is empty or its last frame has a payload. |
| `Framing.StreamSnoc` | src/communication/net/protorpc/rpc_channel.cc:42-56 | Sending one more frame appends its encoding to the stream. |
| `RpcEndpoints.FrontFrame` | src/communication/net/protorpc/rpc_server.cc:42-58 | The test on the buffer itself, with its size_t arithmetic, decides as the decoder function does on the content. |
| `RpcEndpoints.FrontFrameWithMeta` | src/communication/net/protorpc/rpc_server.cc:47-58 | Likewise for the part after the meta has arrived, with the sum truncated to int. |
| `RpcEndpoints.AnyReplies` | src/communication/net/protorpc/rpc_channel.cc:73-93 | For any frames at all: every id in them leaves out_, nothing else does; what completes was outstanding, completes once, with a payload sent for it; unknown and repeated ids have no effect. |
| `RpcEndpoints.FirstReplyCompletes` | src/communication/net/protorpc/rpc_channel.cc:73-93 | The first frame with an outstanding id, and no other, completes that call, with its payload, and runs its done callback exactly if there is one. |
| `RpcEndpoints.IdRoundTrip` | src/communication/net/protorpc/rpc_channel.cc:33-34 | An id survives its trip through the unsigned field, negative ones included. |
| `RpcEndpoints.CallIsDecoded` | src/communication/net/protorpc/rpc_server.cc:53-55 | A server that has received what was sent for a call, and anything behind it, finds first exactly one frame with that id, service, method and request bytes; with an empty request, once a byte is behind it. |
| `RpcEndpoints.RpcChannel.CallMethod` | src/communication/net/protorpc/rpc_channel.cc:25-58 | The next id is registered with its call, also without a connection; on a live one exactly one encoded frame is sent, which carries that id, the service as server, the method and the request bytes. |
| `RpcEndpoints.RpcChannel.OnMessage` | src/communication/net/protorpc/rpc_channel.cc:60-108 | The loop on the buffer applies every decoded reply in order and leaves the decoder's left-over in the same storage. |
| `RpcEndpoints.RpcChannel.Complete` | src/communication/net/protorpc/rpc_channel.cc:73-93 | One reply takes its entry out of the table and completes it; an unknown id changes nothing. |
| `RpcEndpoints.RpcServer.OnMessage` | src/communication/net/protorpc/rpc_server.cc:40-68 | The loop starts every decoded request in order, once, and leaves the decoder's left-over. |
| `RpcEndpoints.RpcServer.OnCallbackDone` | src/communication/net/protorpc/rpc_server.cc:91-112 | Requests finish in any order; the finished one leaves and on a live connection exactly one encoded frame is sent, which carries its id and the response bytes. |
| `RpcProtocol.DispatchKeeps` | src/communication/net/protorpc/rpc_server.cc:42-58 | In any state of one direction of the connection the frame dispatched is the next one sent. |
| `RpcProtocol.NeverFaults` | src/communication/net/protorpc/rpc_channel.cc:60-108 | With only encoded frames on the way no decoder leaves its defined behaviour. |
| `RpcProtocol.StepKeeps` | src/communication/net/protorpc/rpc_channel.cc:25-108 | Each of: call, delivery of any number of bytes, dispatch, completion of any running request, reply dispatch keeps the protocol invariant. |
| `RpcProtocol.ReachableInv` | src/communication/net/protorpc/rpc_server.cc:40-112 | The invariant holds in every state reachable by any interleaving. |
| `RpcProtocol.OutIsInFlight` | src/communication/net/protorpc/rpc_channel.cc:47-83 | out_ holds exactly the ids whose request is on the wire, buffered or running or whose reply is on the wire or buffered; the bytes in transit are exactly those frames. |
| `RpcProtocol.ExactlyOnce` | src/communication/net/protorpc/rpc_channel.cc:73-93 | In every reachable state no call has completed twice and a call is outstanding exactly if it has not completed. |
| `RpcProtocol.RequestsCarryTheirCalls` | src/communication/net/protorpc/rpc_channel.cc:32-45 | In every reachable state each request sent, running or answered carries the service, the method and the request bytes of the call with its id. |
| `RpcProtocol.RightResponse` | src/communication/net/protorpc/rpc_channel.cc:85-93 | A completed call carries the response the service gave to the request of that id, and its done ran exactly if it came with one. |
| `RpcProtocol.QuietIsDone` | src/communication/net/protorpc/rpc_channel.cc:62-71 | Once nothing moves any more every call has completed if and only if neither the last request nor the last reply has an empty payload; at most two calls are ever stuck. |
| `RpcProtocol.EmptyRequestStalls` | src/communication/net/protorpc/rpc_server.cc:45 | The concrete run in which a first call with an empty request is received in full and never served. |
| `RpcProtocol.ChannelLoopIsARun` | src/communication/net/protorpc/rpc_channel.cc:60-108 | A whole onMessage loop at the client is a run of single dispatch steps, so method and machine agree. |
| `RpcProtocol.ServerLoopIsARun` | src/communication/net/protorpc/rpc_server.cc:40-68 | Likewise at the server. |
| `Heaps.FrontIsEarliest` | src/base/Timer.h:36-39 | The front of a heap has the earliest deadline. |
| `Heaps.PushHeap` | src/base/Timer.cpp:48 | push_heap: sifting up makes a heap of the same elements. |
| `Heaps.PopHeap` | src/base/Timer.cpp:125 | pop_heap: the earliest timer ends up last, the others are a heap, nothing is lost. |
| `Heaps.MakeHeap` | src/base/Timer.cpp:161 | make_heap: any order becomes a heap of the same elements. |
| `Heaps.SiftDown` | src/base/Timer.cpp:161 | Sifting down repairs the heap property at one node and touches nothing behind the range. |
| `Timers.TimerManager.AddTimer` | src/base/Timer.cpp:39-63 | The heap gains exactly the new timer, with the given id or the next one, which is then used up. |
| `Timers.TimerManager.DeleteTimer` | src/base/Timer.cpp:65-116 | Exactly the timer with the id goes, none when there is none, the array is a heap again and the caller's id is cleared. |
| `Timers.TimerManager.RunLocked` | src/base/Timer.cpp:118-162 | One tick: due timers fire in deadline order, none before an earlier one that stays, until nothing is due or an action deleted its own timer; repeats come back; the array is a heap again; the loop terminates. |
| `Timers.TimerManager.PopTop` | src/base/Timer.cpp:125-126 | The popped timer is the earliest and still to fire; if it is not due the tick is complete. |
| `Timers.TimerManager.Fire` | src/base/Timer.cpp:129-151 | Running, removing and re-adding one timer changes the heap by exactly that timer, also when its action deleted it. |
| `Timers.TimerManager.RunAction` | src/base/Timer.cpp:130 | A self-deleting action removes exactly the popped timer and leaves no timer with its id. |
| `Timers.TimerManager.Find` | src/base/Timer.cpp:133 | The first timer with the id, or the end. |
| `Timers.TickOutcome` | src/base/Timer.cpp:127-159 | After a tick the timers are exactly those that did not fire plus the fired repeats that did not delete themselves, rescheduled to timeline + interval; no timer fires twice; without a self-delete exactly the due ones fire. |
| `Timers.ReturnsIff` | src/base/Timer.cpp:147-151 | What comes back after a firing: a repeat that did not delete itself, with the same id, interval and action, due one interval after the tick. |
| `TimerRuns.AddRefines` | src/base/Timer.cpp:39-63 | Adding to the heap is adding one entry to a plain map of timers. |
| `TimerRuns.DeleteRefines` | src/base/Timer.cpp:65-116 | Deleting from the heap is deleting one entry of that map. |
| `TimerRuns.TickRefinesPass` | src/base/Timer.cpp:118-162 | A tick of the heap is a pass over that map in which each due timer fires once. |
| `TimerRuns.NextPromise` | src/base/Timer.cpp:147-151 | A repeating timer's next promised time after firing is exactly one interval later, with none between. |
| `TimerRuns.PromisedTimes` | src/base/Timer.h:28-35 | The promised times are first, first + d, first + 2d and so on. |
| `TimerRuns.StepKeeps` | src/base/Timer.cpp:39-172 | Adds and deletes falling anywhere between the locked run and the advance of the timeline keep every timer on its promise. |
| `TimerRuns.FiresExactlyAsPromised` | src/base/Timer.cpp:39-172 | In every run a timer has fired at exactly its promised times, up to the next pass or up to the pass before which it was deleted: no drift, nothing missed, nothing else. |
| `TimerRuns.RunsItsAction` | src/base/Timer.cpp:129-151 | Every firing of a timer, first or repeated, runs the action it was added with. |
| `TimerDelays.StepKeeps` | src/base/Timer.cpp:39-172 | With actions that delete their own timer, every step keeps each timer and each firing late only by ended ticks. |
| `TimerDelays.LateBySelfDeletesOnly` | src/base/Timer.cpp:118-172 | In every run no timer fires before its deadline, and late by at most the number of ticks that self-deletions ended since; exactly on time without any. |
| `TimerDelays.OverdueBySelfDeletesOnly` | src/base/Timer.cpp:118-172 | A timer still in the heap is overdue by at most as many ticks: nothing is missed. |
| `TimerDelays.NotTwice` | src/base/Timer.cpp:147-151 | Two firings of one timer are at least its interval apart, and only a repeat fires again. |
| `EventLoops.RunKeeps` | src/communication/EventLoop.cpp:98-238 | Under every interleaving of loop steps with pushes and eventfd writes of other threads the wake-up invariant holds. |
| `EventLoops.FifoExactlyOnce` | src/communication/EventLoop.cpp:223-238 | Executed functors, rest of the batch and pending functors are together the pushes in order; an iteration runs everything pushed before its poll returned. |
| `EventLoops.EventLoop.QueueInLoop` | src/communication/EventLoop.cpp:152-163 | On the loop thread the functor is queued last and the eventfd written exactly while functors are being called; a run of the machine. |
| `EventLoops.EventLoop.DoPendingFunctors` | src/communication/EventLoop.cpp:223-238 | The batch is the whole queue, run in order; what it spawns is queued in order and each spawn signalled; a run of the machine. |
| `EventLoops.EventLoop.PollAndHandle` | src/communication/EventLoop.cpp:108-120 | The eventfd is drained exactly when readable; functors queued by callbacks are kept in order. |
| `EventLoops.EventLoop.Round` | src/communication/EventLoop.cpp:106-122 | One iteration executes old pending functors and those queued by callbacks, in order, and leaves one wake-up per functor still pending; or leaves the loop on quit without running anything. |
| `EventLoops.EventLoop.QuitLoop` | src/communication/EventLoop.cpp:128-138 | The flag is set, the eventfd written exactly from another thread. |
| `EventLoops.NoLostWakeup` | src/communication/EventLoop.cpp:152-163 | About to poll with more functors pending than the loop thread queued before loop(), the eventfd is readable or a producer is between push and write. |
| `EventLoops.NoLostQuit` | src/communication/EventLoop.cpp:128-138 | A quit after the last entry into loop() keeps its flag and is never slept through. |
| `EventLoops.QuitHoldsIff` | src/communication/EventLoop.cpp:98-106 | A quit followed by no other holds if and only if loop() is not entered after it. |
| `EventLoops.EventLoop.TakeQueue` | src/communication/EventLoop.cpp:225-231 | The locked swap: the batch is the whole queue, the queue is empty; a run of the machine. |
| `EventLoops.OutsideSignalledIff` | src/communication/EventLoop.cpp:152-163 | Under every interleaving outside an iteration, up to the next return of poll, the loop is signalled exactly if it was before or another thread queues a functor or quits; what the loop thread queues does not count. |
| `EventLoops.EarlyTaskIsSignalledIff` | src/communication/EventLoop.cpp:159-162 | The exception is exact: a functor queued on the loop thread outside loop() is still pending at the first poll, and wakes it if and only if, under whatever interleaving, the loop was signalled before or another thread queues or quits. |
| `EventLoops.EarlyTaskSleeps` | src/communication/EventLoop.cpp:159-162 | The concrete run without other threads: the first poll sleeps over the functor. |
| `StreamConnections.StreamConnection.TryWrite` | src/communication/net/StreamConnection.cpp:148-171 | The direct write happens only with nothing buffered; taken part plus rest is the message; the peer counts as gone exactly on errno 32 or 104, and write-complete comes exactly when all is taken. |
| `StreamConnections.StreamConnection.BufferRest` | src/communication/net/StreamConnection.cpp:174-187 | The rest is buffered behind what is there, and writing is enabled exactly when the buffer is non-empty. |
| `StreamConnections.StreamConnection.ForceClose` | src/communication/net/StreamConnection.cpp:211-219 | An open connection starts disconnecting and queues its close; otherwise nothing happens. |
| `StreamConnections.StreamConnection.ConnectEstablished` | src/communication/net/StreamConnection.cpp:299-308 | A connecting connection becomes connected and listens for reads. |
| `StreamConnections.StreamConnection.RunForceClose` | src/communication/net/StreamConnection.cpp:234-242 | The queued close closes an open connection and leaves a closed one alone. |
| `StreamConnections.StreamConnection.HandleClose` | src/communication/net/StreamConnection.cpp:381-394 | The connection is disconnected, nothing stays enabled, the close callback runs once, accepted bytes are still written ++ buffered; the channel is watched afterwards exactly if it was not before. |
| `StreamConnections.StreamConnection.HandleRead` | src/communication/net/StreamConnection.cpp:323-342 | Read bytes follow the unconsumed input; end of file closes, and only that requires the connection to be open; an error changes nothing. |
| `StreamConnections.StreamConnection.StartReadInLoop` | src/communication/net/StreamConnection.cpp:274-282 | Reading is on afterwards, also on a closed connection; the channel is refreshed exactly if it was not on. |
| `StreamConnections.StreamConnection.StopReadInLoop` | src/communication/net/StreamConnection.cpp:289-297 | Reading is off afterwards; on a channel not watched this registers the descriptor with an empty mask. |
| `StreamConnections.StreamConnection.SendInLoop` | src/communication/net/StreamConnection.cpp:137-188 | Bytes written plus output buffer stay the accepted messages in order; a message is dropped exactly on a closed connection, or with nothing buffered and errno 32 or 104; write-complete is queued exactly when the direct write takes all, high-water exactly on crossing the mark; the step of the sending machine. |
| `StreamConnections.StreamConnection.HandleWrite` | src/communication/net/StreamConnection.cpp:344-379 | What the kernel takes moves from the buffer to the written bytes; write-complete and the pending half-close come exactly when the buffer drains; the step of the sending machine. |
| `StreamConnections.StreamConnection.BusyIsWriting` | src/communication/net/StreamConnection.cpp:182-186 | The channel is writing exactly while something accepted is unwritten on an open connection. |
| `StreamConnections.StreamConnection.Shutdown` | src/communication/net/StreamConnection.cpp:190-199 | A connected connection starts disconnecting; on the loop thread it is half-closed at once exactly if nothing is left to write, on another the half-close is queued; the step of the sending machine. |
| `StreamConnections.StreamConnection.ShutdownInLoop` | src/communication/net/StreamConnection.cpp:201-209 | In any state the write side is shut down exactly if the channel is not writing; the step of the sending machine. |
| `Sendings.SendStepKeeps` | src/communication/net/StreamConnection.cpp:137-242 | Sending with any result of write, draining, shutdown, queued half-close, forced close and close keep the written bytes a prefix of the accepted ones and every announcement true. |
| `Sendings.AnnouncedOnlyWhenWritten` | src/communication/net/StreamConnection.cpp:137-209 | Along every run each write-complete, and each half-close before the close, came with every accepted byte written, and a shutdown on the loop thread is carried out as soon as nothing is left to write. |
| `Sendings.AcceptedIff` | src/communication/net/StreamConnection.cpp:143-187 | A message is not accepted if and only if the connection is disconnected, or nothing was buffered and write failed with errno 32 or 104; otherwise it follows what was accepted before. |
| `Sendings.AcceptedAreMessages` | src/communication/net/StreamConnection.cpp:137-188 | Along every run exactly those messages have been accepted, in order. |
| `Sendings.DrainAnnounces` | src/communication/net/StreamConnection.cpp:344-379 | Bytes the kernel takes from the buffer are the next ones, and the write that takes the last announces write-complete, then the half-close of a disconnecting connection. |
| `Sendings.HalfClosesIff` | src/communication/net/StreamConnection.cpp:190-209 | A shutdown on the loop thread, or one queued by another, half-closes exactly if nothing accepted is unwritten on an open connection. |
| `ConnectionLives.AssertsHold` | src/communication/net/StreamConnection.cpp:381-394 | No possible step from a state with the invariant runs into a failing assert: close on an open connection, erase of exactly one entry, quiet known channel at destruction, disconnected and removed at release. |
| `ConnectionLives.StepKeeps` | src/communication/net/StreamServer.cpp:58-104 | Every careful step (accept, poll of any watched channel, each callback of an event, queued functors, user calls between any two of them) keeps the lifecycle invariant. |
| `ConnectionLives.Lifecycle` | src/communication/net/StreamServer.cpp:89-104 | After every careful run the map is exactly the connections not yet closed, no close callback has run twice, a closed connection is destroyed once or queued for it, and whatever step comes next, careful or not, its own asserts hold. |
| `ConnectionLives.RunAdvances` | src/communication/net/StreamConnection.cpp:190-242 | Along every run at all each connection's state only advances. |
| `ConnectionSteps.StateMoves` | src/communication/net/StreamConnection.cpp:190-242 | Exactly which steps move a connection on: a shutdown or forced close of a connected one starts its end; a hang-up, a read at the end of the stream and a queued forced close end an open one, with one close callback and its entry gone from the map. |
| `ConnectionSteps.InterestMoves` | src/communication/net/StreamConnection.cpp:182-186 | Exactly which careful steps switch what a connection asks the poller for: reads by start and stop, writes by sending and draining, both off at its close; its channel leaves the poller exactly at its destruction. |
| `ConnectionSteps.QueueMoves` | src/communication/net/StreamConnection.cpp:211-242 | What is queued for the end of the iteration, one forced close for a forceClose of an open connection and one destruction for a close, is carried out in that order, one functor after the other, and nothing else is. |
| `ConnectionSteps.ReadsIffWanted` | src/communication/net/StreamConnection.cpp:269-308 | In every careful run an open connection asks for reads exactly if the last startRead or stopRead since its accept says so. |
| `ConnectionFailures.CarefulIff` | src/communication/net/StreamConnection.cpp:234-321 | The next step is careful if and only if no careful continuation runs into a failing assert: care, a condition on the state before each step, is the weakest discipline that keeps every assert and closes nothing twice. |
| `ConnectionFailures.EventSafeIff` | src/communication/Channel.cpp:86-126 | The rest of an event keeps the asserts if and only if it closes no oftener than its connection can still be closed. |
| `ConnectionFailures.OneEventIff` | src/communication/Channel.cpp:86-126 | An event on an open connection makes the assert of handleClose fail if and only if it is a hang-up without IN but with PRI or RDHUP and the read finds the end of the stream. |
| `ConnectionFailures.BrinkFails` | src/communication/net/StreamConnection.cpp:284-321 | From any loop state a closed connection that is still watched, and not destroyed before the next poll or with reading enabled, leads to a failing assert. |
| `ConnectionFailures.StopReadThenForceClose` | src/communication/net/StreamConnection.cpp:211-242 | The concrete run (stopRead, forceClose) in which the queued close registers the channel again and a later hang-up closes a second time. |
| `ConnectionFailures.ShutdownThenDestructor` | src/communication/net/StreamServer.cpp:36-47 | Two concrete runs before the destructor: after shutdown the channel still listens; after shutdown and stopRead the connection is destroyed while not disconnected. |
| `StreamServers.StreamServer.NewConnection` | src/communication/net/StreamServer.cpp:58-87 | A new connection enters the map, connected and watched for reads, under the next number; the assert of connectEstablished holds. |
| `StreamServers.StreamServer.RemoveConnectionInLoop` | src/communication/net/StreamServer.cpp:95-104 | Exactly one entry is erased and the destruction queued. |
| `StreamServers.StreamServer.HandleClose` | src/communication/net/StreamConnection.cpp:381-394 | Disconnected, nothing enabled, close callback and removal done; its asserts are the preconditions. |
| `StreamServers.StreamServer.RunCallback` | src/communication/Channel.cpp:86-126 | One callback of an event is the machine's step. |
| `StreamServers.StreamServer.HandleEvent` | src/communication/Channel.cpp:86-126 | A whole event on a polled channel, its callbacks in order, keeps the invariant and is the machine's steps. |
| `StreamServers.StreamServer.RunFunctor` | src/communication/EventLoop.cpp:233-236 | The first queued forced close or destruction is carried out with its asserts. |
| `StreamServers.StreamServer.ConnectDestroyed` | src/communication/net/StreamConnection.cpp:310-321 | The channel is found known and without events and leaves the poller. |
| `StreamServers.StreamServer.Shutdown` | src/communication/net/StreamConnection.cpp:190-199 | A connected connection becomes disconnecting; any other is left alone. |
| `StreamServers.StreamServer.ForceClose` | src/communication/net/StreamConnection.cpp:211-219 | An open connection becomes disconnecting with its close queued. |
| `ConnectionLives.DestructorSafeIff` | src/communication/net/StreamServer.cpp:36-47 | Destroying the server runs into no failing assert, those of the loop and of the destructors of connections, acceptor and channels included, if and only if every connection in the map is connected and, inside an event, neither the listening socket nor any of them was polled in the same round except the one being handled. |
| `ConnectionFailures.DestructorInsideEvent` | src/communication/EventLoop.cpp:178-188 | The concrete run: the server is destroyed in the read callback of one of two polled connections, and the other may not be removed. |
| `ConnectionFailures.DestructorInsideAccept` | src/communication/net/StreamServer.cpp:58-87 | The concrete run: the server is destroyed inside an accept, while the accept channel is being handled. |
| `StreamServers.StreamServer.Destruct` | src/communication/net/StreamServer.cpp:36-47 | Under exactly that condition the loop over the map destroys each connection once and no other, with the asserts of the loop and the channels, and every one can then be released. |
| `EPollPollers.EPollPoller.EpollCtl` | src/communication/EPollPoller.cpp:177 | epoll_ctl as the kernel defines it: ADD of a registered and MOD or DEL of an unregistered descriptor fail. |
| `EPollPollers.EPollPoller.Update` | src/communication/EPollPoller.cpp:169-188 | The call never fails, and the kernel set changes as asked. |
| `EPollPollers.EPollPoller.UpdateChannel` | src/communication/EPollPoller.cpp:105-146 | Main result with the next two: all asserts hold, epoll_ctl does not fail, and map, kernel set, mask and three-valued index of every channel agree again. |
| `EPollPollers.EPollPoller.RemoveChannel` | src/communication/EPollPoller.cpp:148-167 | The channel leaves map and kernel set and is new again; its asserts hold and every channel agrees. |
| `EPollPollers.Channel.Update` | src/communication/Channel.cpp:56-60 | After any change of mask the poller agrees with the kernel about every channel, and this one is registered. |
| `EPollPollers.AgreesWithKernel` | src/communication/EPollPoller.cpp:105-188 | What agreement means for one channel: watched by the kernel exactly if kAdded and then for its own mask, in the map exactly if kAdded or kDeleted, and watched whenever an event is enabled. |
| `EPollPollers.KernelReports` | src/communication/Channel.cpp:24-25 | For a watched channel the mask in the kernel has bits 0x1 and 0x2 exactly if it is reading and 0x4 exactly if it is writing; an event is within that mask, errors and hang-ups exactly if the connection machine takes it for possible. |
| `EPollPollers.DispatchedIff` | src/communication/Channel.cpp:86-126 | Which callbacks one event runs, bit by bit, and in which order: close, error, read, write, each at most once. |
| `EPollPollers.Channel.constructor` | src/communication/Channel.cpp:27-38 | A new channel, also on a descriptor a removed channel still names, starts with no events and disturbs nothing. |
| `EPollPollers.Channel.EnableReading` | src/communication/Channel.h:80-84 | The mask gains the read event and the channel is reading, writing is unchanged, the descriptor is watched. |
| `EPollPollers.Channel.DisableReading` | src/communication/Channel.h:85-89 | The mask loses the read event and the channel is not reading, writing is unchanged, and the index follows. |
| `EPollPollers.Channel.EnableWriting` | src/communication/Channel.h:90-94 | The mask gains the write event and the channel is writing, reading is unchanged, the descriptor is watched. |
| `EPollPollers.Channel.DisableWriting` | src/communication/Channel.h:95-99 | The mask loses the write event, reading is unchanged, and the index follows. |
| `EPollPollers.Channel.DisableAll` | src/communication/Channel.h:100-104 | No event stays enabled; the descriptor is watched afterwards exactly when it was not before, so a second disableAll registers it again with an empty mask. |
| `EPollPollers.Channel.Remove` | src/communication/Channel.cpp:62-67 | The channel leaves poller and kernel and counts as not added. |
| `EPollPollers.Channel.Destroy` | src/communication/Channel.cpp:40-48 | A channel not added to the loop can be destroyed: nothing refers to it. |
| `CrcTheory.FeedAppend` | src/communication/serial/Serial.cpp:367-396 | Processing two bit strings in turn is processing their concatenation. |
| `CrcTheory.FeedInjective` | src/communication/serial/Serial.cpp:377-393 | With the same input bits, different register states stay different: each bit step is a bijection. |
| `CrcTheory.FeedLinear` | src/communication/serial/Serial.cpp:377-393 | The register is linear over xor in state and input together. |
| `CrcTheory.FeedIsShifts` | src/communication/serial/Serial.cpp:377-393 | Feeding up to 32 bits one by one is xoring them in at the top and shifting that often. |
| `CrcTheory.BurstDetected` | src/communication/serial/Serial.cpp:367-396 | From any state, bit strings differing in one burst of at most 32 bits leave different registers. |
| `CrcTheory.DivisionIdentity` | src/communication/serial/Serial.cpp:365 | Dividend = quotient times generator xor remainder, over polynomials modulo 2. |
| `CrcTheory.DivisionUnique` | src/communication/serial/Serial.cpp:365 | Quotient and remainder of degree below 32 are the only ones with that property. |
| `CrcTheory.FeedIsRemainder` | src/communication/serial/Serial.cpp:377-393 | The register after a bit string is the remainder of the seed-adjusted string times x^32 by the generator. |
| `SerialCrc.GetCrcCheck` | src/communication/serial/Serial.cpp:358-399 | The nested loops on 32-bit words compute the CRC of the register model, for every buffer including a short last word. |
| `SerialCrc.GatherWord` | src/communication/serial/Serial.cpp:372-375 | Up to four bytes gather into a little-endian word. |
| `SerialCrc.WordBits` | src/communication/serial/Serial.cpp:372-375 | Bit 8q + r of the gathered word, from the top, is bit 7 - r of byte 3 - q, and false where there is no such byte. |
| `SerialCrc.MessageBits` | src/communication/serial/Serial.cpp:367-396 | Bit 32w + 8q + r of the processed message is bit 7 - r of byte 4w + 3 - q of the buffer, and false past its end. |
| `SerialCrc.SeedIsOnes` | src/communication/serial/Serial.cpp:360 | The seed is 32 ones, and so is the CRC of an empty buffer. |
| `CrcTheory.GeneratorSpelled` | src/communication/serial/Serial.cpp:365 | The generator is x^32 + x^26 + x^23 + x^22 + x^16 + x^12 + x^11 + x^10 + x^8 + x^7 + x^5 + x^4 + x^2 + x + 1. |
| `SerialCrc.FeedWord` | src/communication/serial/Serial.cpp:377-393 | The 32 rounds with the moving mask feed the word most significant bit first. |
| `SerialCrc.Round` | src/communication/serial/Serial.cpp:379-391 | One round on machine words is one step of the bit register. |
| `SerialCrc.WordUpdate` | src/communication/serial/Serial.cpp:377-393 | A word at a time: xor the word in, then 32 feedback shifts. |
| `SerialCrc.DetectsBurst` | src/communication/serial/Serial.cpp:358-399 | Two equally long buffers whose difference is non-zero and confined to 32 consecutive bits in processing order never have the same CRC. |
| `SerialCrc.IsRemainder` | src/communication/serial/Serial.cpp:358-399 | The CRC is the remainder modulo 0x04C11DB7 (with x^32) of the message times x^32 with the seed xored in front. |
| `SerialCrc.Continues` | src/communication/serial/Serial.cpp:367-396 | The CRC of a buffer continues from that of any front part whose length is a multiple of 4. |
| `SerialCrc.MessageXor` | src/communication/serial/Serial.cpp:372-375 | Processing order commutes with byte-wise xor of equally long buffers. |
| `SerialCrc.Affine` | src/communication/serial/Serial.cpp:358-399 | The CRC of the xor of three equally long buffers is the xor of their CRCs. |
| `SerialCrc.BitsInjective` | src/communication/serial/Serial.cpp:360 | Different machine words have different bit registers. |
| `Connectors.BackoffDoubles` | src/communication/net/Connector.cpp:254 | Doubling and capping the delay gives the closed form min(500 * 2^k, 30000). |
| `Connectors.StepKeeps` | src/communication/net/Connector.cpp:44-260 | Every step of the connector keeps socket ledger, channel bookkeeping and delays. |
| `Connectors.SocketLedger` | src/communication/net/Connector.cpp:44-260 | In every reachable state a socket neither closed nor handed over exists exactly while connecting and is the channel's; every other one was closed once or handed over once, never both; the k-th retry waits min(500 * 2^k, 30000) ms. |
| `Connectors.EventIsSafe` | src/communication/net/Connector.cpp:170-218 | Whatever one event carries, error and write together included, the assert of handleWrite holds. |
| `Connectors.EventIsTwoCallbacks` | src/communication/Channel.cpp:86-126 | One event amounts to an optional handleError followed by an optional handleWrite. |
| `Connectors.OutcomeOfErrno` | src/communication/net/Connector.cpp:91-130 | Which errno of connect leaves the attempt in progress, is tried again, or gives it up, by number. |
| `Connectors.AttemptMade` | src/communication/net/Connector.cpp:44-62 | Start, restart and a retry timer open one socket exactly if a connection is wanted; it is watched while in progress, closed otherwise, and retried after the current delay exactly on an errno that may be tried again. |
| `Connectors.EventSettles` | src/communication/net/Connector.cpp:170-238 | What one event does to the watched socket: an error closes it, and so does a write unless it is usable and wanted, when it is handed over; what fails while a connection is wanted is retried after the current delay. |
| `Connectors.HandedExactlyIfWelcome` | src/communication/net/Connector.cpp:199-211 | Over whole runs a socket was handed over exactly if a usable write event came for it while a connection was wanted, and at most once. |
| `Connectors.BecomesConnected` | src/communication/net/Connector.cpp:197-211 | A connector that becomes connected has handed over its last socket if it wanted the connection, and closed it otherwise. |
| `Connectors.NoAttemptAfterStop` | src/communication/net/Connector.cpp:64-69 | After a stop no socket is opened and no retry asked for until the next start or restart. |
| `Connectors.StopEndsAttempts` | src/communication/net/Connector.cpp:64-80 | Once the queued half of a stop has run, nothing is connecting until the next start or restart. |
| `Connectors.RestartBeginsAnew` | src/communication/net/Connector.cpp:133-140 | A restart opens one socket and counts delays from 500 ms again. |
| `Connectors.ConnectingAssertIff` | src/communication/net/Connector.cpp:142-146 | When not connecting, the assert of connecting would hold if and only if no channel reset is queued. |
| `Connectors.RestartFromCallback` | src/communication/net/Connector.cpp:133-140 | The run in which restart from the new-connection callback comes before that reset. |
| `Connectors.Connector.Start` | src/communication/net/Connector.cpp:44-48 | The start step, sockets and delays included. |
| `Connectors.Connector.StartInLoop` | src/communication/net/Connector.cpp:50-62 | Connects exactly if asked to; its assert is the precondition. |
| `Connectors.Connector.StopInLoop` | src/communication/net/Connector.cpp:71-80 | A connecting attempt is given up and its socket closed. |
| `Connectors.Connector.Connect` | src/communication/net/Connector.cpp:82-131 | For every errno of connect a new socket is connecting, closed with a retry, or just closed, by its class. |
| `Connectors.Connector.Restart` | src/communication/net/Connector.cpp:133-140 | Delay and history start over and a new attempt is made. |
| `Connectors.Connector.ResetChannel` | src/communication/net/Connector.cpp:165-168 | The channel is gone. |
| `Connectors.Connector.HandleWrite` | src/communication/net/Connector.cpp:170-218 | A connecting socket is handed over exactly if it is usable and the connection wanted, and closed otherwise, with a retry if it is not usable; otherwise nothing; its assert is the precondition. |
| `Connectors.Connector.HandleError` | src/communication/net/Connector.cpp:220-238 | A connecting socket is closed and retried; otherwise nothing. |
| `Connectors.Connector.Retry` | src/communication/net/Connector.cpp:240-260 | The socket is closed, the delay asked for and doubled up to the cap exactly while connecting is wanted. |
| `Connectors.Connector.HandleEvent` | src/communication/Channel.cpp:86-126 | The whole event is the machine's step. |
| `Connectors.TimerFindsDisconnected` | src/communication/net/Connector.cpp:50-53 | In every run in which start is never called while a retry is pending, a retry timer finds the connector disconnected and is the only one pending. |
| `Connectors.StartSafeIff` | src/communication/net/Connector.cpp:44-53 | The exact condition at a call of start: no timer can ever fire in the wrong state afterwards if and only if none is pending at the call, or the new attempt ends in an error that is not retried. |
| `Connectors.SecondStart` | src/communication/net/Connector.cpp:44-53 | A concrete case: a second start while a retry is pending leads to the failing assert of startInLoop. |
| `BlockingQueues.StepKeeps` | src/base/BlockingQueue.h:36-63 | Put, take, resumption and spurious wake-up keep the monitor invariant. |
| `BlockingQueues.NoLostWakeup` | src/base/BlockingQueue.h:36-63 | In every reachable state taken items followed by the queue are the puts in order, and while a consumer waits un-notified there are at most as many items as notified consumers still to run, so one is ready whenever the queue is not empty. |
| `BlockingQueues.NotifiedDrain` | src/base/BlockingQueue.h:51-63 | Letting the notified consumers run empties the queue. |
| `BlockingQueues.BlockingQueue.Put` | src/base/BlockingQueue.h:36-49 | The item goes last and one waiting consumer, if any, is notified. |
| `BlockingQueues.BlockingQueue.Take` | src/base/BlockingQueue.h:51-63 | A consumer gets the front or starts waiting exactly when the queue is empty. |
| `BlockingQueues.BlockingQueue.Resume` | src/base/BlockingQueue.h:55-62 | A woken consumer tests again and gets the front or waits again. |
| `BlockingQueues.BlockingQueue.TestQueue` | src/base/BlockingQueue.h:55-62 | The loop's test and the removal of the front under the lock. |

## Left out

- System calls: Socket, InetAddress, Acceptor, datagram and multicast classes, serial port set-up. Results of write, readv, connect, getsockopt and epoll_ctl are parameters or follow the kernel's rules; sockets are numbered as they are opened.
- Logging, real time, sleeping, signals, thread creation, component start-up, shared and weak pointer lifetimes, samples, third-party headers.
- The rest of the generated protobuf code: arenas, descriptors, reflection, UTF-8 checks; bytes read past the end of a string within the library's slop region.
- RpcMetas.ParseField: unknown fields and unusual tags, which the library (not part of this model) skips or stops at, make the field fail.
- RpcMetaMessages.Message.ParseFromString: the same.
- RpcMetaMessages.Message.InternalParse: the same; a tag 0 or an end-group tag ends the parse unsuccessfully in both.
- RpcMetaMessages.Message.ParseFieldAt: the same.
- Services: a request is started and later answered with arbitrary bytes; the lookup in `services_`, unknown services and routing of replies to several clients are not modelled.
- Framing.DecodeOne: a negative meta length that passes the unsigned comparison, a negative data_size, and lengths whose sum leaves int are one outcome `Fault`, where the programs throw std::length_error or misbehave; the channel misbehaves on a negative data_size only if the id is outstanding. Comparing the int length with the unsigned byte count makes a negative sum wait, as in the code.
- RpcEndpoints.RpcChannel.CallMethod: one step; the unsynchronised increment of `index_` by concurrent callers is not modelled, and requests are valid frames below 2^31 bytes.
- RpcEndpoints.RpcChannel.OnMessage: parsing the payload into the response object is not modelled; the payload bytes are what completes.
- RpcServer's answers come in a later step, also when a service runs done at once.
- Buffers.Buffer.AppendInt: `htobe` is taken as most significant byte first whatever the host's order; chars are bytes 0 to 255.
- Buffers.Buffer.Shrink: with a negative int length the append throws or overruns; the model says only that the buffer itself is then unchanged.
- findCRLF, findEOL, retrieveUntil, StringPiece comparisons and SplitString: easy members beside the above.
- Timers: `isStart_` stays true; actions that add timers or delete other timers on the timer thread, which would break the `pop_back` that follows, are excluded, as are repeats with interval 0. Ids stay below 2^31, so the cast to int does not lose any. The vector is a sequence field.
- TimerRuns.FiresExactlyAsPromised: for runs in which no action deletes a timer; deletes from other threads are included. Runs with self-deleting actions are in TimerDelays.
- EventLoop: the eventfd counter is unbounded, and a failing read or write of it is not modelled. The class runs the loop without interference; interference of other threads is in the machine.
- StreamConnections.StreamConnection.Shutdown: the check and the change of the state are one step; the check-then-set race across threads, marked FIXME in the source, is not modelled. `forceCloseWithDelay` is not modelled.
- StreamConnection and the connections of ConnectionLives keep the channel's interest as a value; that Channel and EPollPoller treat it so is in EPollPollers.
- StreamServers.StreamServer.HandleEvent: one event without user calls from its callbacks; with them, see RunCallback. Connections are named by their number and kept as values; one loop; user calls that start or stop reading or send run on the loop thread. The half-close queued by shutdown on another thread, which keeps a raw pointer, is in StreamConnection only.
- ConnectionLives.DestructorSafeIff: the server is destroyed on its loop thread; user calls made by the connection callback inside handleClose come after the close callback, so destroying the server there, which would then be called back, is not modelled.
- EPollPollers.EPollPoller.Update: epoll_ctl fails only with EEXIST or ENOENT; two registered channels never share a descriptor, which is the assert for new channels.
- EPollPollers.Channel.Remove: the assert of `EventLoop::removeChannel` about active channels is not part of the poller; for connections and the accept channel it is in ConnectionLives.
- Serial: `sendInLoop` and `handleWrite`, a second instance of the output-buffer discipline. `ComponentBase::getCrcCheck`, the same CRC loop on plain char.
- SerialCrc.DetectsBurst: the burst is measured in processing order (little-endian words, most significant bit first), not in byte order on the wire.
- Connectors.Connector.HandleEvent: SO_ERROR and the self-connection test are one parameter, and so is the errno of connect. A failing `socket` call, which is fatal, is not modelled; `start` and its `startInLoop` are one step.
- BlockingQueues.BlockingQueue.Take: a take that waits returns nothing and is continued by Resume, so that each section under the lock is one step; both overloads of `put` are one.
