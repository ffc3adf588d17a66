# A verified model of the framed, multiplexed messaging protocol

The repository moves messages between clients and servers over one byte stream per connection. A
message is a frame: a 16-byte big-endian header (length, stream id, sequence number, checksum) and a
payload. This project models the protocol in four layers, composes them, and proves what each layer
and the compositions promise.

1. **Codec and parsers** (`Words.dfy`, `Frames.dfy`, `Picking.dfy`, `Parser.dfy`, `Links.dfy`). 32-bit arithmetic,
   `serialize`/`deserialize`, the additive checksum, the cursor parser of `FrameParser::processData`,
   the erase-from-front parser inlined in `server.cpp`, and the append/parse/erase read loops. The main
   facts are that framing does not depend on how the bytes are cut, that parsing loses nothing, that
   the parsers agree, and exactly which damage the checksum detects.
2. **Numbered streams and the reorder buffer** (`Reorder.dfy`, `StreamManager.dfy`, `Endpoints.dfy`,
   `EndToEnd.dfy`, `Delivery.dfy`, `Progress.dfy`). The sorted-map drain loop, as code and against an
   independent specification (smallest missing number); the classes that hold the queues; and a step
   system with any number of sender threads, both writers, both readers and bytes in flight, in which
   any interleaving and any chunking is possible. Delivery is proved in order and exactly once in every
   state of every run, complete once a stream has drained, and free of deadlock, with a bound on the
   number of steps left.
3. **Request/response correlation** (`Correlation.dfy`, `Echo.dfy`, `EchoAnswers.dfy`, `EchoProgress.dfy`,
   `Garbled.dfy`). Callers that
   share one socket, the reader thread, time-outs, failed writes and disconnect race each other.
   `Correlation` makes no assumption about the server. `Echo` adds locked writes with short sends, the
   echo server with its batching writer, and bytes in flight: an answer is the fixed prefix and the
   caller's own payload, and at rest nobody is left waiting, for every request written before the line
   was garbled, that is, before a write put bytes behind those of another that had failed partway.
   `Garbled` has a run that shows why it must be. What an answer is on any line, garbled or not, follows
   exactly from what the bytes on the wire parse to. A working system that can do nothing by itself has
   returned from all these calls, and gets there in a bounded number of steps.
4. **Writers, per-stream workers, parameter names** (`Writers.dfy`, `Dispatch.dfy`, `Splitter.dfy`).
   Byte conservation under short sends; worker dispatch with background cleanup; the splitter of
   parameter-name lists.

## How to read the model

- A `Word` is a `uint32_t`; sums wrap explicitly (`Words.Wrap`, `Words.Plus`). `size_t` is 64 bits wide,
  so `HEADER_SIZE + frame_length` does not wrap. `(x >> k) & 0xFF` is written as division and remainder.
- `Frame::enable_checksum` is a process-wide switch, `false` by default (include/frame.h:132). It is a
  parameter here (`enabled`, or one field of `Config` per process).
- `calculateChecksum` is const: it returns the sum and stores nothing; `serialize` recomputes it
  (include/frame.h:24-38, 71). The expectation of tests/frame_test.cpp:42-55, that calling it fills the
  stored checksum and that checksums are on by default, is not what the code does; the model follows the
  code.
- `next_stream_id_` is an `int` in the client and a `uint32_t` on the wire; ids are words here.
- A step system is a `State`, a `Step`, `Enabled` and `Take`. One step is one critical section, one
  system call or one access to shared state. A `recv` returns any non-empty part of what is in flight, a
  `send` accepts any amount where the source handles short sends. Waiting is a step that is not enabled.
- Fields under a `// log` comment record history. No step reads them.
- In layer 2 a send is whole: `client.cpp:173` and `server.cpp:178` ignore the returned count.
- `Enabled` in `Dispatch` bounds-checks a few indices, and in `Echo` it asks that the lock is held by a
  call that is writing. The invariants imply both, so they exclude no behaviour (`Dispatch.GuardsImplied`,
  `EchoAnswers.GuardsImplied`).
- What the system does not decide is left open in every state: which calls are made, how much of what is in
  flight arrives, how much a send takes or whether it fails, when callers time out, when the cleaner wakes
  (`NothingForced` in `Writers`, `Progress`, `EchoProgress` and `Dispatch`).
- The classes do in place what the step systems do in steps: their methods are proved against the same
  functions (`Drain`, `Arrive`, `ArriveAll`, `Parse`, `Residue`, `ResponsesAll`, and the steps of
  `EndToEnd.Sender`).

## Results that mark a limit of the code

- A stale number (below the expected one) stops a stream for good (`Reorder.StaleStops`). A stream is in
  the expected state after every arrival if and only if none is stale (`Reorder.ExpectedExactlyWhenFresh`);
  after the first stale one its output stays right only as long as the number then missing does not
  arrive (`Reorder.StaleLoses`).
- Response numbers are distinct exactly while `5n <= 2^32` (`StreamManager.ResponsesDistinctExactly`);
  call ids are distinct exactly for up to 2^32 calls (`Correlation.IdsDistinctExactly`).
- A client that checks and a server that does not: the client accepts a frame exactly when its true sum
  wraps to zero (`Delivery.UncheckedServer`), which at most one response on a stream does
  (`Delivery.UncheckedDelivery`). A drained stream with calls has delivered everything if and only if the
  two are not configured like that (`Delivery.AllDelivered`).
- If a client write fails partway and another write follows, the server cannot recover the frames
  (`Writers.FramedExactlyWhenWhole`), and the line is garbled from then on. A call that is written
  after that can return true with the reply to a request nobody made (`Garbled.GarbledWriteMisleads`).
  Calls whose request was written before are not affected, even when their reply comes after
  (`EchoAnswers.EchoAnswersOwn`); both conditions are in `EchoAnswers.Trusted`. For every call of every
  run, the answer is its own if and only if the first request with its id that the server reads since it
  registered carries its payload (`EchoAnswers.AnswerExactly`).
- `cleanupInactiveStreams` looks at references, not at the queue, and can destroy a processor with frames
  still queued; their callbacks never run (`Dispatch.CleanupCanLoseFrame`). Nothing is lost if and only if
  no processor was destroyed with such a frame in its queue (`Dispatch.CallbacksExact`).

## Model

| member | source | states |
|---|---|---|
| Words.WordOfBytes | include/frame.h:53-75 | the four bytes written for a 32-bit value are read back as that value |
| Words.BytesKeepOrder | include/frame.h:53-56 | the most significant byte is written first: two values and their four bytes are ordered alike |
| Words.BytesOfWord | include/frame.h:94-103 | and any four bytes read as a value are written back as the same bytes |
| Frames.ChecksumIsTrueSum | include/frame.h:24-38 | the 32-bit running sum is the true sum of length, ids and payload bytes, modulo 2^32 |
| Frames.SumPermutation | include/frame.h:32-35 | payloads with the same bytes in another order have the same sum |
| Frames.PutWord | include/frame.h:53-56 | writes one value at its offset, most significant byte first, and nothing else |
| Frames.SerializeFrame | include/frame.h:49-83 | the in-place serializer fills a buffer of header size plus payload with the recomputed checksum and the payload |
| Frames.ParseHeader | include/frame.h:117-128 | refuses fewer than 16 bytes; otherwise yields the four header fields |
| Frames.Layout | include/frame.h:49-83 | length, stream id, sequence and recomputed checksum stand at bytes 0, 4, 8 and 12, and the payload from byte 16 on |
| Frames.DecodeEncode | include/frame.h:86-114 | a well-formed frame at the front of any bytes is decoded to itself, and its size is exactly its own bytes |
| Frames.EncodeDecode | include/frame.h:86-114 | decoding bytes that are exactly one frame and encoding again gives the same bytes |
| Frames.DeserializeSerialize | include/frame.h:49-114 | round trip: same length, ids and payload, the recomputed checksum, and it verifies under either setting |
| Frames.SerializeDeserialize | include/frame.h:49-114 | the other way round the bytes come back if and only if the stored checksum is the recomputed one |
| Frames.AcceptedExactlyOnEqualSums | include/frame.h:24-46 | with equal checksum fields a changed frame is accepted if and only if the true sums agree modulo 2^32 |
| Frames.SingleByteDetected | include/frame.h:24-114 | any change of any single byte at index 4 or later makes verification fail |
| Frames.PermutationAccepted | include/frame.h:24-46 | a payload permutation is always accepted |
| Parser.ParseAppend | include/frame.h:162-213 | parsing a prefix and then the rest behind its residue equals parsing everything at once |
| Parser.ParseLossless | include/frame.h:162-213 | the parsed frames, re-encoded, and the residue are the input |
| Parser.ParseSerialized | include/frame.h:162-213 | serialized frames and an incomplete tail parse to exactly those frames and leave exactly the tail |
| Parser.PrefixIncomplete | include/frame.h:176-199 | a proper prefix of a serialized frame is never taken for a frame |
| Parser.FramingExact | include/frame.h:162-213 | whole frames and a cut-off one: exactly the whole frames, and exactly their total size is consumed |
| Parser.ProcessData | include/frame.h:162-213 | the cursor loop yields all whole frames at the front, consumes exactly their bytes, and never meets a "too short" error |
| Parser.EraseParse | server.cpp:151-168 | the erase-from-front loop yields the same frames and keeps the same bytes |
| Parser.ParsersAgree | server.cpp:151-168 | for every buffer both loops yield all whole frames at its front and keep exactly the rest |
| Parser.ReadLoop | client.cpp:89-104 | for every cutting into chunks the loop emits the frames of one parse of the whole stream and keeps its residue |
| Parser.SharedParser.ProcessIncoming | include/tcp_server.h:394-411 | one arrival changes only its client's buffer and yields the frames of that buffer and chunk |
| Parser.ClientsIndependent | include/tcp_server.h:394-411 | however clients' chunks interleave, each client gets the frames of its own bytes only |
| Links.TakeWhole | include/tcp_client.h:157-174 | any prefix of whole frames and a cut-off one parses to a prefix of those frames, and the rest is still ahead |
| Links.LinkRest | include/tcp_client.h:157-174 | all that is still ahead parses to exactly the frames not yet taken |
| Reorder.DrainLoop | client.cpp:126-143 | the sorted-map loop computes `Drain`: what is left, the next number and what was delivered |
| Reorder.DrainStops | server.cpp:38-48 | draining stops exactly at the smallest missing number, having delivered every number before it |
| Reorder.LaneMeetsSpec | server.cpp:31-49 | for every arrival order without stale numbers: frames 0..m-1 delivered in order, exactly the others buffered, next is m modulo 2^32, m the smallest number missing |
| Reorder.DeliveredNumbers | server.cpp:38-48 | what is delivered is numbered 0, 1, 2, ... without gap |
| Reorder.RepeatIgnored | server.cpp:35 | whatever has arrived, a repeat of a number still buffered changes nothing |
| Reorder.BlockedForever | server.cpp:38-48 | once the smallest buffered number is below the expected one, no continuation delivers anything |
| Reorder.StaleStops | server.cpp:34-48 | the first arrival below the expected number ends delivery on every continuation |
| Reorder.ExpectedExactlyWhenFresh | server.cpp:31-49 | for every arrival order: output, buffer and counter are as expected after every arrival if and only if no arrival is stale |
| Reorder.StaleLoses | server.cpp:34-48 | after a stale arrival the output is still what it should be if and only if the number then missing has not arrived since |
| Reorder.BlockedExactlyWhenStale | server.cpp:38-48 | an arrival leaves the front of the map blocked if and only if it is the first stale one |
| Reorder.FullCycle | server.cpp:43 | after all 2^32 numbers the counter wraps and the stream is as at the start |
| Reorder.StreamsIndependent | client.cpp:121-143 | the state and output of a stream depend only on its own arrivals |
| Reorder.ReorderMeetsSpec | client.cpp:121-143 | the specification holds per stream for any interleaving over streams |
| Reorder.DistinctIsFresh | client.cpp:61-64 | distinct numbers from the sender rule stale arrivals out |
| Reorder.Confluence | server.cpp:31-49 | two orders of the same frames, with numbers distinct per stream, end in the same maps and deliver the same per stream |
| StreamManager.StreamManager.AddIncomingFrame | server.cpp:31-49 | files the frame, moves what is due to the incoming queue in order, leaves everything else alone |
| StreamManager.StreamManager.ReceiveFrame | server.cpp:21-29 | takes the oldest incoming frame |
| StreamManager.StreamManager.SendFrame | server.cpp:15-19 | appends to the outgoing queue only |
| StreamManager.StreamManager.HasOutgoingFrames | server.cpp:51-54 | true exactly when the outgoing queue is not empty |
| StreamManager.StreamManager.GetNextOutgoingFrame | server.cpp:56-61 | takes the oldest outgoing frame |
| StreamManager.HandleFrame | server.cpp:184-201 | queues five responses on the request's stream, numbered upwards one by one from five times its number, modulo 2^32, each with 4096 bytes 'A' |
| StreamManager.ResponsesInPlace | server.cpp:187-199 | among the responses to a list of requests, each request has such five in its place |
| Delivery.AnsweredInPlace | server.cpp:184-201 | in every state of every run the server has queued such five for each request it is done with, in the order of the requests, and sends them in that order |
| StreamManager.ResponsesOnStream | server.cpp:187-199 | the responses on a stream are those to the requests on that stream, in order |
| StreamManager.ResponseNumbering | server.cpp:190 | requests 0..n-1 in any order are answered with 0..5n-1, each once, while 5n <= 2^32 |
| StreamManager.ResponsesDistinctExactly | server.cpp:190 | response numbers are distinct if and only if 5n <= 2^32 |
| Endpoints.Client.TakeNumber | client.cpp:54-64 | takes the stream's next number and counts it up, wrapping; other streams keep theirs; it does what the step `Call` of the step system does |
| Endpoints.Client.Push | client.cpp:66-68 | appends to the outgoing queue, as the step `Enqueue` does |
| Endpoints.Client.Pop | client.cpp:161-170 | takes the oldest outgoing frame, as the step `ClientPop` does |
| Endpoints.Client.Reorder | client.cpp:121-143 | one arrival in place equals `Arrive` on the maps and the output |
| Endpoints.Client.HandleFrame | client.cpp:106-143 | skips frames that do not verify; the maps stay what the accepted frames make of them |
| Endpoints.Client.HandleChunk | client.cpp:97-144 | one chunk: the buffer keeps the residue, every parsed frame is handled once, in order |
| Endpoints.ReadConnection | client.cpp:79-145 | over any chunks, buffer, maps and output are those of one parse of all bytes |
| Endpoints.ServerHandleChunk | server.cpp:149-168 | one chunk: the residue stays, and five responses to each whole frame are queued in order |
| EndToEnd.WriterNeverPopsEmpty | server.cpp:173-176 | in every state of every run the writer's pop finds a frame, although the lock is released after the check |
| EndToEnd.StepKeeps | client.cpp:54-175 | the invariant of the whole system survives every step |
| EndToEnd.RunKeeps | client.cpp:54-175 | so it holds in every state of every interleaving |
| Delivery.SenderNumbering | client.cpp:54-69 | in every state of every run the counter is the number of calls, number k belongs to exactly one call, and its frame is in exactly one place: a thread's hands, the queue, the writer's hands or the wire |
| Delivery.InOrderExactlyOnce | client.cpp:79-145 | in every state the delivered responses of a stream are numbered 0, 1, 2, ..., carry 4096 bytes 'A', and are at most five per call |
| Delivery.AllDelivered | client.cpp:79-145 | once a stream has drained, five responses per call were delivered if and only if there were no calls or a checking client has a checking server |
| Delivery.UncheckedDelivery | client.cpp:106-119 | with a checking client and an unchecked server, no state of any run has more than one response delivered on a stream |
| Delivery.UncheckedServer | include/frame.h:41-46 | a checking client accepts an unchecked frame if and only if its true sum wraps to zero |
| Progress.RestIsQuiet | client.cpp:159-175 | no deadlock: when nothing can step, nothing is in any hand, queue, buffer or wire |
| Progress.StepsDescend | server.cpp:139-201 | every step but a new call lowers a bound on the steps left |
| Progress.ComesToRest | server.cpp:139-201 | after the last call only that many more steps are possible |
| Progress.EverythingCanArrive | client.cpp:54-175 | for any list of messages on any streams there is a run that sends them and delivers all five responses to each, in order |
| Progress.RestDelivers | client.cpp:79-145 | at rest every stream has delivered numbers in order, and all 5n if and only if n is 0 or a checking client has a checking server |
| Writers.ClientHandler.Write | include/tcp_server.h:171-176 | appends the buffer to the queue and nothing else |
| Writers.ClientHandler.TakeBatch | include/tcp_server.h:229-232 | moves the whole queue, in order, into the batch |
| Writers.ClientHandler.SendBuffer | include/tcp_server.h:235-246 | the wire gains as much of the buffer as the sends let through before one makes no progress, all of it exactly when it reports done; it fails exactly when it has more to send and such a send comes, which ends the writer |
| Writers.ClientHandler.WriteBatch | include/tcp_server.h:218-250 | the wire gains exactly as much of the batch, in order, as the sends let through, each stopping at the end of its buffer; all of it exactly when done; it fails exactly when it has more to send and a send makes no progress |
| Writers.StepConserves | include/tcp_server.h:218-250 | every step keeps accepted bytes ++ rest of the batch ++ queue equal to everything written, in call order |
| Writers.WireIsPrefix | include/tcp_server.h:171-250 | in every state of every run the wire is a prefix of everything written |
| Writers.IdleRunSentAll | include/tcp_server.h:218-250 | in every state of every run, a writer that still runs and has nothing to do has sent every buffer whole |
| Writers.ClientSocket.Write | include/tcp_client.h:133-149 | as much goes out as the sends before the first refusal let through, whatever interruptions are among them; true exactly when all bytes went out, false exactly when bytes were left and a send was refused |
| Writers.WriteFrames | include/tcp_client.h:113-149 | for every pattern of short sends and interruptions: frames go out whole up to the first whose sends do not let it through, of that one as much as they do, and the wire parses to exactly the whole ones |
| Echo.WireInLockOrder | include/tcp_client.h:113-149 | in every state of every run with callers competing for the lock, until garbled, the wire is the frames written whole in lock order and a cut-off one, and parses to exactly these |
| Writers.FramedExactlyWhenWhole | include/tcp_client.h:133-149 | bytes left between whole frames: the frames are recovered without residue if and only if there are no such bytes |
| Correlation.TableKeeps | include/tcp_client.h:89-130 | the invariant of calls, promises and handlers survives every step of callers, reader and disconnect |
| Correlation.TableRunKeeps | include/tcp_client.h:89-185 | so it holds in every state of every run |
| Correlation.IdsDistinctExactly | include/tcp_client.h:187-189 | ids are distinct if and only if there are at most 2^32 calls |
| Correlation.AnswersAreOwn | include/tcp_client.h:89-130 | each promise is set at most once, to the first frame with the caller's id received after it registered; a call returning true returns exactly that |
| Correlation.NoAnswerLost | include/tcp_client.h:176-183 | a caller that has not given up has its promise set if and only if its answer was received, unless disconnect ran |
| Correlation.FrameReachesOwner | include/tcp_client.h:176-183 | in every state of every run the next frame changes exactly the call on file under its id, which has registered, not returned, and had no answer |
| Correlation.AnsweredForGood | include/tcp_client.h:120-129 | a waiting call whose answer has arrived waits on or returns true with that answer, in every later state |
| Correlation.FalseOnlyOnFailure | include/tcp_client.h:113-126 | a call returns false only if its write failed or it stopped waiting when no answer had arrived |
| Correlation.CanGiveUp | include/tcp_client.h:121-126 | from every state, a call that waits without an answer can return false |
| Correlation.DrawnForGood | include/tcp_client.h:91-110 | a call requests just the payload it was made for, with sequence 1 and the next id, in every later state |
| Correlation.NewestAnswered | include/tcp_client.h:98-103 | a call that has just registered gets the next frame with its id, whoever was on file |
| Correlation.ClearedForGood | include/tcp_client.h:81-85 | after disconnect dropped the handlers no call registered before gets an answer any more |
| Correlation.LateReachesNobody | include/tcp_client.h:113-126 | no frame reaches a call that has returned |
| Correlation.ReturnedForGood | include/tcp_client.h:113-129 | a call that has returned is the same in every later state |
| Echo.StepKeeps | include/tcp_client.h:89-185 | the invariant of callers, lock, both wires and the echo server survives every step |
| Echo.RunKeeps | include/tcp_client.h:89-185 | so it holds in every state of every run |
| Echo.ReceivedEchoes | src/rpc_server.cpp:20-29 | in every state of every run, received frames and the replies, in lock order, to the requests written before the line was garbled agree as far as both go; on a line that is not garbled nothing else is received |
| Echo.ReceivedExactly | src/rpc_server.cpp:20-29 | in every state of every run, garbled or not, the client has received the first of the replies to the requests the wire parses to |
| Echo.RepliesInPlace | src/rpc_server.cpp:20-29 | each frame received answers the request in its place on the wire: same stream and sequence number, prefix and payload |
| Echo.PrefixText | src/rpc_server.cpp:25 | the prefix is the UTF-8 encoding of its seven characters |
| EchoAnswers.ArrivedForGood | include/tcp_client.h:120-129 | in the composed system too, a waiting call whose answer has arrived waits on or returns true with it |
| EchoAnswers.FailedFirst | include/tcp_client.h:113-126 | and a call returns false only if its write failed or it stopped waiting when no answer had arrived |
| EchoAnswers.AnswerExactly | include/tcp_client.h:89-130 | in every state of every run, garbled or not, a call returning true returned the prefix and the payload of the first request with its id that the wire parses to since it registered; it is its own answer if and only if that request carries its payload |
| EchoAnswers.EchoAnswersOwn | include/tcp_client.h:89-130 | in every state of every run, a call returning true whose request was written before the line was garbled returned the prefix and its own payload |
| EchoAnswers.AnswerKept | include/tcp_client.h:120-129 | a call that had returned before the line was garbled keeps its own answer in every later state |
| Garbled.GarbledWriteMisleads | include/tcp_client.h:133-149 | under any checksum settings and for any first payload of 16 bytes there is a run in which a write fails after the header and the next caller returns true with the reply to a request nobody made |
| EchoAnswers.DrainedReceived | src/rpc_server.cpp:20-29 | once drained, the client has received, in order and before anything else, the reply to every request written before the line was garbled |
| EchoAnswers.DrainedExactly | src/rpc_server.cpp:20-29 | once drained, garbled or not, the client has received the replies to all requests the wire parses to and nothing else |
| EchoAnswers.WaitingExactly | include/tcp_client.h:120-129 | once drained, garbled or not, a call still waiting has an answer if and only if the wire carries a request with its id since it registered, unless disconnect dropped the handlers |
| EchoAnswers.GuardsImplied | include/tcp_client.h:133-149 | in every state of every run the lock is held for a call that is writing, and its write can go on or end |
| EchoProgress.RestReturns | include/tcp_client.h:89-130 | no deadlock: a working system that can do nothing by itself has drained, and every call whose request was not written on a garbled line has returned, if true with its own answer |
| EchoProgress.StepsDescend | include/tcp_client.h:89-185 | every step but a new call and the end of disconnect lowers a bound on the steps left |
| EchoProgress.EverythingCanBeAnswered | include/tcp_client.h:89-130 | for any payloads of up to 2^32 callers at once there is a run in which each has returned true with the prefix and its own payload |
| EchoProgress.CanDisconnect | include/tcp_client.h:68-86 | disconnect can begin at any time, and once the reader has handled its frames it drops the handlers |
| EchoProgress.ComesToRest | include/tcp_client.h:89-185 | after the last call, and until disconnect, only that many more steps are possible, whatever times out or fails |
| EchoAnswers.NobodyLeftWaiting | include/tcp_client.h:120-129 | once drained, every call still waiting whose request was written before the line was garbled has its own answer, unless disconnect dropped the handlers |
| Dispatch.StructureKept | include/tcp_server.h:394-451 | registry, references and cleanup stay consistent: nothing about to be destroyed can be reached |
| Dispatch.GuardsImplied | include/tcp_server.h:413-451 | in every state of every run, a dispatcher's reference and what the cleaner destroys or joins do exist |
| Dispatch.OneWorkerPerStream | include/tcp_server.h:413-451 | in every state of every run at most one worker is alive per stream |
| Dispatch.SettledThenUnderway | include/tcp_server.h:299-336 | in every state of every run a client's frames of a stream are, in wire order, those settled, those in the processor, those not yet dispatched |
| Dispatch.CallbacksInWireOrder | include/tcp_server.h:299-336 | callbacks are a subsequence of the wire order, at most one per frame, only for frames that verify |
| Dispatch.CallbacksExact | include/tcp_server.h:299-451 | of all frames but those still on their way, exactly the verifying ones had their callback, if and only if no processor was destroyed with such a frame of this client and stream in its queue |
| Dispatch.LostOnlyByJoin | include/tcp_server.h:282-288 | only the end of a processor loses frames, and exactly those left in its queue |
| Dispatch.CallbacksUndisturbed | include/tcp_server.h:299-336 | so nothing is lost until a processor of the stream is destroyed |
| Dispatch.RestIsSettled | include/tcp_server.h:299-336 | no deadlock: when only polling and feeding are left to do, nothing is on its way |
| Dispatch.RestCallsAll | include/tcp_server.h:299-451 | then every verifying frame on a client's wire had its callback, in order, if and only if no processor was destroyed with such a frame in its queue |
| Dispatch.EverythingCanBeCalled | include/tcp_server.h:394-431 | whatever the clients put on their wires, there is a run in which the callback has been run on every verifying frame, in order |
| Dispatch.CleanupCanLoseFrame | include/tcp_server.h:433-451 | for every frame there is a run in which cleanup destroys its processor with the frame queued, and its callback never runs |
| Splitter.Split | include/rpc_provider.hpp:118-131 | the loop returns the trimmed non-empty pieces between delimiters, in order |
| Splitter.TokensAreNames | include/rpc_provider.hpp:118-131 | every token of every input is non-empty, free of the delimiter, and neither starts nor ends with one of the six white-space characters |
| Splitter.TokensExactly | include/rpc_provider.hpp:118-131 | every input is a join of names with padding of these six characters, and splitting returns exactly the non-empty names in it |
| Splitter.SplitJoin | include/rpc_provider.hpp:118-131 | joining names with any padding of the six white-space characters and splitting returns the non-empty names |
| Splitter.SplitJoinSplit | include/rpc_provider.hpp:118-131 | joining the tokens of any input and splitting returns them again |

## Left out

- Sockets, accept and listen, socket options, console output, statistics and `main`: plumbing and reporting.
- Time: sleeps and time-outs are steps that may happen at any moment; no fairness and no real-time bound is claimed.
- The read loops' end on a closed or failed connection, `stop()`, and reconnecting after `disconnect()`.
- `FrameHandler::processIncomingData` (include/frame_handler.h:36-73): it re-parses bytes it has not erased, so exactly-once delivery is not a property of it.
- `src/http_server.cpp`: HTTP/2 sessions live in a library that is not part of this model.
- `TcpServer` start, stop, client disconnect and the early return for an unknown client (include/tcp_server.h:398-400); the clients are fixed.
- The optional connect and checksum callbacks, and exceptions thrown by callbacks, which the worker catches and ignores.
- `RpcProvider` beyond `split`: `std::any`, JSON conversion, type names, `std::async`, and the ordering of named arguments.
- `FrameParser::active_frames_`: never used, so parsing is a function of the buffer.
- Stream state kept in `std::map` nodes is modelled as finite maps; taking the least key stands for the sorted order.
- StreamManager.ReceiveFrame: waiting for a frame is a precondition, because a sequential method cannot wait; `EndToEnd` has the interleavings.
- Endpoints.Client.Pop: waiting for a frame is a precondition, for the same reason.
- StreamManager.GetNextOutgoingFrame: popping an empty queue is undefined in the source and a precondition here; `EndToEnd.WriterNeverPopsEmpty` shows it does not happen.
- EchoAnswers.EchoAnswersOwn: leaves requests written after the line was garbled to `EchoAnswers.AnswerExactly`: whether their callers get their own answers depends on what the payloads look like, as `Garbled.GarbledWriteMisleads` shows.
- EchoAnswers.AnswerExactly: asks that the replies to what the server reads fit the length field, which they do on a line that is not garbled (`Echo.UngarbledWire`) and on a short one (`Echo.ShortWire`); `Echo.ReceivedExactly` says what is received otherwise.
