# A verified model of the deployment system and its Kafka client

This Dafny 4.11 project models the parts of the repository where a mistake is easy and costly, and
proves what they promise. `dafny verify dfyconfig.toml` checks all of it.

## What is modelled

**The request pipeline and wire format of librdkafka.**

| file | what it models |
|---|---|
| `Bytes.dfy`, `Message.dfy` | big-endian integers of a given width, and the octets of one message |
| `CrcBits.dfy`, `Crc32.dfy` | CRC-32: bit reflection, the 256-entry table, the update loop (the branch without zlib) |
| `WriteBuffer.dfy` | the write buffer: a memory block and a stack of I/O vectors that alias it, growing, pushing, back-patching, checksums |
| `MessageSet.dfy`, `MessageRoundTrip.dfy` | the parser of nested and cut-off message sets, and its agreement with the writer |
| `MsgHdr.dfy`, `Send.dfy` | partial sends: the unsent suffix, the transmit queue, what reaches the wire |
| `Receive.dfy` | reassembly of response frames from whatever pieces the transport delivers |
| `Requests.dfy` | the life of a request: who holds it, retries, timeouts, broker failure, correlation ids. The heap is explicit, so a freed request has no record that could be used |
| `Produce.dfy`, `MessageFlow.dfy` | building Produce requests from a queue of messages, and where each message is until it is reported |
| `ProduceRoundTrip.dfy` | what a reader finds in the message set of a Produce request, compressed or not, before and after the broker has numbered it |
| `FetchFormat.dfy`, `Fetch.dfy` | building Fetch requests from a ring of partitions, and a decoder for them |
| `Splice.dfy`, `TailQueue.dfy`, `CircleQueue.dfy` | the TAILQ and CIRCLEQ macros on real pointers |

**The consumer group.** `Cgrp.dfy` is the group with its two state variables, its flags and its
counters; every handler is one method. What a group says to fetchers and broker and hears back is a
log, and `CgrpLog.dfy` says which logs keep the rules. Every handler extends the log within the
rules, so the statements of `CgrpLog` about all logs hold of every run. `Assignor.dfy` is the scan
that maps topics to subscriptions, with its early exit.

**The deployment protocol.** `Deploy.dfy` has the controller's cache, the agent, and everything
under way between them in no particular order; `Umi.dfy` is the packing and reading of update messages.

## How it is written

Code that changes things step by step is a class or a method with a loop; its contract ties the new
state to the old one or to a reference function, and lemmas say what that function means. Handlers
that run on one thread are one step each. The length of a partial send, the outcome of a callback, a
clock reading, a compressor or a regular expression engine are parameters, so every statement holds for
all of them.

Where the code does not meet its promise on every input, the model keeps the code and states exactly when it does:

* The stream of octets on the wire stays contiguous exactly when no flash request is put in front of a
  half-sent one (`Send.TransmitQueue.Enqueue`) and no half-sent request times out (`Send.TransmitQueue.TimeOut`).
* All frames of a stream are handed up exactly when each has a payload and an allowed Size
  (`Receive.DecodeStream`, with a counterexample in `Receive.EmptyFrameStops`).
* MessageSetSize is the real length exactly when the set is compressed, or no NULL payload was given a length
  (`Produce.SentSizeExact`, `Produce.ProduceToppar`), and only such a payload can stop a reader of the set
  (`ProduceRoundTrip.SentSeen`). `rd_kafka_msg_new0` gives none, so the messages of an application are all found
  (`ProduceRoundTrip.SentRead`).
* A message has offset 0 until the broker gives it one. The handler of Fetch responses would deliver a batch as it was
  sent exactly when it is one message and 0 is not early (`ProduceRoundTrip.SentHandled`); with growing offsets it
  delivers all of it (`ProduceRoundTrip.NumberedHandled`, `ProduceRoundTrip.PackedHandled`).
* The offsets of enqueued messages are strictly increasing exactly when none but the last is 2^63-1, behind which the
  fetch offset wraps around (`MessageSet.MonotoneDelivery`, with a counterexample in `MessageRoundTrip.OffsetWraps`).
* Each step keeps messages in the order of production, those acknowledged and those still to be, exactly under a
  condition (`MessageFlow.Toppar.Reply`, `MessageFlow.Toppar.Serve`). An acknowledgment: it is for the oldest request in
  flight. A retry: the request is the newest in flight and none waits for a retry already. Sending: none waits
  (`MessageFlow.RetriedBehind` and `MessageFlow.Overtaken` show runs that lose the order). Putting back after a leader
  change: as for a retry, and the transmit queue is empty, so two requests have to come back newest first
  (`MessageFlow.PutBackOldestFirst` shows a run where they do not). Requests that are all retried together keep their
  order, unless some waited before (`MessageFlow.Toppar.RetryAll`).
* The stop counter of a group stays right exactly when no partition is told to stop twice, because it is stopping
  already or its assignment lists it twice (`Cgrp.Group.Unassign`; runs in `Cgrp.RevokedTwice` and
  `Cgrp.ListedTwice`), and an offset reply keeps the group in order exactly when it is not stale
  (`Cgrp.Group.OffsetFetchReply`).
* A terminating group that has nothing left to wait for is in TERM. Every handler keeps that but two: the last stop
  exactly when the join state has moved meanwhile or other partitions are still flagged (`Cgrp.Group.FetchStopped`,
  with a run that ends unanswered in `Cgrp.UnansweredTermination`), and a commit reply exactly when it says that the
  client is being destroyed (`Cgrp.Group.CommitReply`).
* TERM waits for stops, commits and partitions, and not for fetchers that run: the last stop leaves some running in
  TERM exactly when it has just started a new assignment (`Cgrp.Group.FetchStopped`, and a run in
  `Cgrp.TerminatedFetching`).
* A terminating group tells its fetchers to stop only after it has entered TERM exactly when the commit before the
  revocation fails at once and nothing else holds TERM back (`Cgrp.Group.Unassign`, `Cgrp.Group.Terminate`, and a run
  in `Cgrp.StoppedTooLate`). It starts one after TERM exactly when a non-empty assignment, without the broker's offset
  store, replaces one with nothing running and nothing left to wait for (`Cgrp.Group.Assign`,
  `Cgrp.Group.SyncGroupReply`, and a run in `Cgrp.StartedTooLate`).
* The early exit of the assignor loses nothing exactly when no topic left is wanted; that is so with exact
  names, and with regular expressions only, but not with a mixture (`Assignor.MapSubscriptions`,
  `Assignor.RegexNeverExits`, `Assignor.MixedExitsTooSoon`).
* The controller's cache of a module does not depend on the order of arrival, and loading it from the database brings
  it back, exactly when the module has one newest publication (`Deploy.ArrivalOrder`); equal times below the newest
  do not matter, and of two equally new publications the last arrival is kept (`Deploy.SameTimeLastWins`).

## Model

| member | source | states |
|---|---|---|
| `CrcBits.Reflect` | src/dev/librdkafka/rdcrc32.c:97-108 | the loop returns the low `dataLen` bits in reverse order |
| `CrcBits.ReflectedBit` | src/dev/librdkafka/rdcrc32.c:97-108 | bit i of the reflection of n bits is bit n-1-i of the input, for every n from 1 to 32 |
| `CrcBits.ReflectIsItsOwnInverse` | src/dev/librdkafka/rdcrc32.c:97-108 | reflecting twice gives back every one of the low n bits, for n in 1..32 |
| `CrcBits.ReversedBit` | src/dev/librdkafka/rdcrc32.c:97-108 | for 32 bits the loop gives the mirror image the CRC theorem uses: neighbours, pairs, nibbles, octets and halves swapped |
| `CrcBits.FeedIsDivision` | src/dev/librdkafka/rdcrc32.h:97-114 | feeding bits, least significant first, into the reflected register is long division by 0x04c11db7 seen in a mirror |
| `Crc32.TableEntry` | src/dev/librdkafka/rdcrc32.c:23-87 | each of the 256 entries of crc_table is the register after eight bit steps from its index |
| `Crc32.Update` | src/dev/librdkafka/rdcrc32.h:97-114 | the table-driven loop computes the fold of the table step over the data, for every start value |
| `Crc32.UpdateIsDivision` | src/dev/librdkafka/rdcrc32.h:97-114 | table-driven updating is bit-by-bit reflected division by 0x04c11db7, for every input (CRC-32 of section 8 of RFC 1952) |
| `Crc32.UpdateConcat` | src/dev/librdkafka/rdcrc32.h:97-114 | updating over a concatenation is updating chunk by chunk |
| `Crc32.CrcIsDivision` | src/dev/librdkafka/rdcrc32.h:71-131 | a checksum is that division started with all bits set, its remainder complemented and reflected, for all data (section 8 of RFC 1952) |
| `Crc32.CheckValue` | src/dev/librdkafka/rdcrc32.h:71-131 | the digits one to nine have the published check value 0xcbf43926 |
| `Crc32.CrcOctetsRead` | src/dev/librdkafka/rdkafka_buf.c:358-362 | the four octets of a Crc field are the number, most significant first |
| `Bytes.FirstOctetHighest` | src/dev/librdkafka/rdkafka_buf.h:446-450 | of the octets htobeNN leaves in memory the first is the most significant |
| `Bytes.IntRoundTrip` | src/dev/librdkafka/rdkafka_buf.h:446-450 | a signed integer of any width is read back from its octets |
| `Message.MessageLayout` | src/dev/librdkafka/rdkafka_buf.c:306-369 | the octets at which Offset, MessageSize, MagicByte, Attributes, key and value of a message lie, a NULL as length -1 |
| `Message.CrcField` | src/dev/librdkafka/rdkafka_buf.c:358-362 | the four octets at offset 12 are the division of all octets behind them, complemented and reflected |
| `WriteBuffer.Buffer.constructor` | src/dev/librdkafka/rdkafka_buf.c:169-230 | a new buffer has room for the payload and, with a handle, one vector that is the space for the request header |
| `WriteBuffer.Buffer.Grow` | src/dev/librdkafka/rdkafka_buf.c:133-154 | growing keeps every octet and gives at least the size asked for |
| `WriteBuffer.Buffer.Append` | src/dev/librdkafka/rdkafka_buf.h:354-370 | what was pushed is unchanged, what is pending grows by the octets written, and a running checksum covers them |
| `WriteBuffer.Buffer.Push` | src/dev/librdkafka/rdkafka_buf.c:88-110 | a pushed block of foreign memory is appended to what will be sent, and counted by the checksum; nothing written before is lost exactly when nothing was pending |
| `WriteBuffer.Buffer.Autopush` | src/dev/librdkafka/rdkafka_buf.c:120-125 | exactly the pending octets are appended, and the checksum does not count them again |
| `WriteBuffer.Buffer.Rewind` | src/dev/librdkafka/rdkafka_buf.c:80-86 | a checkpoint of the vector stack and of both write offsets is restored |
| `WriteBuffer.Buffer.UpdatePushed` | src/dev/librdkafka/rdkafka_buf.h:395-403 | an update of octets that were pushed long ago changes these octets of what is sent and no others |
| `WriteBuffer.Buffer.UpdatePending` | src/dev/librdkafka/rdkafka_buf.h:395-403 | an update of octets not yet pushed changes these octets and nothing that was pushed |
| `WriteBuffer.GatherPatched` | src/dev/librdkafka/rdkafka_buf.h:395-403 | patching the memory behind one vector patches what sendmsg collects at the matching place, however the vectors alias the block |
| `WriteBuffer.ChecksumInPieces` | src/dev/librdkafka/rdkafka_buf.c:336-362 | the checksum, fed partly by writes and partly by pushes, is that of the octets behind the Crc field, each counted once |
| `WriteBuffer.Buffer.WriteMessage` | src/dev/librdkafka/rdkafka_buf.c:306-369 | one message is appended as the wire format has it: MessageSize as declared, and in the Crc field the division of exactly the octets that follow it; `outlen` counts a NULL payload with its given length |
| `WriteBuffer.MsghdrSize` | src/dev/librdkafka/rdkafka_broker.c:115-123 | the sum of the vector lengths |
| `WriteBuffer.Buffer.FinalizeRequest` | src/dev/librdkafka/rdkafka_broker.c:527-548 | the request header is put in front, Size is the real number of octets less four, and the body is unchanged |
| `WriteBuffer.Buffer.SetCorrId` | src/dev/librdkafka/rdkafka_broker.c:481-487 | only the CorrId field of a finalized request changes |
| `WriteBuffer.HeaderLayout` | src/dev/librdkafka/rdkafka_broker.c:527-548 | the octets at which Size, ApiKey, ApiVersion, CorrId and ClientId of a request header lie |
| `MessageSet.Handle` | src/dev/librdkafka/rdkafka_broker.c:2437-2723 | the parsing loop delivers what the reference function `Handled` says, for any octets |
| `MessageSet.EntryFate` | src/dev/librdkafka/rdkafka_broker.c:2502-2723 | a plain message is enqueued unless it is early, an unknown codec enqueues an error, and a payload that does not decompress changes nothing |
| `MessageSet.HandledIsTaken` | src/dev/librdkafka/rdkafka_broker.c:2437-2723 | for any octets the handler takes what a reader meets, in order, each unless it is before the fetch offset its predecessors have left |
| `MessageSet.LengthBelow` | src/dev/librdkafka/rdkafka_buf.h:183-191 | a length below -1 reads as the empty string and takes the read offset back |
| `MessageSet.LowestSizes` | src/dev/librdkafka/rdkafka_broker.c:2457-2500 | a MessageSize within 5 of -2^31 is refused, because the subtraction wraps around |
| `MessageSet.MonotoneDelivery` | src/dev/librdkafka/rdkafka_broker.c:2502-2552 | for any octets, nesting and decompressor each op is not before the fetch offset of that moment; the offsets enqueued are strictly increasing, and not below the first fetch offset, exactly when none but the last is 2^63-1 |
| `MessageRoundTrip.ReadWhole` | src/dev/librdkafka/rdkafka_broker.c:2457-2500 | a message that was written is read back with offset, key and value, NULL included |
| `MessageRoundTrip.ReadCut` | src/dev/librdkafka/rdkafka_broker.c:2457-2500 | a message cut off at any octet is not read at all |
| `MessageRoundTrip.SetHandled` | src/dev/librdkafka/rdkafka_broker.c:2457-2723 | of any set of plain and nested compressed messages, cut off after any number of octets, exactly the messages of the items wholly inside are delivered |
| `MessageRoundTrip.DeliveredIsFilter` | src/dev/librdkafka/rdkafka_broker.c:2512-2552 | with ascending offsets the fetch offset is a plain filter |
| `MessageRoundTrip.OffsetWraps` | src/dev/librdkafka/rdkafka_broker.c:2512-2552 | behind a message with offset 2^63-1 any other is enqueued, so the offsets do not increase |
| `MsgHdr.Rebuild` | src/dev/librdkafka/rdkafka_broker.c:921-948 | the rebuilt vectors describe exactly the octets from the offset on, with no empty vector |
| `Send.TransmitQueue.Enqueue` | src/dev/librdkafka/rdkafka_broker.c:495-517 | the request goes to the tail, or behind the first ordinary one, or to the head; the stream stays contiguous exactly when no half-sent request is overtaken |
| `Send.TransmitQueue.TimeOut` | src/dev/librdkafka/rdkafka_broker.c:349-373 | the scan takes out one request; the stream stays contiguous exactly when it was not half-sent |
| `Send.TransmitQueue.SendHead` | src/dev/librdkafka/rdkafka_broker.c:1236-1290 | one sendmsg of any size puts the next unsent octets on the wire; a request sent whole moves to the wait list, or is finished if it expects no response |
| `Send.TransmitQueue.SendAll` | src/dev/librdkafka/rdkafka_broker.c:1221-1295 | a whole run of sends, errors included, keeps the wire the concatenation of the requests in queue order |
| `Send.TransmitQueue.WireIsPrefix` | src/dev/librdkafka/rdkafka_broker.c:1221-1295 | the wire holds a prefix of the finalized requests in queue order, each octet once, and all of them when the queue is empty |
| `Receive.Receiver.Recv` | src/dev/librdkafka/rdkafka_broker.c:952-1095 | whatever the transport moved, header or payload, the frames handed up and the octets kept back are those of decoding the kept octets and the new ones |
| `Receive.Receiver.RecvError` | src/dev/librdkafka/rdkafka_broker.c:1024-1032 | a transport error ends the connection: what was read of a frame is dropped, and nothing is handed up |
| `Receive.Receiver.RecvAll` | src/dev/librdkafka/rdkafka_transport.c:1026-1029 | for any stream, chopped in any way, the loop hands up what the octets read so far decode to, and all frames of the stream when it is read to its end or the connection has ended before |
| `Receive.ChoppingIsIrrelevant` | src/dev/librdkafka/rdkafka_broker.c:952-1095 | decoding piece by piece, with the unfinished octets kept, gives the frames of the whole stream |
| `Receive.DecodeStream` | src/dev/librdkafka/rdkafka_broker.c:1033-1083 | the frames of a stream are handed up before the first empty or too large one, so all of them exactly when every frame has a payload and an allowed Size |
| `Receive.FrameLayout` | src/dev/librdkafka/rdkafka_broker.c:1033-1060 | the octets at which Size, which does not count itself, CorrId and the payload of a response lie |
| `Receive.EmptyFrameStops` | src/dev/librdkafka/rdkafka_broker.c:1067-1076 | a frame without payload between two others: only the first is handed up |
| `Requests.Broker.Keep` | src/dev/librdkafka/rd.h:254-262 | one more reference, and nothing else changes |
| `Requests.Broker.Release` | src/dev/librdkafka/rd.h:295-299 | one reference less; the last one frees the request, which must have been called back by then |
| `Requests.Broker.BufRetry` | src/dev/librdkafka/rdkafka_buf.c:377-392 | a retry is granted exactly when broker, termination and max_retries allow it; the request then has one try and one reference more, held by the retry queue, with the backoff and its send position reset, or by a retry op |
| `Requests.Broker.HandleOp` | src/dev/librdkafka/rdkafka_buf.c:398-421 | the end of a reply or transmit op: the request is called back and freed or retried, and is in exactly one place afterwards |
| `Requests.Broker.BufCallback` | src/dev/librdkafka/rdkafka_buf.c:435-478 | a request that one caller holds: without error, or failed for good, it is posted to a reply queue that takes it; it is retried when it failed or its callback asks, and broker, termination and max_retries allow it; otherwise it is called back and freed; all other requests are untouched |
| `Requests.Broker.Number` | src/dev/librdkafka/rdkafka_broker.c:485-493 | every enqueueing takes a correlation id never given before, and keeps a deadline that is already set |
| `Requests.Broker.Submit` | src/dev/librdkafka/rdkafka_broker.c:600-628 | a new request has one holder: the transmit queue, with a number and a deadline, the op queue, or, on the internal broker, the reply queue it is failed to; all other requests and queues stay as they are |
| `Requests.Broker.ServeXmit` | src/dev/librdkafka/rdkafka_broker.c:575-590 | a transmit op enqueues its request with a number and a deadline; on the internal broker it fails and is posted to its reply queue or freed; no other request is touched |
| `Requests.Broker.InternalFate` | src/dev/librdkafka/rdkafka_buf.c:377-392 | a request that fails on the internal broker is answered or freed, and never retried |
| `Requests.Broker.PurgeXmit` | src/dev/librdkafka/rdkafka_op.c:95-97 | a transmit op destroyed unserved ends its request: called back and freed, or retried if the callback asks for it, and nothing else changes |
| `Requests.Broker.PurgeRetry` | src/dev/librdkafka/rdkafka_op.c:95-97 | a retry op destroyed unserved ends its request likewise |
| `Requests.Broker.ServeRetryOp` | src/dev/librdkafka/rdkafka_broker.c:1983-1986 | a retry op moves its request to the tail of the retry queue, on the broker's thread |
| `Requests.Broker.ServeReply` | src/dev/librdkafka/rdkafka_buf.c:398-421 | a reply op is served once, and its request is freed after the callback or retried |
| `Requests.Broker.Progress` | src/dev/librdkafka/rdkafka_broker.c:1254-1261 | a partial send moves the send position of the first request and touches no other |
| `Requests.Broker.Sent` | src/dev/librdkafka/rdkafka_broker.c:1266-1291 | the request sent moves to the wait list; one without response is posted to its reply queue if that takes it, retried if its callback asks and may, and else freed |
| `Requests.Broker.Response` | src/dev/librdkafka/rdkafka_broker.c:883-915 | a response goes to the first waiting request with its correlation id: posted to its reply queue if that takes it, retried if its callback asks and may, and else freed; without such a request nothing happens |
| `Requests.Broker.ScanQueue` | src/dev/librdkafka/rdkafka_broker.c:349-373 | exactly the expired requests leave the queue, each retried, answered or freed as callback and reply queue decide; the others keep their order |
| `Requests.PassingSplit` | src/dev/librdkafka/rdkafka_broker.c:349-373 | what stays of a queue is what stays of its parts, in order |
| `Requests.PassingOne` | src/dev/librdkafka/rdkafka_broker.c:356-360 | a request stays in the queue exactly when its deadline lies ahead |
| `Requests.Broker.TimeoutScan` | src/dev/librdkafka/rdkafka_broker.c:381-414 | both queues keep exactly the requests that have not expired, and the others meet their fates in order, unless that makes socket.max.fails timeouts on a broker that is up: then it fails and both queues are purged |
| `Requests.Broker.Fail` | src/dev/librdkafka/rdkafka_broker.c:237-297 | both queues are emptied, and each request, waiting ones first, is retried, answered or freed as error, callback and reply queue decide; with a retryable error exactly those with tries left are retried |
| `Requests.Broker.RetryBufsMove` | src/dev/librdkafka/rdkafka_broker.c:1332-1344 | the front of the retry queue whose backoff has passed goes to the tail of the transmit queue, each request with a new number |
| `Requests.Broker.MoveFirst` | src/dev/librdkafka/rdkafka_broker.c:1301-1344 | a retried request is enqueued again with a new number and from its first octet |
| `Requests.CorrIdNext` | src/dev/librdkafka/rdkafka_broker.c:486-486 | the first request has number 1, each further one the next, and behind 2^31-1 comes -2^31 |
| `Requests.SameCorrId` | src/dev/librdkafka/rdkafka_broker.c:486-486 | two enqueueings share a correlation id exactly when a multiple of 2^32 lies between them |
| `Requests.EchoedIs` | src/dev/librdkafka/rdkafka_broker.c:485-487 | the correlation id read from a response is that of the request, also when the counter has passed 2^31 |
| `Requests.DistinctCorrIds` | src/dev/librdkafka/rdkafka_broker.c:481-487 | within one period of the counter, live requests have pairwise distinct correlation ids |
| `Requests.ResponseMatches` | src/dev/librdkafka/rdkafka_broker.c:854-875 | the response to the n-th enqueueing, as the receiver reads it, reaches the waiting request that still has number n, and nothing when none has |
| `Requests.RenumberedIsStale` | src/dev/librdkafka/rdkafka_broker.c:481-487 | after a request has been enqueued again or freed, no live request has its old number |
| `CgrpLog.DrainBeforeStart` | src/dev/librdkafka/rdkafka_cgrp.c:990-1032 | in any run that keeps the rules, a fetcher is started or moved only after every stop sent before was answered |
| `CgrpLog.ReplayCounts` | src/dev/librdkafka/rdkafka_cgrp.c:1355-1394 | in any run that keeps the rules TERM is entered at most once and the terminate request is answered at most once, and only in TERM |
| `CgrpLog.ReplaySets` | src/dev/librdkafka/rdkafka_cgrp.c:1489-1509 | in any run a fetcher runs from its start to its answered stop, a stop is outstanding until answered, and a partition is with the group from its join to its leave |
| `CgrpLog.TerminatesDrained` | src/dev/librdkafka/rdkafka_cgrp.c:503-553 | when TERM is entered no stop and no commit is outstanding |
| `Cgrp.Group.EnterTerm` | src/dev/librdkafka/rdkafka_cgrp.c:503-533 | TERM is entered and the pending terminate request answered, both at most once; the asserts at the top hold |
| `Cgrp.Group.TryTerminate` | src/dev/librdkafka/rdkafka_cgrp.c:541-553 | TERM is entered exactly when the group is terminating and partitions, stops and commits have drained |
| `Cgrp.Group.FetchStart` | src/dev/librdkafka/rdkafka_cgrp.c:678-740 | each partition gets one start or, if it runs, one seek, or its offset is asked for, and nothing else is said; the final assert is the comparison of the flags with the assignment |
| `Cgrp.StartEventsAt` | src/dev/librdkafka/rdkafka_cgrp.c:701-735 | the j-th event of starting a list is about its j-th partition: a start when it neither ran nor is listed earlier, and else a seek |
| `Cgrp.Group.UnassignDone` | src/dev/librdkafka/rdkafka_cgrp.c:990-1016 | the LeaveGroup request if one is due, then the new assignment: its fetchers are started, or with the broker's store its offsets asked for, exactly when it has partitions and the coordinator is there; then the end of a drained termination; nothing else is said, and the assert of starting it holds |
| `Cgrp.Group.CheckUnassignDone` | src/dev/librdkafka/rdkafka_cgrp.c:1024-1032 | the group moves on exactly when no stop, no flag, no commit and no wait is left, and then says exactly that |
| `Cgrp.Group.OpHandleOffsetCommit` | src/dev/librdkafka/rdkafka_cgrp.c:853-886 | the commit counter is positive and goes down once for each final answer; a retried commit stays counted; the last answer ends a termination or moves the group on, with all that is said then |
| `Cgrp.Group.OffsetsCommit` | src/dev/librdkafka/rdkafka_cgrp.c:901-955 | over all synchronous and asynchronous paths the commit counter is the number of outstanding commits, and all that is said is the request, or what follows a commit that could not be sent |
| `Cgrp.Group.StopAll` | src/dev/librdkafka/rdkafka_cgrp.c:1065-1088 | each flagged entry of the list is told to stop, in order, and counted; the rules are kept exactly when none was stopping already and none is listed twice |
| `Cgrp.StopEventsSplit` | src/dev/librdkafka/rdkafka_cgrp.c:1065-1088 | one stop for each flagged entry, in the order of the list |
| `Cgrp.Group.RevokingIs` | src/dev/librdkafka/rdkafka_cgrp.c:1039-1102 | all a revocation says when its commit can be sent or none is due: the commit, the stops, and with nothing to wait for the LeaveGroup request and the end of a termination |
| `Cgrp.Group.RevokingFails` | src/dev/librdkafka/rdkafka_cgrp.c:1054-1102 | all it says when the commit fails at once: first the end of a termination that waits for nothing else, or the move on to the assignment about to be lost, and then the stops |
| `Cgrp.Group.Unassign` | src/dev/librdkafka/rdkafka_cgrp.c:1039-1102 | everything flagged is stopping afterwards, and what is said is exactly what RevokingIs and RevokingFails have; the counter stays right exactly when no partition is told to stop twice; TERM is entered exactly when nothing is left to wait for, or nothing was when the commit failed, and a stop comes after TERM exactly in that case |
| `Cgrp.Group.Assign` | src/dev/librdkafka/rdkafka_cgrp.c:1109-1162 | the new partitions start at once only when nothing was running; they can be revoked again before the stops are answered exactly when they share nothing with the old ones and none that was started is listed twice; a fetcher is stopped or started after TERM exactly when the revocation enters TERM first |
| `Cgrp.Group.TooLateOnlyUnanswered` | src/dev/librdkafka/rdkafka_cgrp.c:541-553 | a fetcher can be stopped or started after TERM only in a group that has drained without entering it, or that waits for the application to revoke |
| `Cgrp.Group.RebalanceOp` | src/dev/librdkafka/rdkafka_cgrp.c:754-789 | with a callback and an assignment the application is asked and nothing else changes, otherwise the change is made |
| `Cgrp.Group.HeartbeatError` | src/dev/librdkafka/rdkafka_cgrp.c:1195-1236 | a fatal error revokes the assignment, or asks the application to, once |
| `Cgrp.Group.Unsubscribe` | src/dev/librdkafka/rdkafka_cgrp.c:1266-1306 | the subscription ends and the assignment is revoked unless a revocation is under way |
| `Cgrp.Group.Subscribe` | src/dev/librdkafka/rdkafka_cgrp.c:1312-1340 | a new subscription first revokes the assignment; without an assignor it is refused |
| `Cgrp.Group.Terminate` | src/dev/librdkafka/rdkafka_cgrp.c:1355-1394 | a first request is accepted and starts the revocation, unless one is under way, and a second is refused; with nothing left to wait for the group is in TERM |
| `Cgrp.Group.FetchStopped` | src/dev/librdkafka/rdkafka_cgrp.c:1489-1509 | the asserts hold; one stop less is outstanding, and the last one moves a revoked group on: LeaveGroup if due, then the new fetchers are started or their offsets asked for, then the end of the termination, and nothing else is said; a termination that waits for this stop alone is completed exactly when the join state still is wait-unassign and nothing else is flagged, and fetchers then run in TERM exactly when a new non-empty assignment has been started without the broker's offset store |
| `Cgrp.Group.PartitionJoin` | src/dev/librdkafka/rdkafka_cgrp.c:1477-1483 | the partition is added, and told to leave again while terminating |
| `Cgrp.Group.PartitionLeave` | src/dev/librdkafka/rdkafka_cgrp.c:1485-1487 | the partition is removed, and TERM entered exactly when that was the last thing to wait for |
| `Cgrp.Group.CommitOffsets` | src/dev/librdkafka/rdkafka_cgrp.c:961-982 | a commit op or the commit timer sends one request, or what follows a commit that cannot be sent, and the counter says which |
| `Cgrp.Group.CommitReply` | src/dev/librdkafka/rdkafka_cgrp.c:796-886 | a final answer takes one commit off the counter and ends a drained termination or moves a settled group on, to its new fetchers or the question for their offsets; a drained group is left out of TERM exactly by the answer that the client is being destroyed |
| `Cgrp.Group.OffsetFetchReply` | src/dev/librdkafka/rdkafka_cgrp.c:596-648 | the group stays in order exactly when the reply failed, comes in another join state, or names only partitions of the assignment; the assert at line 738 then holds |
| `Cgrp.Group.TransportUp` | src/dev/librdkafka/rdkafka_cgrp.c:1699-1713 | an assigned group starts or seeks its fetchers or, with the broker's store, asks for their offsets; another one says nothing |
| `Cgrp.Group.SyncGroupReply` | src/dev/librdkafka/rdkafka_cgrp.c:1897-1898 | a new assignment is delegated or adopted; a fetcher is stopped or started after TERM exactly when adopting it first enters TERM |
| `Cgrp.Group.AssignOp` | src/dev/librdkafka/rdkafka_cgrp.c:1536-1550 | no new assignment while terminating; otherwise what Assign does |
| `Cgrp.UnansweredTermination` | src/dev/librdkafka/rdkafka_cgrp.c:1501-1508 | a run from a new group: a JoinGroup reply moves the join state, everything drains, and the terminate request stays unanswered |
| `Cgrp.StartedTooLate` | src/dev/librdkafka/rdkafka_cgrp.c:1136-1160 | a run from a new group in which a fetcher is started after TERM |
| `Cgrp.StoppedTooLate` | src/dev/librdkafka/rdkafka_cgrp.c:1054-1083 | a run from a new group in which a failed commit enters TERM before the fetcher is told to stop |
| `Cgrp.RevokedTwice` | src/dev/librdkafka/rdkafka_cgrp.c:1074-1083 | a run from a new group: a partition revoked, assigned and revoked again before its stop is answered is counted twice |
| `Cgrp.ListedTwice` | src/dev/librdkafka/rdkafka_cgrp.c:1065-1088 | a run from a new group: a partition that its assignment lists twice is counted twice when it is revoked |
| `Cgrp.TerminatedFetching` | src/dev/librdkafka/rdkafka_cgrp.c:990-1016 | a run from a new group that enters TERM with a fetcher just started |
| `TailQueue.InsertHead` | src/dev/librdkafka/queue.h:493-502 | the element comes first, the others keep their order, and only the neighbours' pointers change |
| `TailQueue.InsertTail` | src/dev/librdkafka/queue.h:504-510 | the element comes last |
| `TailQueue.InsertAfter` | src/dev/librdkafka/queue.h:512-522 | the element comes right after the one given |
| `TailQueue.InsertBefore` | src/dev/librdkafka/queue.h:524-530 | the element comes right before the one given, without the head being named |
| `TailQueue.Remove` | src/dev/librdkafka/queue.h:532-542 | the element is gone, the others keep their order |
| `TailQueue.Replace` | src/dev/librdkafka/queue.h:544-554 | one element takes the place of another |
| `TailQueue.Concat` | src/dev/librdkafka/queue.h:556-563 | the second queue follows the first, and is empty afterwards |
| `TailQueue.Next` | src/dev/librdkafka/queue.h:420-422 | the following element, or none at the end |
| `TailQueue.LastOrPrev` | src/dev/librdkafka/queue.h:423-426 | reading the Link behind `tqh_last` or `tqe_prev` as a head gives the last or the preceding element, or none |
| `TailQueue.Forward` | src/dev/librdkafka/queue.h:430-433 | every element once, in order |
| `TailQueue.RemoveSafely` | src/dev/librdkafka/queue.h:435-438 | with removals on the way every element is visited once, and exactly the others remain |
| `TailQueue.Backward` | src/dev/librdkafka/queue.h:440-443 | what the forward traversal visits, in reverse |
| `CircleQueue.InsertAfter` | src/dev/librdkafka/queue.h:754-764 | the element comes right after the one given |
| `CircleQueue.InsertBefore` | src/dev/librdkafka/queue.h:766-776 | the element comes right before the one given |
| `CircleQueue.InsertHead` | src/dev/librdkafka/queue.h:778-787 | the element comes first |
| `CircleQueue.InsertTail` | src/dev/librdkafka/queue.h:789-798 | the element comes last |
| `CircleQueue.Remove` | src/dev/librdkafka/queue.h:800-814 | the element is gone, the others keep their order |
| `CircleQueue.Forward` | src/dev/librdkafka/queue.h:816-819 | every element once, in order, and not the sentinel |
| `CircleQueue.Backward` | src/dev/librdkafka/queue.h:821-824 | what the forward traversal visits, in reverse |
| `CircleQueue.LoopNext` | src/dev/librdkafka/queue.h:840-843 | the following element, from the last one to the first |
| `CircleQueue.LoopPrev` | src/dev/librdkafka/queue.h:844-847 | undoes LOOP_NEXT |
| `CircleQueue.Around` | src/dev/librdkafka/queue.h:840-843 | looping from any element visits every element once and comes back |
| `Produce.FillSet` | src/dev/librdkafka/rdkafka_broker.c:1794-1822 | the longest batch from the front of the queue that count and size allow is written; the buffer and the vector stack suffice |
| `Produce.Msgcnt` | src/dev/librdkafka/rdkafka_broker.c:1735-1752 | a request takes what is queued up to the batch size, but 254 messages when both are above 255 |
| `Produce.ProduceHeaderLayout` | src/dev/librdkafka/rdkafka_broker.c:1768-1788 | the octets at which RequiredAcks, Timeout, the single topic, the single partition and MessageSetSize lie |
| `Produce.SizeBound` | src/dev/librdkafka/rdkafka_broker.c:1797-1821 | MessageSetSize is at most max_msg_size plus the overhead of the last message: 22 octets and its key |
| `Produce.SetSizeExact` | src/dev/librdkafka/rdkafka_broker.c:1794-1822 | the size counted for an uncompressed set is the real length exactly when no NULL payload was given a length |
| `Produce.SentSizeExact` | src/dev/librdkafka/rdkafka_broker.c:1821-1842 | MessageSetSize is the real length exactly when the set is compressed, or no NULL payload was given a length |
| `Produce.Compress` | src/dev/librdkafka/rdkafka_broker.c:1690-1706 | when compression succeeds the messages are replaced by one that wraps the compressed octets of exactly these messages; SentIs and SentRead say what its fields are and what a reader makes of it |
| `Produce.ProduceToppar` | src/dev/librdkafka/rdkafka_broker.c:1715-1874 | the request is header, Produce header with the patched MessageSetSize, and the message set of a batch from the front, which a reader turns back into the batch (SentRead); Size is the real length, MessageSetSize under the exact condition; no buffer ever grows, the IOV_MAX clamp included |
| `ProduceRoundTrip.SentSeen` | src/dev/librdkafka/rdkafka_broker.c:1690-1842 | read with a codec that gives back what the compressor took, the set sent is the batch, keys and payloads in order, up to the first NULL payload with more length than there are octets behind it |
| `ProduceRoundTrip.SentRead` | src/dev/librdkafka/rdkafka_broker.c:1690-1842 | with the lengths rd_kafka_msg_new0 gives (`rdkafka_msg.c:72`) the whole batch is read back, compressed or not |
| `ProduceRoundTrip.SetBehindHeaders` | src/dev/librdkafka/rdkafka_broker.c:1766-1822 | the octet of the request at which that set begins |
| `ProduceRoundTrip.PackedSeen` | src/dev/librdkafka/rdkafka_broker.c:1695-1699 | a compressed message is read as the set its codec gives back, whatever its own offset, and also when its size does not fit 32 bits |
| `ProduceRoundTrip.NumberedSeen` | src/dev/librdkafka/rdkafka_broker.c:2457-2500 | the same with any offsets in the messages |
| `ProduceRoundTrip.NumberingIsPatching` | src/dev/librdkafka/rdkafka_buf.c:336-362 | giving a message an offset fills in the first eight octets and changes no other |
| `ProduceRoundTrip.NumberedHandled` | src/dev/librdkafka/rdkafka_broker.c:2502-2552 | with growing offsets, none early, the handler delivers every key and payload of the batch in order |
| `ProduceRoundTrip.PackedHandled` | src/dev/librdkafka/rdkafka_broker.c:2553-2723 | and so it does from inside a compressed message |
| `ProduceRoundTrip.SentHandled` | src/dev/librdkafka/rdkafka_broker.c:2512-2552 | as it is sent, with every offset 0, it would deliver the first message at most, and the whole batch exactly when that is all of it and 0 is not early |
| `MessageFlow.Toppar.AgeScan` | src/dev/librdkafka/rdkafka_msg.c:308-324 | the expired messages at the front leave the queue and are reported, up to the first that has not expired |
| `MessageFlow.Toppar.Enqueue` | src/dev/librdkafka/rdkafka_partition.c:570-575 | a message goes to the tail, and the produce order of everything acknowledged or still to be is kept |
| `MessageFlow.Toppar.Serve` | src/dev/librdkafka/rdkafka_broker.c:2191-2246 | what is not timed out keeps its order and is cut into batches; the loop ends with an empty queue or a message that fits no request; no message is lost or doubled; the produce order is kept exactly when nothing is sent or no request waits for its retry |
| `MessageFlow.Toppar.Reply` | src/dev/librdkafka/rdkafka_broker.c:1437-1524 | each message of the batch is reported, disposed of, put back in front, or waits with its request for a retry, and never two of these; with offset reports the j-th is told the offset of the first plus j, without them only the last is told one, the offset behind it, and none without an offset; the produce order is kept by the answer to the oldest request, by a retry exactly when the request is the newest in flight and none waits already, and by putting back exactly when moreover the transmit queue is empty |
| `MessageFlow.Toppar.Resend` | src/dev/librdkafka/rdkafka_broker.c:1332-1344 | the oldest request that waits for its retry goes behind everything sent; the order it has by then stays |
| `MessageFlow.Toppar.RetryAll` | src/dev/librdkafka/rdkafka_broker.c:287-297 | when a broker fails and every request in flight is retried, the produce order is kept exactly when none waited already or none was in flight |
| `MessageFlow.Toppar.DrMsgq` | src/dev/librdkafka/rdkafka_broker.c:1350-1376 | each message of the batch is reported once, or disposed of once |
| `MessageFlow.Toppar.OnePlace` | src/dev/librdkafka/rdkafka_broker.c:1437-1524 | each message is in exactly one place, and reported or disposed of at most once |
| `MessageFlow.PutBackOldestFirst` | src/dev/librdkafka/rdkafka_partition.c:591-597 | a run from a new partition: two requests put back, the older first, leave the messages in the wrong order with an empty transmit queue all the time |
| `MessageFlow.RetriedBehind` | src/dev/librdkafka/rdkafka_broker.c:1301-1344 | a run from a new partition: the first of two requests is retried, and the broker acknowledges the second one's message before the first one's |
| `MessageFlow.Overtaken` | src/dev/librdkafka/rdkafka_broker.c:1301-1344 | a run from a new partition: a message produced while the only request waits for its retry is sent before it |
| `FetchFormat.RunsFlatten` | src/dev/librdkafka/rdkafka_broker.c:3121-3162 | grouping by neighbouring topic neither loses, repeats nor reorders a partition, and neighbouring groups differ |
| `FetchFormat.RoundTrip` | src/dev/librdkafka/rdkafka_broker.c:3110-3187 | decoding a request gives back topics, partitions, offsets and counts, with nothing left over |
| `FetchFormat.FetchHeadLayout` | src/dev/librdkafka/rdkafka_broker.c:3108-3119 | the octets at which ReplicaId, -1, MaxWaitTime, MinBytes and the number of topics lie |
| `FetchFormat.PartLayout` | src/dev/librdkafka/rdkafka_broker.c:3152-3162 | and those of partition, offset and most octets |
| `FetchFormat.AsksForAll` | src/dev/librdkafka/rdkafka_broker.c:3121-3187 | what a decoder finds is the list of partitions the request was built for, in order |
| `FetchFormat.AskingAt` | src/dev/librdkafka/rdkafka_broker.c:3121-3162 | the i-th thing asked for is the i-th partition of its topic, from its own offset |
| `Fetch.AddPart` | src/dev/librdkafka/rdkafka_broker.c:3123-3150 | one partition is added, and on a change of topic the count of the topic before is filled in |
| `Fetch.BuildFetch` | src/dev/librdkafka/rdkafka_broker.c:3079-3204 | with counts filled in afterwards and a buffer that grows, the request is that of the ring from the start pointer once around; the start pointer moves by one |
| `Fetch.RequestAsksForRing` | src/dev/librdkafka/rdkafka_broker.c:3121-3163 | a decoder finds every partition of the ring, from the start pointer once around |
| `Fetch.OrderIsPermutation` | src/dev/librdkafka/rdkafka_broker.c:3121-3163 | each partition is asked for exactly once |
| `Fetch.EachFirstOnce` | src/dev/librdkafka/rdkafka_partition.h:323-334 | over n requests on a ring of n, each partition goes first exactly once |
| `Assignor.SubscriptionMatch` | src/dev/librdkafka/rdkafka_assignor.c:161-194 | the topic is listed once for each matching entry, and the member is complete when no regular expression matched and the list is as long as the subscription |
| `Assignor.SubscribersExact` | src/dev/librdkafka/rdkafka_assignor.c:214-247 | the members of a topic are those with an entry that matches it |
| `Assignor.SubscribersAscend` | src/dev/librdkafka/rdkafka_assignor.c:214-247 | in the order of the members |
| `Assignor.EligibleSplit` | src/dev/librdkafka/rdkafka_assignor.c:204-247 | the eligible topics are those that are not blacklisted and have a member, in the order listed |
| `Assignor.MapSubscriptions` | src/dev/librdkafka/rdkafka_assignor.c:204-261 | eligible topics and all lists are those of a scan up to the first topic that takes the early exit; they equal the full scan exactly when no topic behind that one is wanted, and always with exact names and distinct topics |
| `Assignor.NothingMissed` | src/dev/librdkafka/rdkafka_assignor.c:250-252 | stopping early loses nothing exactly when none of the topics left is wanted by a member |
| `Assignor.EarlyExitExact` | src/dev/librdkafka/rdkafka_assignor.c:250-252 | with exact names and distinct topics the early exit loses nothing |
| `Assignor.RegexNeverExits` | src/dev/librdkafka/rdkafka_assignor.c:188-194 | with regular expressions only, the early exit is never taken |
| `Assignor.MixedExitsTooSoon` | src/dev/librdkafka/rdkafka_assignor.c:188-252 | with both kinds the exit can come before a topic a regular expression wants |
| `Deploy.KeptIsNewest` | example/PrjDeployCtrl/DeployCtrl.py:125-132 | what is kept for a module was published and is not older than any other publication heard |
| `Deploy.ArrivalOrder` | example/PrjDeployCtrl/DeployCtrl.py:125-132 | the cache is the same for every order of arrival, and loading brings it back, exactly when the module has one newest publication |
| `Deploy.DistinctTimesSuffice` | example/PrjDeployCtrl/DeployCtrl.py:130-132 | distinct publish times give one newest publication |
| `Deploy.SameTimeLastWins` | example/PrjDeployCtrl/DeployCtrl.py:130-132 | of two publications at one time the cache keeps the later arrival, and loading keeps the first one found |
| `Deploy.Controller.InitDb` | example/PrjDeployCtrl/DeployCtrl.py:22-37 | servers and cache are loaded; the cache is the newest stored publication of each module, and from then on all that is said of a controller that has heard of these holds |
| `Deploy.LoadedIsKept` | example/PrjDeployCtrl/DeployCtrl.py:29-37 | loading gives the cache of a controller that heard the stored publications in the opposite order |
| `Deploy.Controller.DealPublish` | example/PrjDeployCtrl/DeployCtrl.py:125-134 | an older publication is ignored, any other is kept and sent to every server |
| `Deploy.Controller.DealUpdateCheck` | example/PrjDeployCtrl/DeployCtrl.py:98-109 | the server's version is recorded, and answered exactly when the cache has something else |
| `Deploy.Controller.HoldsNewest` | example/PrjDeployCtrl/DeployCtrl.py:125-132 | at any time the cache holds the newest publication heard of each module |
| `Deploy.Download` | src/dev/aods/DownloadThread.cpp:40-62 | three tries at most: the first content that arrives decides, and is kept exactly when it has the hash that was asked for; without any, the last try says which failure is reported |
| `Deploy.Agent.StartUmiSyn` | src/dev/aods/UpdateModuleMgr.cpp:164-190 | the saved configuration is reloaded and each of its modules asked about once |
| `Deploy.Agent.OnRecvUmi` | src/dev/aods/UpdateModuleMgr.cpp:203-238 | a forced update of a managed module becomes one download |
| `Deploy.Agent.OnDownloadResult` | src/dev/aods/UpdateModuleMgr.cpp:62-163 | the module's version and hash change exactly when fetching and unpacking succeeded, a failed restart included, and are saved; the report names the first thing that failed |
| `Deploy.Deployment.Publish` | example/PrjDeployCtrl/DeployCtrl.py:125-127 | a publication on its way leaves other modules settled, up to date and quiet |
| `Deploy.Deployment.HearPublish` | example/PrjDeployCtrl/DeployCtrl.py:125-134 | every update under way and everything installed was published, or was there from the start; other modules stay settled, up to date and quiet |
| `Deploy.Deployment.Sync` | src/dev/aods/UpdateModuleMgr.cpp:164-190 | the agent asks once about each module it has saved; settled, up-to-date and quiet modules stay so |
| `Deploy.Deployment.HearCheck` | example/PrjDeployCtrl/DeployCtrl.py:98-109 | a check keeps a module settled and up to date, and leads to no update once the module is quiet |
| `Deploy.Deployment.HearUpdate` | src/dev/aods/UpdateModuleMgr.cpp:203-238 | an update becomes a download of the same pair; settled modules stay settled |
| `Deploy.Deployment.Finish` | src/dev/aods/UpdateModuleMgr.cpp:62-163 | a successful download of the cache's pair brings the module up to date, and no download takes it back |
| `Deploy.Deployment.OneRound` | example/PrjDeployCtrl/DeployCtrl.py:98-109 | once publications and older updates have drained, one check with a successful update makes the agent equal the cache, and it stays so without another update exactly when no stale check was on its way |
| `Deploy.FromDatabase` | example/PrjDeployCtrl/DeployCtrl.py:22-37 | a controller with any loaded database and any agent it knows: one round brings the agent the newest stored publication, and no further update follows |
| `Umi.ParseUmi` | src/dev/aods/UpdateModuleMgr.cpp:203-228 | no octet behind the message is read, and a packed message is read back field by field |
| `Umi.SamePack` | src/dev/aods/UpdateModuleMgr.cpp:191-202 | strings packed behind each other are read in one way only |
| `Umi.FitsExactly` | src/dev/aods/UpdateModuleMgr.cpp:191-202 | a question fits the 1024 octets of both buffers exactly when its four strings have at most 1005 |
| `Umi.SendUmi` | src/dev/aods/UpdateModuleMgr.cpp:239-247 | a question that fits is the channel, the message code and its strings, packed |

## Left out

- MessageSet.Handle: `fuel` bounds the messages looked at, because a length below -1 can move the read offset back to where it was; every finite piece of a run is covered, and `SetHandled` holds for all fuel from the number of messages on.
- MessageSet.Handle: a length below -1 that moves the read offset in front of the buffer ends the model's run; where the source's offset wraps is not modelled.
- Requests.Broker.Fail: does not undelegate partitions or query for leaders.
- WriteBuffer.Buffer.WriteMessage: the block has room for the fields it copies, as it always has where Produce requests are built; growing in the middle would move memory that pushed vectors point into, which the warning at `rdkafka_buf.c:116-118` forbids.
- Requests.Broker.Sent: does not keep the count of blocking requests.
- Requests.Broker.Submit: the op queues are kept apart by kind, so the order between a transmit op and a retry op is not modelled; a request made inside a callback is a step of its own.
- Produce.ProduceToppar: codecs other than "none" are one abstract compressor that may fail; the arithmetic of the declared sizes is unbounded, where the source has 32 bits.
- MessageFlow.Toppar.Reply: without `produce.offset.report` only the last message of a batch gets an offset, one past its own, as the code has it.
- MessageFlow.Toppar.Resend: the retry queue is that of one partition; when a backoff has passed is a step that may come at any time.
- Fetch.BuildFetch: does not set the version barrier of the request; the ring is a sequence walked by position, its links are those of CircleQueue.
- Cgrp.Group.Terminate: the call without a reply that `rdkafka.c:434-435` makes while the client is destroyed, usually in state TERM, is not modelled; ops reach the group only before TERM.
- Cgrp.Group.OffsetsCommit: which offsets are worth committing is a parameter; committed offsets of partitions are not stored.
- Cgrp.Group.JoinProgress: the JoinGroup and SyncGroup exchange is reduced to the join states it can set.
- Deploy.Agent.OnRecvUmi: file names, directories and the choice of the download thread are not modelled.
- Umi.SendUmi: a question that does not fit its buffers is not modelled; the code does not check.
- Deploy.Controller.DealPublish: publish times are integers that order like their text; a publication without a time is not modelled.
- Real threads, locks, sockets, TLS, SASL, timers and the event loop that calls the handlers.
- zlib and snappy themselves, JSON, HTTP, redis, encryption of update files, and unpacking of archives.
- The zlib branch of the CRC functions.
- Logging, statistics, configuration, the public API headers, the C++ wrapper, and everything in `example/PrjUi`.
- The other queue kinds of `queue.h` (LIST, SLIST, STAILQ, SIMPLEQ) and LIST_MOVE.
- The range and round-robin assignors that use the eligible lists: they would add only list handling.
- Activation, authentication and update results of the deployment controller: each is one dictionary access.
