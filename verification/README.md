# LightRPC, modelled and proved in Dafny

LightRPC is an RPC stack for Linux: an event loop with a timing wheel, TCP connections with growable
buffers, a length-prefixed frame codec over a protobuf envelope, a client that matches responses to
pending calls, and a server that dispatches requests to a thread pool and stops gracefully. This
project models the state of those parts, states what they promise each other, and proves it for all
inputs, all runs and all thread interleavings. `dafny verify dfyconfig.toml` covers the whole project.

## How the model is built

Code that changes state step by step is imperative here too: `TimeWheel`, `Buffer`, `TcpConnection`,
`TcpServer`, `Pool`, `EventLoop`, `RequestMessage`, `ResponseMessage`, `RpcService`, `RpcClient` and
`RpcServer` are classes whose methods follow the source branch by branch, each proved against a function
of the old state. What the source promises is then proved about those functions.

Threads are interleavings. Each action of a protocol is one region under a mutex, one hand-off through
the loop's queue, one callback, or one sleep, wakeup or notification; an action sequence is a run, and the
theorems quantify over all of them. An action that is not enabled leaves the state as it is, so every
sequence of actions is a run. The client's timers are nodes of the timing wheel itself, tombstones, reused
ids and all: a timer that was removed too late, or not found, goes off in these runs as it does in the code.

| files | what they model |
|---|---|
| `TimingWheel`, `WheelIntegrity`, `WheelCountdown`, `WheelTiming`, `WheelRemoval` | the timing wheel; its index; its refinement of a countdown map; its real-time bounds; what becomes of removed timers |
| `ByteBuffer`, `Codec`, `TcpConnections`, `MessageChannel` | the byte buffer in place; framing; one connection; two connections as a FIFO message channel |
| `WireFormat`, `WireTheorems`, `Envelope`, `RpcCodec` | the protobuf wire format; its laws; the generated message classes; the codec at the two messages |
| `ThreadPools`, `PoolProtocol` | the pool's critical sections; its threads, with both condition variables' wait sets |
| `EventLoops` | the functor queue between threads and loop |
| `CallLedger`, `ClientProtocol`, `ClientTheorems`, `ClientOutcomes`, `ClientTimers`, `ClientTimeouts`, `ClientDisarms`, `ClientProgress`, `RpcClients`, `ClientAgreement` | where each call's callback is; the client's threads and its wheel; exactly one callback; what it is told and why; its time bounds; timers taken away; why Stop completes every call and when it returns; the client as an object, and that it is the same client |
| `RpcServices`, `ServerProtocol`, `ServerTheorems`, `ServerReplies`, `ServerProgress`, `ServerExit`, `RpcServers`, `TcpServers` | the method table; the server's threads; the order of a graceful stop; every task answered; when Stop returns; what the loop leaves behind; the server as an object; the connection registry |
| `RpcSystem`, `EndToEnd`, `SystemRuns`, `SuccessfulCall` | client, both channel directions and server composed; what a caller may conclude; every answer accounted for; that every call can succeed |
| `Basics`, `ErrorCodes` | shared types, C++ integer operations, the error codes |

## Assumptions

- A request id is fresh when it is generated: never issued before and never seen in a response, and not
  empty. `std::hash` narrowed to `int` is an arbitrary function from ids to timer ids; only `NoneStranded`,
  `CalledBackInTime` and what they rest on assume it keeps apart the ids that are in flight: pending, named
  by the wheel's index, or about to have a timer removed.
- A socket write takes any number of the offered bytes or fails; a read delivers any non-empty prefix of
  what is under way; TCP itself is a reliable FIFO byte stream. The kernel does not hand out a descriptor
  that is still open.
- The clock is an arbitrary function of the moment it is read: the source reads `high_resolution_clock`, which need
  not be steady. Only the time bounds assume that ticks do
  not go back, and only the upper bound assumes no two ticks are 2^31 ms apart (the elapsed time is
  narrowed to `int`).
- Start is called at most once and has returned before Stop is called. One thread, not the loop's, calls Stop; a
  second Stop, or the destructor beside it, fails the compare-exchange and returns while the first may still be
  joining (code/rpc/rpc_client.cc:37-39), so what is said of a Stop that has returned is said of the first.
- The protobuf runtime reads a tag or a length in at most 5 bytes and a number in at most 10, refuses
  lengths over INT_MAX - 16 and groups nested deeper than 100. UTF-8 validity is an arbitrary predicate.
- A method handler is arbitrary: it may return any response, throw a `std::exception` after filling any part
  of the response, or throw something else, in which case the pool swallows it and no reply is sent. A worker
  passes a response on if it encodes and the connection is up; the second is the environment's choice.

## Where the code does less than one would expect

- "A timer never fires before its delay" is false. The wheel advances by the time since its last tick, so
  a timer armed long after the last tick starts with part of its delay already used up
  (`WheelTiming.FiresAtOnce`: 20 ms asked for, fired after 0). `WheelTiming.EarlyIffLagging` gives the exact
  condition over all runs; the lower bound that does hold is relative to the last tick
  (`WheelTiming.NeverBeforeLastTickPlusDelay`).
- Sweeping a tombstone erases the index entry of its id, whoever has it now (code/base/timer/timer.cc:39-41).
  `WheelIntegrity.ReusedIdFiresAfterRemove` is a run in which a removed timer fires because of that.
  `WheelRemoval.RemovedFiresIff` says exactly when it can, for every wheel: when another node of the same id, dead
  or alive, will be reached before the new timer runs out. A live one is left behind when a sweep has erased its
  entry (`WheelRemoval.OrphanLetsRemovedFire`). `WheelIntegrity.AddKeepsBijectiveIff` is about the index only: a
  tombstone that will be swept later breaks the bijection and does no harm.
- `Codec::encode` checks the length against `UINT32_MAX`, not against `MAX_FRAME_SIZE`
  (code/protocol/codec.h:28), so a frame can be sent that the other end treats as corrupt;
  `RpcCodec.OversizedFrame` is such a request, one byte over; `Codec.FrameRoundTrip` and
  `RpcCodec.RequestDeliverable` give the exact condition.
- The method table joins service and method name with a dot, so two methods can share a key
  (`RpcServices.KeysCollide`); `RpcServices.KeyIdentifiesIff` says exactly which cannot.
- A call with a negative timeout is registered but its timer is silently refused
  (`ClientTimers.NegativeTimeoutNeverArmed`).
- The loop may leave with functors still queued, as `quit_` is tested after the swap: executed functors are only a
  prefix of the queued ones. `ServerExit.ExitLosesPending` says exactly when all of them run; in
  `ServerExit.StoppedUnswept` Stop returns although the functor that closes the connections never ran.
- "Stop returns" is false of a client or server stopped right after it was started. `Loop()` clears `quit_` on entry
  (code/network/core/event_loop.cc:21), so a Quit between the start of the thread and that line is lost and the join
  waits for ever (`ClientProgress.HastyHangs`, `ServerExit.HastyStopHangs`). `ClientProgress.StopReturnsIff` and
  `ServerProgress.StopReturnsIff` show that nothing else keeps Stop from returning; the client's calls are completed
  all the same (`ClientProgress.StopCompletesEveryCall`).

## Model

| member | source | states |
|---|---|---|
| TimingWheel.VisitList | code/base/timer/timer.cc:38-51 | the in-place loop over one slot keeps, fires and unindexes exactly the nodes it should, in list order, for any clock readings on the way |
| TimingWheel.TimeWheel.AddTimer | code/base/timer/timer.cc:8-24 | the wheel after arming, with the negative delay and the id already present as no-ops |
| TimingWheel.TimeWheel.Tick | code/base/timer/timer.cc:26-57 | as many slot steps as the elapsed time, narrowed to `int` and truncated, has ticks; returns all that fired, in order; a negative count still moves the last tick |
| TimingWheel.TimeWheel.RemoveTimer | code/base/timer/timer.cc:59-66 | the named node becomes a tombstone and the entry goes; an unknown id changes nothing |
| WheelIntegrity.KeptMember | code/base/timer/timer.cc:38-51 | a node stays in a visited slot exactly if it is neither a tombstone nor due, with one round less |
| WheelIntegrity.FiredMember | code/base/timer/timer.cc:42-46 | a node fires exactly if it is live and out of rounds or past its expiry |
| WheelIntegrity.UnindexedMember | code/base/timer/timer.cc:38-51 | an id keeps its entry exactly if no node bearing it leaves the visited slot |
| WheelIntegrity.AddKeepsWellFormed | code/base/timer/timer.cc:8-24 | no entry dangles and no two nodes share a handle after arming, whatever ids are reused |
| WheelIntegrity.RemoveKeepsWellFormed | code/base/timer/timer.cc:59-66 | the same after a removal: the iterator RemoveTimer follows always names a live node in the slot it says |
| WheelIntegrity.TickKeepsWellFormed | code/base/timer/timer.cc:26-57 | the same after a tick of any number of slot steps |
| WheelIntegrity.AddKeepsBijectiveIff | code/base/timer/timer.cc:8-24 | arming keeps the index a bijection with the live nodes, none of them sharing its id with a tombstone, if and only if no tombstone of that id is in the wheel (or nothing is armed) |
| WheelIntegrity.RemoveKeepsBijective | code/base/timer/timer.cc:59-66 | removal keeps the bijection and leaves no live node of that id |
| WheelIntegrity.TickKeepsBijective | code/base/timer/timer.cc:26-57 | ticking keeps the bijection |
| WheelIntegrity.ReusedIdFiresAfterRemove | code/base/timer/timer.cc:39-41 | a concrete run in which an id is reused too early and a removed timer fires |
| WheelIntegrity.StaysUntilVisited | code/base/timer/timer.cc:35-54 | a node stays in its slot until the cursor gets there |
| WheelIntegrity.TombstoneSwept | code/base/timer/timer.cc:39-41 | the first visit of its slot frees a tombstone for good, whatever its rounds |
| WheelCountdown.SlotStepRefines | code/base/timer/timer.cc:35-54 | one slot step is one step of a countdown map, and fires exactly the timers the map has due, each once |
| WheelCountdown.AdvanceRefines | code/base/timer/timer.cc:35-54 | any number of slot steps is that many countdown steps |
| WheelCountdown.AdvanceFires | code/base/timer/timer.cc:35-54 | a timer fires exactly once if it drops out of the countdown map and not at all otherwise |
| WheelCountdown.AddRefines | code/base/timer/timer.cc:16-23 | arming inserts a countdown of delay / tick steps; slot and rounds together encode that number |
| WheelCountdown.RemoveRefines | code/base/timer/timer.cc:59-66 | removal erases exactly the countdown the id's entry names |
| WheelCountdown.AdvanceIndex | code/base/timer/timer.cc:35-54 | seen by id, while the index is a bijection, ticking erases exactly the ids it fires |
| WheelTiming.RunRefines | code/base/timer/timer.cc:8-66 | along every sequence of operations the wheel stays well formed and stays a countdown map |
| WheelTiming.RunFromEmpty | code/base/timer/timer.cc:8-66 | so every wheel the code can reach from construction is a countdown map that starts empty |
| WheelTiming.Lifetime | code/base/timer/timer.cc:26-57 | a timer is, after any run, alive with exactly that many steps fewer to go and never fired, or gone and fired exactly once unless its id was removed |
| WheelTiming.StepsLower | code/base/timer/timer.cc:28-29 | slot steps never run ahead of the clock: steps * tick <= elapsed time, with no bound on the gaps |
| WheelTiming.StepsUpper | code/base/timer/timer.cc:28-56 | nor lag by a factor of two: elapsed time < 2 * steps * tick once a step was taken |
| WheelTiming.NeverBeforeLastTickPlusDelay | code/base/timer/timer.cc:26-57 | a timer never fires before last tick at registration + delay, unless a clock reading in the firing tick has reached its expiry |
| WheelTiming.FiredInTime | code/base/timer/timer.cc:26-57 | if its id is not removed it has fired exactly once when ticking is 2 * (delay / tick + 1) ticks past the last tick at registration |
| WheelTiming.EarlyOnlyIfLagging | code/base/timer/timer.cc:16-56 | over all runs, whatever happens between arming and firing, only a wheel that lags by more than the rounding leaves fires a timer less than its delay after it was armed |
| WheelTiming.EarlyIffLagging | code/base/timer/timer.cc:16-56 | and such a wheel does, in some run: an early firing is possible if and only if the wheel lags too much |
| WheelTiming.FiresAtOnce | code/base/timer/timer.cc:16-56 | a concrete early firing: last tick at 0, 20 ms asked for at 100 ms, fired by a tick at 100 ms |
| WheelTiming.StillThereMeansRecent | code/base/timer/timer.cc:26-57 | as long as a timer's node is live, ticking is less than 2 * (delay / tick + 1) ticks past the last tick at its arming |
| WheelRemoval.RunKeepsBijective | code/base/timer/timer.cc:8-66 | along every run that arms no id whose tombstone is still there, the index is a bijection with the live nodes |
| WheelRemoval.RemovedStaysSilent | code/base/timer/timer.cc:59-66 | with the bijection, a removed timer never fires in any later run until its id is armed again |
| WheelRemoval.RunSweepsTombstone | code/base/timer/timer.cc:38-53 | along every run a tombstone is there until the cursor reaches its slot, less than 1024 steps away, and is physically gone afterwards |
| WheelRemoval.RemovedFiresIff | code/base/timer/timer.cc:38-66 | for every wheel: a timer can fire although it was removed if and only if, when it is armed, the wheel holds another node of its id, dead or alive, that the cursor reaches before the timer runs out |
| WheelRemoval.OrphanLetsRemovedFire | code/base/timer/timer.cc:38-66 | a run from the empty wheel to a wheel without tombstones in which a live node that lost its entry lets the next timer of its id fire after its removal |
| WheelRemoval.RemovalWorks | code/base/timer/timer.cc:38-66 | when there is no such node, removal works along every run: whatever is armed and removed under other ids before, early reuse included, and whatever happens at all afterwards, the removed timer does not fire |
| ByteBuffer.Buffer.Append | code/base/buffer/buffer.cc:42-53 | appending is concatenation |
| ByteBuffer.Buffer.Retrieve | code/base/buffer/buffer.cc:28-40 | retrieving drops a prefix |
| ByteBuffer.Buffer.Compact | code/base/buffer/buffer.cc:124-129 | the overlapping in-place move keeps the contents |
| ByteBuffer.Buffer.MakeSpace | code/base/buffer/buffer.cc:120-131 | room is made without changing the contents, and the array stays within max(initial, 2P, P + 4096), P the most it ever had to hold |
| ByteBuffer.Buffer.EnsureWritable | code/base/buffer/buffer.cc:42-47 | the room asked for is there, contents unchanged |
| ByteBuffer.Buffer.ReadFd | code/base/buffer/buffer.cc:90-109 | exactly the bytes read are appended, also when they spill over into the second array; an error changes nothing |
| ByteBuffer.Buffer.ReadString | code/base/buffer/buffer.cc:59-64 | the result followed by what is left is what was there |
| ByteBuffer.Buffer.ReadInt32 | code/base/buffer/buffer.cc:76-88 | reads four bytes in network order and drops them |
| Codec.DecodeStable | code/protocol/codec.h:44-67 | a decision taken on a prefix of the stream is not changed by further bytes |
| Codec.DecodeAllAppend | code/rpc/rpc_client.cc:144-158 | decoding a longer stream is decoding the first part, then its remainder with the rest |
| Codec.ChunkingInvariance | code/rpc/rpc_server.cc:84-99 | for every cut of a stream into reads, the loop dispatches exactly the frames of the whole stream, keeps exactly the undecoded suffix, closes exactly if there is a corrupt frame, and dispatches nothing after it |
| Codec.FrameRoundTrip | code/protocol/codec.h:21-67 | an encoded message decodes to itself if and only if its payload is at most MAX_FRAME_SIZE and parses back; otherwise the frame is corrupt |
| Codec.CutFrame | code/protocol/codec.h:44-61 | a cut frame is never taken for a whole one |
| Codec.PrefixDecodes | code/protocol/codec.h:21-67 | from any prefix of a stream of frames, only a prefix of the messages is decoded, and corruption is met only at an undeliverable one |
| Codec.WholeDecodes | code/protocol/codec.h:21-67 | from the whole stream, exactly the messages before the first undeliverable one |
| TcpConnections.SendKeepsSound | code/network/tcp/tcp_connection.cc:47-68 | whatever `write` takes, written bytes followed by buffered bytes are the accepted sends, and buffered bytes have EPOLLOUT on |
| TcpConnections.WriteEventKeepsSound | code/network/tcp/tcp_connection.cc:100-115 | the same after a writable event |
| TcpConnections.DrainFrames | code/rpc/rpc_server.cc:84-99 | the decode loop over the buffer in place computes the whole-stream decoder and leaves its remainder |
| TcpConnections.TcpConnection.SendInLoop | code/network/tcp/tcp_connection.cc:47-68 | the sending side after a send, for every result of `write` |
| TcpConnections.TcpConnection.HandleWrite | code/network/tcp/tcp_connection.cc:100-115 | the sending side after a writable event |
| TcpConnections.TcpConnection.HandleRead | code/network/tcp/tcp_connection.cc:79-98 | data feeds the decoder; end of stream closes; an error closes unless transient; nothing is delivered once disconnected |
| TcpConnections.TcpConnection.HandleClose | code/network/tcp/tcp_connection.cc:117-134 | the close is reported exactly once, however often it happens |
| MessageChannel.StepKeepsInvariant | code/network/tcp/tcp_connection.cc:47-115 | bytes read, under way and buffered are, in order, the frames of the messages accepted |
| MessageChannel.DispatchedIsPrefix | code/network/tcp/tcp_connection.cc:47-115 | for any partial writes, reads and sends, what the receiver dispatched is a prefix of what the sender accepted |
| MessageChannel.DrainedIsComplete | code/network/tcp/tcp_connection.cc:47-115 | once all bytes are flushed and read, everything sent has been dispatched, or exactly what precedes the first undeliverable message |
| MessageChannel.BufferedBytesAreScheduled | code/network/tcp/tcp_connection.cc:52-67 | in every run, a connected sender with buffered bytes waits for a writable event |
| MessageChannel.SentIsOffered | code/network/tcp/tcp_connection.cc:28-77 | the channel takes every message that encodes, in order, until its sender closes, and no other |
| MessageChannel.CanDrain | code/network/tcp/tcp_connection.cc:53-134 | from every state of a channel whose ends are up, one write event and one read event get everything sent dispatched, if it is deliverable |
| WireTheorems.ParseAppend | code/protocol/rpc.pb.cc:238-304 | parsing a concatenation is parsing the second part into the result of the first |
| WireTheorems.VarintRoundTrip | code/protocol/rpc.pb.cc:640-684 | a varint is read back, whatever follows it |
| WireTheorems.VarintLength | code/protocol/rpc.pb.cc:686-721 | the size table is the length of the encoding |
| WireTheorems.RoundTrip | code/protocol/rpc.pb.cc:238-423 | for any schema of texts, blobs and int32 fields, parsing what was serialized gives the message back if and only if its texts are valid and its lengths fit |
| WireTheorems.ConcatenationMerges | code/protocol/rpc.pb.cc:402-423 | parsing two serialized messages one after the other is merging the second into the first |
| WireTheorems.SizeIsLength | code/protocol/rpc.pb.cc:356-395 | the announced size is the number of bytes written |
| Envelope.RequestRoundTrip | code/protocol/rpc.pb.cc:238-354 | a request comes back from its bytes exactly if its three texts are valid UTF-8 and all lengths fit; otherwise the bytes do not parse |
| Envelope.ResponseRoundTrip | code/protocol/rpc.pb.cc:574-684 | the same for responses, for every int32 code including the negative ones |
| Envelope.RequestMessage.InternalParse | code/protocol/rpc.pb.cc:238-304 | the generated parse loop computes the wire format's parse, unknown fields and groups skipped, last one wins |
| Envelope.RequestMessage.InternalSerialize | code/protocol/rpc.pb.cc:306-354 | the generated writer produces exactly the wire format's bytes |
| Envelope.RequestMessage.ByteSizeLong | code/protocol/rpc.pb.cc:356-395 | the announced size is the length of what is written |
| Envelope.RequestMessage.MergeFrom | code/protocol/rpc.pb.cc:402-423 | fields set in the other message win, the rest stay |
| Envelope.ResponseMessage.InternalParse | code/protocol/rpc.pb.cc:574-638 | as for requests, with the int32 code truncated from its varint |
| Envelope.ResponseMessage.InternalSerialize | code/protocol/rpc.pb.cc:640-684 | as for requests, a negative code as its ten-byte sign extension |
| Envelope.ResponseMessage.ByteSizeLong | code/protocol/rpc.pb.cc:686-723 | the announced size is the length of what is written |
| Envelope.ResponseMessage.MergeFrom | code/protocol/rpc.pb.cc:730-751 | fields set in the other message win, the rest stay |
| RpcCodec.RequestsFaithful | code/protocol/codec.h:21-67 | no request comes back from the wire as a different one |
| RpcCodec.RequestEncodes | code/protocol/codec.h:21-37 | a request is encoded if and only if its fields, sized one by one, take at most INT_MAX bytes, and the frame is that size and four |
| RpcCodec.ResponseEncodes | code/protocol/codec.h:21-37 | the same for responses, negative codes taking ten bytes |
| RpcCodec.RequestDeliverable | code/protocol/codec.h:21-67 | the other end decodes exactly the requests whose fields take at most MAX_FRAME_SIZE bytes and whose non-empty texts are valid; all of them are encoded |
| RpcCodec.ResponseDeliverable | code/protocol/codec.h:21-67 | the same for responses |
| RpcCodec.OversizedFrame | code/protocol/codec.h:28-58 | a request with a body one byte over the limit is encoded, and is a corrupt frame to the other end |
| ThreadPools.Pool.AddTask | code/base/pool/threadpool.h:68-77 | closed is told before full; otherwise the task goes to the end of the queue |
| ThreadPools.Pool.TryAddTask | code/base/pool/threadpool.h:79-89 | the same, as a boolean |
| ThreadPools.Pool.WorkerAcquire | code/base/pool/threadpool.h:25-34 | sleep, leave or take the oldest task, exactly by what the queue and the closed flag say |
| ThreadPools.Pool.WorkerComplete | code/base/pool/threadpool.h:41-47 | the last active worker of an empty pool, and only it, notifies the waiters |
| PoolProtocol.NextKeepsWakeup | code/base/pool/threadpool.h:26-76 | no lost wakeup: while a worker sleeps, queued tasks are covered by notifications on their way and workers about to look |
| PoolProtocol.NextKeepsWaiter | code/base/pool/threadpool.h:41-94 | nobody sleeps unnotified in WaitForTasks once the pool is drained |
| PoolProtocol.NextKeepsConserved | code/base/pool/threadpool.h:23-48 | accepted = queued + in hand + finished, tasks start in acceptance order, activeTasks counts the workers with a task, the queue keeps its bound |
| PoolProtocol.RunInvariant | code/base/pool/threadpool.h:17-94 | all of that in every interleaving of any number of threads, spurious wakeups included |
| PoolProtocol.NeverStuck | code/base/pool/threadpool.h:25-94 | while there is work, somebody in WaitForTasks, or a worker to join, some thread moves without a spurious wakeup |
| PoolProtocol.DrainedMeansFinished | code/base/pool/threadpool.h:91-94 | when WaitForTasks may return, everything accepted has finished |
| PoolProtocol.JoinedMeansFinished | code/base/pool/threadpool.h:53-66 | when the destructor has joined all workers, everything ever accepted has finished |
| PoolProtocol.AtMostOnce | code/base/pool/threadpool.h:31-38 | no task is run twice, or run while still queued |
| EventLoops.QueueLaws | code/network/core/event_loop.cc:71-96 | link between definitions: how pushing, swapping and running change the sequence of everything queued |
| EventLoops.EventLoop.HandlePendingFunctors | code/network/core/event_loop.cc:85-96 | runs exactly what was queued at the swap, in order; what is pushed meanwhile, by a functor or by another thread, waits in order for the next swap |
| ClientTheorems.RunAccounted | code/rpc/rpc_client.cc:37-212 | in every interleaving, callbacks moved out are in the hands of a thread that is about to invoke them |
| ClientTheorems.AtMostOneCallback | code/rpc/rpc_client.cc:52-212 | in every interleaving of calls, responses, timeouts, encode failures, losses and Stop, each issued call is in exactly one place and no callback runs twice |
| ClientTheorems.EmptyAfterStop | code/rpc/rpc_client.cc:37-68 | once Stop has swapped, pending_calls_ is empty for ever |
| ClientTheorems.ExactlyOneCallback | code/rpc/rpc_client.cc:37-212 | when all threads are quiescent every issued call has been called back exactly once |
| ClientOutcomes.DeliveredByCause | code/rpc/rpc_client.cc:52-212 | in every run a callback is invoked with what the first action to get to its call makes of it: a response exactly as it came, whatever its code, or the client's own error with the code of that cause |
| ClientOutcomes.CauseIsGrounded | code/rpc/rpc_client.cc:52-212 | and the cause is real: the client was stopped or unconnected, the request did not encode, a response with this id was taken, a node of this call fired, the loss was noticed with that code, or Stop was called |
| ClientTheorems.ConnectedIff | code/network/tcp/tcp_client.cc:77-148 | a call is let in exactly while the last connection made has not been lost or taken down |
| ClientProgress.StepMeasure | code/rpc/rpc_client.cc:37-212 | after the call of Stop every step of a thread inside CallRaw, a loop callback or Stop lowers a natural number, and only a response, a tick or a fired timer raises it |
| ClientProgress.StepsAreBounded | code/rpc/rpc_client.cc:37-212 | so however the threads are scheduled they take a bounded number of steps, given the input that still arrives |
| ClientProgress.StopCompletesEveryCall | code/rpc/rpc_client.cc:37-68 | from every state after the call of Stop, boundedly many steps bring all threads to rest, and then every call ever issued has been called back exactly once; Stop has returned too unless the loop was entered after Quit |
| ClientProgress.OvertakenIff | code/network/core/event_loop.cc:20-24 | the loop misses its quit flag in exactly the runs in which Quit is called after the thread was started and before it has entered the loop |
| ClientProgress.StopReturnsIff | code/rpc/rpc_client.cc:37-50 | once called, Stop can still return if and only if no such Quit has happened |
| ClientProgress.EnteredInTime | code/rpc/rpc_client.cc:37-50 | with the loop entered, or never started, when Stop is called, no schedule loses the flag, and until Stop returns some thread can go on |
| ClientProgress.HastyHangs | code/rpc/rpc_client.cc:30-46 | a concrete run, Start followed at once by Stop, after which Stop returns in no continuation |
| ClientTimers.NextKeepsNodesSound | code/rpc/rpc_client.cc:70-93 | every live node of the client's wheel is that of a call with a non-negative timeout, under its timer id |
| ClientTimers.HasTimerAfter | code/rpc/rpc_client.cc:164-175 | with distinct timer ids in flight, the node of a pending call stays in the wheel until it goes off, whatever other timers are armed, removed, swept or fired |
| ClientTimers.NoneStranded | code/rpc/rpc_client.cc:67-93 | with distinct timer ids in flight, every pending call with a non-negative timeout has a live wheel node, its arming queued for the loop or still to be asked for by its thread, or its callback about to run |
| ClientTimers.CalledBackInTime | code/rpc/rpc_client.cc:67-93 | with distinct timer ids in flight, a call with timeout d is no longer pending, and called back once unless a thread is just about to, when ticking is 2 * (d / 10 + 1) ticks past the last tick at its arming |
| ClientTimeouts.NotTimedOutEarly | code/rpc/rpc_client.cc:70-93 | a call with timeout d does not time out early: the tick in which its timer fires starts more than d after the last tick at its arming, or reads the clock d or more after it |
| ClientTimeouts.CanTimeOut | code/rpc/rpc_client.cc:72-93 | timeouts do happen: whenever the loop is between callbacks, a pending call with a live node is told so after one more tick, a turn of the wheel later with its expiry passed, and that tick's callbacks |
| ClientDisarms.DisarmedForGood | code/rpc/rpc_client.cc:164-208 | once the loop removes the timer of a call it has armed, for its response, a loss or a failure, no live node of that call is in the wheel, then and ever after, if no timer id is reused while the wheel holds a removed timer with it |
| ClientTimers.NegativeTimeoutNeverArmed | code/base/timer/timer.cc:9-11 | a call with a negative timeout never has a node in the wheel |
| ClientTheorems.TimerArmedBeforeSend | code/rpc/rpc_client.cc:71-128 | by the time the loop hands a request to sendInLoop it has run the arming of that request's timer |
| ClientTheorems.ExecutedIsPrefix | code/network/core/event_loop.cc:71-96 | what the client's loop has run is a prefix of what all threads pushed: nothing lost in between, run twice or reordered |
| ClientTheorems.QueuedIff | code/rpc/rpc_client.cc:70-208 | the loop is handed an arming, a request, a removal or the disconnection if and only if the thread in question got to that point |
| ClientTheorems.NextKeepsHandedOver | code/rpc/rpc_client.cc:71-128 | a timer is asked for and a request handed to the loop at most once each, by the call's own thread, in that order |
| RpcClients.RpcClient.CallRaw | code/rpc/rpc_client.cc:52-129 | the whole call by itself: refused, failed to encode, or pending with timer and frame posted in that order |
| RpcClients.RpcClient.OnMessage | code/rpc/rpc_client.cc:144-181 | the response loop handles exactly the frames of the buffer, leaves the remainder, and reports corruption |
| RpcClients.RpcClient.DropAllPending | code/rpc/rpc_client.cc:190-212 | the loop over the swapped-out map, in whatever order the map is walked |
| RpcClients.RpcClient.Stop | code/rpc/rpc_client.cc:37-50 | the first call drops everything, then disconnects, quits and joins the loop and stops the connection, in that order; later calls do nothing |
| RpcClients.FirstResponseWins | code/rpc/rpc_client.cc:144-181 | each pending call named by a batch gets the first response naming it and leaves; the others stay; duplicates and unknown ids invoke nothing; for every response, in order, the timer of its id is removed |
| RpcClients.DropInvokesEach | code/rpc/rpc_client.cc:200-211 | each dropped call has its timer removed and its own callback invoked once, with the given error and its own id |
| RpcClients.CallOutcome | code/rpc/rpc_client.cc:52-129 | a call is refused at once, called back at once because its fields take more than INT_MAX bytes, or pending with a timer and a frame that the server decodes to exactly this request if it is deliverable |
| ClientAgreement.RespondedAgrees | code/rpc/rpc_client.cc:160-179 | one turn of the object's loop is the protocol's three steps, one after the other: the same calls, callbacks and responses, and the same timer removed from the wheel |
| ClientAgreement.CalledAgrees | code/rpc/rpc_client.cc:52-129 | all of CallRaw is the caller's steps of the protocol, refused, failed to encode or sent: the same calls, callbacks and responses, and the same functors for the loop in the same order |
| ClientAgreement.StopAgrees | code/rpc/rpc_client.cc:37-50 | Stop up to Quit is that thread's steps of the protocol, in whatever order the pending calls are walked |
| ClientAgreement.LossAgrees | code/rpc/rpc_client.cc:183-212 | a lost connection handled by the object is the loop's steps of the protocol: every pending call told with the noticed code, its timer taken out of the wheel |
| RpcServices.RpcService.Invoke | code/rpc/rpc_service.cc:14-40 | the response left in place, for a missing method, a return, a `std::exception` and any other throw |
| RpcServices.RepliesToItsRequest | code/rpc/rpc_service.cc:14-40 | link between definitions: every reply carries its own request's id, success means a registered handler returned, and no reply means it threw something else |
| RpcServices.KeysCollide | code/rpc/rpc_service.cc:48-50 | two different methods with one key |
| RpcServices.KeyIdentifiesIff | code/rpc/rpc_service.cc:48-50 | a key identifies its method if and only if neither name contains a dot |
| RpcServices.LastRegistrationWins | code/rpc/rpc_service.cc:7-12 | the latest registration of a key is in force |
| RpcServices.DispatchesByName | code/rpc/rpc_service.cc:14-40 | with names free of dots a call reaches exactly the latest handler registered for its service and method |
| ServerProtocol.BodiesAreInvocations | code/rpc/rpc_service.cc:14-40 | link between definitions: the task bodies of the protocol are the invocations of the service, for every method table |
| ServerTheorems.RunInvariant | code/rpc/rpc_server.cc:36-149 | everything below holds in every interleaving of loop, workers and the thread in Stop |
| ServerTheorems.AtMostOneAfterStop | code/rpc/rpc_server.cc:36-136 | once stopped_ is set at most one further request is accepted |
| ServerTheorems.BodyAtMostOnce | code/rpc/rpc_server.cc:120-136 | no task's body runs twice, and none runs that was not accepted |
| ServerTheorems.EveryTaskRanOnce | code/rpc/rpc_server.cc:36-69 | when Stop has returned every accepted task has run exactly once |
| ServerTheorems.ExecutedIsPrefix | code/network/core/event_loop.cc:71-96 | what the server's loop has run is a prefix of what all threads pushed, across any number of swaps |
| ServerReplies.AnsweredOnce | code/rpc/rpc_server.cc:121-136 | in every run, for every body that ran and could pass its response on, the loop is handed exactly one response for that task, the one the outcome calls for, success or error; otherwise none |
| ServerReplies.SaysWhatItRan | code/rpc/rpc_server.cc:45-56 | for each functor it runs the loop says exactly what that functor is for: a reply goes to the connection of its task's request, the notice to everyone without an id |
| ServerReplies.StopAsksOnce | code/rpc/rpc_server.cc:36-62 | each of the three functors of a graceful stop is queued exactly once, when Stop gets to it |
| ServerReplies.RepliesBeforeClose | code/rpc/rpc_server.cc:57-62 | when the loop closes the connections, every task accepted before WaitForTasks returned, which includes all accepted before Stop, has run, and the response its outcome calls for has been handed over, unless it could not be passed on |
| ServerProgress.StopNeverStuck | code/rpc/rpc_server.cc:36-69 | from the call of Stop to its return, unless the loop has missed Quit, some thread can always make progress, not counting new requests, spurious wakeups and swaps of an empty queue |
| ServerProgress.StepMeasure | code/rpc/rpc_server.cc:36-69 | every such step lowers a natural number that only a spurious wakeup raises |
| ServerProgress.StepsAreBounded | code/rpc/rpc_server.cc:36-69 | so however the threads are scheduled they take a bounded number of steps, whatever requests still arrive |
| ServerProgress.StopReturns | code/rpc/rpc_server.cc:36-69 | from every state after the call of Stop, boundedly many steps make it return, unless the loop was entered after Quit |
| ServerProgress.OvertakenIff | code/network/core/event_loop.cc:20-24 | the loop misses its quit flag in exactly the runs in which Quit is called after the thread was started and before it has entered the loop |
| ServerProgress.StopReturnsIff | code/rpc/rpc_server.cc:36-69 | once called, Stop can still return if and only if no such Quit has happened |
| ServerProgress.EnteredInTime | code/rpc/rpc_server.cc:36-69 | with the loop entered, or never started, when Stop is called, no schedule loses the flag, and until Stop returns some thread can go on |
| ServerExit.HastyStopHangs | code/rpc/rpc_server.cc:29-65 | a concrete run, Start followed at once by Stop, after which Stop returns in no continuation |
| ServerExit.ExitLosesPending | code/network/core/event_loop.cc:24-96 | of what was pushed before the loop leaves, everything but what was pushed since the last swap is ever run: all of it if and only if nothing was pending then |
| ServerExit.StoppedUnswept | code/network/core/event_loop.cc:24-42 | a run in which Stop returns and the functor that closes the connections, pushed before Quit, is never run |
| ServerTheorems.RequestsAccounted | code/rpc/rpc_server.cc:84-149 | every request that arrives becomes a task, is refused with one response, or is just between the two |
| ServerTheorems.RefusedIff | code/rpc/rpc_server.cc:106-147 | a request is refused exactly behind the gate or at a full or closed pool; otherwise it goes on to become a task |
| ServerTheorems.RefusalAnswersItsRequest | code/rpc/rpc_server.cc:106-147 | link between definitions: a refusal carries its request's id, goes to its connection with the reason, and touches no task |
| RpcServers.RpcServer.OnMessage | code/rpc/rpc_server.cc:84-149 | the request loop handles exactly the frames of the buffer, leaves the remainder, and reports corruption |
| RpcServers.BurstSplits | code/rpc/rpc_server.cc:106-147 | of a burst, as many requests as fit are queued in order and all others are refused in order; none is dropped or both |
| RpcServers.HandledAgrees | code/rpc/rpc_server.cc:106-147 | a request handled by the object is the protocol's gate and submission, with the same queue and the same refusal on the same connection |
| TcpServers.TcpServer.HandleAccept | code/network/tcp/tcp_server.cc:98-124 | a new connection is registered and reported, unless the server is stopped or accept failed |
| TcpServers.TcpServer.StopInLoop | code/network/tcp/tcp_server.cc:77-96 | the walk over a copy of the registry closes every connection, then empties it |
| TcpServers.NextKeepsSound | code/network/tcp/tcp_server.cc:77-142 | whatever is connected is registered under its own descriptor, through every accept, close and stop |
| TcpServers.RegistryIsExact | code/network/tcp/tcp_server.cc:98-142 | until the server is stopped the registry holds exactly the connections that are up |
| TcpServers.SweptMeansDown | code/network/tcp/tcp_server.cc:77-96 | once StopInLoop has run the registry is empty and every connection ever accepted is down, its close reported once |
| TcpServers.ClosedOnceThenSilent | code/network/tcp/tcp_connection.cc:79-134 | a connection reports its close at most once and delivers nothing after it |
| TcpServers.AcceptedIff | code/network/tcp/tcp_server.cc:98-124 | the connections ever known are exactly those for which accept returned a non-negative descriptor while the server was listening, each under that descriptor |
| TcpServers.RunFollows | code/network/tcp/tcp_server.cc:77-142 | what becomes of each connection, and every word the layer above hears of it, is told by the actions that concern it: opened once accepted, delivered while up, closed at the first close or the sweep |
| EndToEnd.NextKeepsSends | code/rpc/rpc_client.cc:95-128 | requests on the wire are the calls' own, at most one per call |
| EndToEnd.NextKeepsReceived | code/rpc/rpc_server.cc:84-136 | the server's jobs from a connection are requests that arrived on it, none twice |
| EndToEnd.EmittedHasOrigin | code/rpc/rpc_server.cc:106-147 | a response on a connection is a refusal or the outcome of a body run for a job of that connection |
| EndToEnd.HandlerAtMostOnce | code/rpc/rpc_server.cc:84-149 | in every run of the whole system the handler of each call runs at most once |
| EndToEnd.SuccessMeansExecutedOnce | code/rpc/rpc_client.cc:95-181 | a callback with code 0 was invoked once, its handler ran exactly once, on exactly the call's request, and what was delivered is exactly what that run returned |
| EndToEnd.NoticeCompletesNoCall | code/rpc/rpc_client.cc:158-179 | handling the shutdown notice, which has no id, completes no call from its decoding to the end of the loop's turn, and with distinct timer ids takes no pending call's timer away |
| SystemRuns.Projections | code/rpc/rpc_client.cc:52-212 | link between definitions: in every run of the whole system the client has made a run of its own protocol and the server of its own |
| SystemRuns.SentDownIff | code/rpc/rpc_server.cc:106-147 | what is sent down the connection is exactly what the server had to say on it while it was up, as far as it encodes |
| SystemRuns.SentUpIff | code/rpc/rpc_client.cc:95-128 | what is sent up is exactly each call's own request, when the loop ran its sending and the connection was up |
| SystemRuns.EveryAnswerAccounted | code/rpc/rpc_client.cc:52-212 | whatever a callback received, it was invoked once, with an error of the client's own cause, or with a response exactly as the server sent it: a refusal, or what the outcome of the body run for this very request calls for, success or error |
| SuccessfulCall.EveryCallCanSucceed | code/rpc/rpc_client.cc:52-181 | every deliverable request can be answered with any deliverable response a handler may return: there is a run of the whole system, from start to callback, in which the callback receives exactly that |

## Left out

- Re-entrant callbacks: a user callback that calls back into CallRaw, AddTimer or RemoveTimer while the wheel ticks, the loop drops calls, or the client's mutex is held; callbacks are opaque events.
- Null callbacks (`if (callback)` guards): every call is assumed to have one.
- Sockets, epoll, eventfd, keep-alive, connect and reconnect paths: kernel calls; reads and writes are byte counts chosen by the environment, and a client has one connection per run in `RpcSystem`.
- `Channel` interest masks other than EPOLLOUT, and removal of the channel on close.
- Lifetime of connection objects: a task whose connection is gone when it starts is a body that is skipped; descriptors and `shared_ptr` counts are not tracked.
- TcpServers.TcpServer.StopInLoop: connection objects are told apart by number, their state is a set in the server; aliasing between registry entries and objects is not modelled.
- RpcClients.RpcClient.CallRaw: the object's methods run to their end without other threads; ClientProtocol has the same steps interleaved. `RunInLoop` called on the loop thread itself runs at once; the client's loop-thread removals are modelled that way.
- ThreadPools.Pool.WorkerAcquire: one critical section; sleeping and waking are in PoolProtocol.
- GenerateRequestId: randomness and the clock in it are the freshness assumption.
- TimingWheel.TimeWheel.AddTimer: `current_slot_ + total_slots` is not wrapped to 32 bits; it could overflow only with a tick of 1 ms and a delay within 1024 ms of 2^31.
- The unknown-field set of the protobuf messages: unknown fields are skipped, not kept and written back; arenas, reflection, swaps and descriptors are not modelled.
- The texts of error messages that contain numbers or exception details are whatever the caller passes.
- Typed `Call` and `Register` templates, the error-code string table, the logger, examples and benchmark programs: they would only add easy members.
- Functors that Start itself queues (connect, listen): what they do is an event on the loop that may come at any time.
- RpcClients.RpcClient.Stop: what joining waits for is in ClientProtocol and ClientProgress; the object only posts it.
- Fairness: what is proved is that some thread can always go on and that all together take boundedly many steps, not that the scheduler lets them.
