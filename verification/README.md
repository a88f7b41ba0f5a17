# A verified model of the reactor library and its key-value service

This project models the stateful parts of a C++ reactor library (connections over epoll, a timer
wheel, an asynchronous logger, event loops with cross-thread tasks, a thread pool) and of the small
key-value service built on it. Dafny 4.11 checks it; `dafny verify dfyconfig.toml` covers every file.

Each piece has two forms. A step machine over plain values says what every atomic region of the code
does for every result its system calls may have; lemmas state what all of its runs keep. Beside it
stands the object itself, a class whose methods update fields, buffers and arrays the way the source
does, each method proved to take exactly the machine's step.

- `Bytes`, `Streaming`: byte strings, big-endian integers, and a receiver that reassembles frames.
- `Buffer`: the compacting byte buffer.
- `Connection`, `ConnectionProofs`, `ConnectionEffects`, `EchoServer`, `TcpConnection`: the connection,
  what runs of it keep, what each call brings about, and its default handler as a client sees it.
  System-call results are arguments of the calls (`Io`, `Input`), and each call also carries the list
  of calls that the user's close callback makes on the same connection if it happens to run, so
  re-entrance is part of every statement. A call from another thread is `Post` on that thread and `RunTask` on the owner's.
  `Read` runs the default message handler; `ReadWith` is a read with any other handler installed, given
  by the bytes it takes and the writes and closes it makes.
- `TimerWheel`, `Heartbeat`: the heartbeat wheel, the table of deadlines it amounts to, and the wheel
  together with the connections it closes.
- `Logging`, `LogLine`: the logger's threads and the fixed-size log line.
- `EventLoop`, `Registry`, `RegistryLoop`: the task queue of one loop, the server's table of
  connections kept by the base loop on behalf of the I/O loops, and the proof that the table kept on
  the task queue, with its polls, wake-ups and flags, is that one.
- `ThreadPool`: the round-robin choice of a loop.
- `KvCodec`, `KvFlow`, `KvService`, `KvReceive`, `KvConnection`: the wire format, the codec field by
  field, the service against a plain map, the receive loop over its injected predicates, and that loop
  installed on a connection, from request bytes to reply bytes.
- `KvFraming`, `KvShared`: the service behind checks that frame requests as documented, and any
  number of connections over the one store they share.

## Where the code does less than its documentation says

- Activating a connection overwrites its interest mask. `TcpServer` calls the user's new-connection
  callback before it activates the connection (src/tcpserver.cpp:83-84), so a greeting the kernel does
  not take at once is left waiting with no write interest. `InterestExactly` gives the exact
  condition over whole runs, `GreetingStalls` the failing case, `ActivateFirst` the usage that is safe.
- A fatal write error while bytes are waiting leaves the connection closing, and no number of failing
  writes, reads, hang-ups or further closes completes it. `FatalStrands` shows it from a fresh
  connection; `DrainExactly` states, over every run, exactly when a closing connection closes.
- An eventfd write that is interrupted by a signal is not retried, so a sleeping loop may have an
  unannounced task until its poll times out. `InterruptLosesWakeup` shows it; `AnnouncedExactly` says
  exactly when it happens, in any run: no submitter is about to wake the loop, and every wake-up write
  since the loop last read the eventfd was interrupted. `RoundRunsQueued` bounds the harm in every
  interleaving.
- The default header check decodes the 24 header bytes as a whole packet and therefore refuses every
  header that announces a body, while docs/kv协议.md:99-142 specifies bodies. Behind the default checks
  only pings are served and the store is never changed: `HeadCheckExactly`, `OnlyPingsServed`,
  `DefaultReply`, `StoreUntouched`. Behind injected checks that wait for the announced body, every
  request is served: `FramingSound`, `RequestsAnswered`.

## Model

| member | source | states |
|---|---|---|
| `Bytes.ReadBack` | include/kv/protocolcodec.h:48-67 | an integer written in `w` bytes reads back reduced modulo 256^w, for every integer and width |
| `Bytes.WriteBack` | include/kv/protocolcodec.h:48-67 | re-encoding an integer read from the wire gives the same bytes |
| `Bytes.ByteAt` | include/kv/protocolcodec.h:58-67 | each byte of an encoded integer by its position, the most significant first |
| `Bytes.ImageAt` | src/kv/protocolcodec.cpp:36-59 | the memory image of an integer on hosts of both orders, byte by byte |
| `Bytes.HostOrderIrrelevant` | src/kv/protocolcodec.cpp:36-59 | byte-swapping on little-endian hosts and copying the memory image gives big-endian bytes on hosts of both orders |
| `Streaming.ParseConserves` | src/tcpconnection.cpp:21-49 | the frames taken, then the rest, are the stream; no byte is lost or reordered |
| `Streaming.ParseSplits` | src/tcpconnection.cpp:21-49 | a parse may stop at any byte and resume with the leftover; the result is that of the whole stream |
| `Streaming.Chunking` | src/tcpconnection.cpp:87-103 | a receiver fed any cutting of a stream takes the frames of the one-shot parse, stops at the same one and holds the same leftover |
| `Buffer.MoveDown` | src/buffer.cpp:74-80 | the in-place copy over overlapping ranges moves the old bytes and touches nothing else |
| `Buffer.Buffer.MovePtr` | src/buffer.cpp:74-80 | compaction keeps the unread bytes and brings them to the front |
| `Buffer.Buffer.Expand` | src/buffer.cpp:81-86 | growing keeps the unread bytes; the capacity becomes the larger of the old and the requested one |
| `Buffer.Buffer.WriteBuffer` | src/buffer.cpp:46-61 | the message is appended, and the capacity is the larger of the old one and the new content size |
| `Buffer.Buffer.ReadFd` | src/buffer.cpp:13-35 | a scatter read appends what both segments took, in order, with the same capacity law |
| `Buffer.Buffer.WriteFd` | src/buffer.cpp:36-45 | the bytes handed to the kernel, then the remaining ones, are the old content |
| `Buffer.Buffer.ReadAll` | src/buffer.cpp:62-65 | takes the whole content and leaves none |
| `Buffer.Buffer.ReadBuffer` | src/buffer.cpp:66-73 | takes exactly `len` bytes off the front, or throws exactly when fewer are there and changes nothing |
| `Buffer.Buffer.Peek` | src/buffer.cpp:98-107 | shows the first bytes without taking them, or throws exactly when there are too few |
| `Buffer.QueueConserves` | src/buffer.cpp:13-73 | over every run of a byte queue, what left and what is still queued is what entered, in order |
| `Buffer.Drive` | src/buffer.cpp:13-86 | every operation sequence on a buffer is a run of a byte queue, and the final capacity is the larger of the initial one and the peak content |
| `Connection.FrameAtStable` | src/tcpconnection.cpp:22-47 | the handler's decision on a frame or an oversized length never changes when more bytes arrive |
| `ConnectionProofs.Inert` | src/tcpconnection.cpp:142-275 | a closed connection ignores every further call, whatever it is and whoever makes it: nothing but request bookkeeping changes |
| `ConnectionProofs.ExecKeeps` | src/tcpconnection.cpp:87-275 | one call, under any kernel result and any re-entrant callback, keeps wire order, lifecycle, registration and queued close requests; it keeps write interest exactly unless it activates over waiting bytes |
| `ConnectionProofs.RunGood` | src/tcpconnection.cpp:87-275 | over whole runs status only moves forward, sent bytes and accepted messages are never taken back, and nothing is accepted once closing has begun |
| `ConnectionProofs.WireOrder` | src/tcpconnection.cpp:142-165 | in every reachable state sent bytes then waiting bytes are the accepted messages in order; the close callback has run once if the connection is closed, else not at all; a closed connection has sent everything it accepted; a close request on a running connection is never forgotten |
| `ConnectionProofs.InterestExactly` | src/tcpconnection.cpp:224-275 | a run keeps write interest equal to "bytes are waiting" at every point exactly when it never activates over waiting bytes |
| `ConnectionProofs.ActivateFirst` | src/tcpconnection.cpp:224-260 | a connection activated first, and only then, watches for writability exactly while bytes are waiting, at every point of every run |
| `ConnectionProofs.GreetingStalls` | src/tcpserver.cpp:83-84 | a message written before activation and not taken by the kernel waits with no write interest |
| `ConnectionProofs.DrainExactly` | src/tcpconnection.cpp:142-165 | after a close request with bytes waiting, in every run of any calls, the connection closes exactly when its writable events have let the kernel take those bytes, with everything sent and the callback run once; nothing else hastens or spoils it, and failing writes never close it |
| `ConnectionProofs.DrainsInTime` | src/tcpconnection.cpp:142-165 | in every run with as many writable events with progress as there were waiting bytes, the connection closes with everything sent |
| `ConnectionProofs.FatalStrands` | src/tcpconnection.cpp:142-165 | a fatal write error over waiting bytes leaves a reachable connection closing, and no later calls close it unless the kernel takes those bytes after all |
| `ConnectionProofs.ChunkingIndependence` | src/tcpconnection.cpp:21-49 | for every cutting of the input, every pattern of short and deferred writes and every interleaving of writable events, the replies are those of the one-shot parse, in order, and the connection closes exactly when that parse meets an oversized length |
| `ConnectionEffects.WriteEffect` | src/tcpconnection.cpp:231-260 | a write on an open connection gives the kernel exactly what it takes, queues the rest behind what waits, and on a fatal error closes; on any other connection it is dropped |
| `ConnectionEffects.WritableEffect` | src/tcpconnection.cpp:142-165 | a writable event sends exactly the waiting bytes the kernel takes, drops write interest once none wait, and asks for a close on a fatal error, on open and closing connections alike |
| `ConnectionEffects.SentAtLeast` | src/tcpconnection.cpp:142-165 | in every run of any calls, at least as many bytes go out as were waiting, or as the kernel has offered to take at writable events |
| `ConnectionEffects.CloseEffect` | src/tcpconnection.cpp:166-189 | the first close request on an owned connection closes it at once with its callback, or lets it send first; a further one does nothing |
| `ConnectionEffects.CloseCallsBack` | src/tcpconnection.cpp:262-275 | a close callback makes its calls on a connection already closed and off its loop |
| `ConnectionEffects.DrainCallsBack` | src/tcpconnection.cpp:155-163 | when a deferred close completes, the callback runs before the connection is taken off its loop |
| `ConnectionEffects.ReadEnds` | src/tcpconnection.cpp:87-116 | end of stream and fatal read errors do what a close request does, under any handler; nothing is read with nothing ready or once closing has begun |
| `ConnectionEffects.ActivateEffect` | src/tcpconnection.cpp:68-85 | an activation has an open, owned connection watched for input and for the peer closing and for nothing else |
| `ConnectionEffects.Listens` | src/tcpconnection.cpp:224-229 | from its activation on, in every run, an open connection is watched for input and for the peer closing |
| `ConnectionEffects.PostEffect` | src/tcpconnection.cpp:125-132 | a call from another thread is queued last while a loop owns the connection; a close request is noted at once and queued once |
| `ConnectionEffects.PostedIsDirect` | src/tcpconnection.cpp:174-180 | a queued call, when its turn comes, does what the same call does on the owner thread |
| `ConnectionEffects.PostedWritesArrive` | src/tcpconnection.cpp:119-141 | messages written from another thread are all accepted, in the order they were posted |
| `EchoServer.FrameExactly` | src/tcpconnection.cpp:22-36 | a payload of at most 100000 bytes is a frame exactly once it is all there; a longer one is refused as soon as its length is |
| `EchoServer.ReplyExactly` | src/tcpconnection.cpp:37-45 | the reply is the length of the answer in four bytes, the payload and " OK!" |
| `EchoServer.EchoesAnswered` | src/tcpconnection.cpp:21-49 | from payloads to echoes: whatever pieces the frames of a list of payloads arrive in, a client parsing the bytes sent and waiting finds each payload with " OK!" behind it, in order |
| `TcpConnection.TcpConnection.CloseInThread` | src/tcpconnection.cpp:262-275 | closes at once when nothing waits, running the callback, else defers; the machine's step on the object |
| `TcpConnection.TcpConnection.Close` | src/tcpconnection.cpp:166-189 | only the first request closes, and only while a loop owns the connection |
| `TcpConnection.TcpConnection.WriteInThread` | src/tcpconnection.cpp:231-260 | a direct write while nothing waits, the unsent rest queued behind earlier bytes, a fatal error closing; the machine's step on the object |
| `TcpConnection.TcpConnection.Write` | src/tcpconnection.cpp:119-141 | drops the message exactly when no loop owns the connection |
| `TcpConnection.TcpConnection.WriteFd` | src/tcpconnection.cpp:142-165 | hands waiting bytes over, drops write interest once none wait, and completes a deferred close |
| `TcpConnection.TcpConnection.Activate` | src/tcpconnection.cpp:68-85 | resets the interest mask while connecting and owned, else changes nothing |
| `TcpConnection.TcpConnection.NextFrame` | src/tcpconnection.cpp:22-36 | takes a whole frame off the read buffer exactly when one is there |
| `TcpConnection.TcpConnection.OnMessage` | src/tcpconnection.cpp:21-49 | the handler loop ends on every buffer, having answered whole frames one by one |
| `TcpConnection.TcpConnection.Read` | src/tcpconnection.cpp:87-116 | data goes to the handler, end of stream and errors close, nothing is read once closing has begun |
| `TcpConnection.TcpConnection.ReadWith` | src/tcpconnection.cpp:87-116 | the readable event with an installed handler: the bytes it takes leave the buffer, its writes and closes happen in its order |
| `TcpConnection.TcpConnection.PostTask` | src/tcpconnection.cpp:125-132 | a call from another thread is queued on the owner loop; a second close request is not |
| `TcpConnection.TcpConnection.RunPosted` | src/tcpconnection.cpp:174-180 | the owner loop carries out queued calls in order |
| `TcpConnection.TcpConnection.Handle` | src/channel.cpp:101-120 | the handlers of one event run in the fixed order read, write, error, close, each on what the last one left |
| `TimerWheel.InsertPosBehind` | src/timer/timer.cpp:72 | the unsigned wrap-around of `ptr_ - 1 + size` still names the slot behind the hand |
| `TimerWheel.InsertRefines` | src/timer/timer.cpp:71-77 | an insertion, skipped or not, sets the deadline to a full turn from now and never puts an object into a slot twice |
| `TimerWheel.LivesOn` | src/timer/timer.cpp:52-55 | a tick drops an object's last reference exactly when its deadline is the next tick |
| `TimerWheel.DyingInOrder` | src/timer/timer.cpp:52-55 | objects destroyed at a tick are destroyed in the order of their slot |
| `TimerWheel.RunRefines` | src/timer/timer.cpp:52-77 | for every number of slots and every run, the wheel is a table of deadlines |
| `TimerWheel.ClosesOnTime` | src/timer/heartbeatobj.cpp:11-16 | an object is alive exactly while fewer than `n` ticks have passed since its last refresh; it is destroyed on the `n`-th, closing its connection once |
| `TimerWheel.Timer.InsertInThread` | src/timer/timer.cpp:71-77 | appends the object to the slot behind the hand unless its last insertion was there |
| `TimerWheel.Timer.AttachNew` | src/tcpconnection.cpp:191-201 | a new heartbeat object with no position yet is inserted |
| `TimerWheel.Timer.OnData` | src/tcpconnection.cpp:92-98 | arriving data refreshes the object exactly while some slot still holds it |
| `TimerWheel.Timer.TickNow` | src/timer/timer.cpp:52-55 | clears the slot at the hand, destroys what nothing else holds in slot order, advances the hand |
| `TimerWheel.Timer.OnReadable` | src/timer/timer.cpp:26-41 | one tick per accumulated expiration, none when the descriptor is not ready, an exception on error |
| `Heartbeat.IdleConnectionsClose` | src/tcpconnection.cpp:87-116 | over every run of a loop's connections with the wheel, a connection is asked to close exactly when an event of its own asked or `n` ticks have passed since data last reached it open (or since it joined); one idle that long has left the connecting state unless its close is still queued on the loop, waits only for bytes still to be sent, and once closed has sent everything with its callback run once |
| `Heartbeat.QuietIsIdle` | src/tcpconnection.cpp:92-98 | the wheel is refreshed by exactly the reads that bring data to an open connection whose time is not up |
| `Heartbeat.ConnectionsLiveTheirStory` | src/timer/heartbeatobj.cpp:11-16 | each connection is where its own calls have brought it, plus exactly one close, at the tick at which its time is up |
| `Heartbeat.StepKeeps` | src/timer/heartbeatobj.cpp:11-16 | new connections, calls with their refreshes, and ticks with the closes they cause, each with a callback of its own, keep wheel and connections in agreement |
| `Logging.RunKeeps` | src/logger.cpp:92-237 | in every interleaving, file, buffers in flight, work list and current buffer are the accepted messages in lock order; after the stop nothing is accepted |
| `Logging.FilePrefix` | src/logger.cpp:129-134 | the file always holds a prefix of the accepted messages |
| `Logging.AcceptedReachesFile` | src/logger.cpp:95-153 | in every interleaving, 54 turns of a running backend bring everything accepted so far into the file |
| `Logging.RunsUntilStopped` | src/logger.cpp:30-61 | the logger runs exactly until it is told to stop, and a backend once started is there to write until then |
| `Logging.DropsExactly` | src/logger.cpp:189-231 | a message is dropped exactly when the logger is stopping, or when it does not fit and 25 buffers are queued; a drop loses nothing else |
| `Logging.MemoryBound` | src/logger.cpp:35-51 | at most 25 buffers queued, 26 in flight, 2 pooled, 55 in all, none over its size |
| `Logging.ReusesFirst` | src/logger.cpp:35-42 | a new buffer is made exactly when there is neither a spare nor a pooled one |
| `Logging.RecycleReuses` | src/logger.cpp:136-152 | after a round of writing the pool is filled up to two and a spare is ready |
| `Logging.CopyFits` | src/logger.cpp:223-226 | a copy stays inside its buffer exactly for messages of at most a buffer's size |
| `Logging.BackendLeaves` | src/logger.cpp:95-126 | after the stop the backend can be joined exactly once it has taken a number of its own steps known in advance, whatever the appenders do |
| `Logging.ShutdownComplete` | src/logger.cpp:53-90 | once the destructor is through, the file is exactly the accepted messages in order, with or without a backend thread |
| `Logging.AsyncLogging.TakeBufferLocked` | src/logger.cpp:35-42 | an empty buffer comes from the pool, or is new |
| `Logging.AsyncLogging.RecycleBufferLocked` | src/logger.cpp:44-51 | the pool keeps at most two |
| `Logging.AsyncLogging.Append` | src/logger.cpp:188-231 | the locked region of an append; the machine's step on the object |
| `Logging.AsyncLogging.CollectLocked` | src/logger.cpp:107-126 | everything queued is swapped out, or the thread leaves when stopped with nothing left |
| `Logging.AsyncLogging.StartBackendThread` | src/logger.cpp:31-33 | the backend begins by waiting; the machine's step on the object |
| `Logging.AsyncLogging.StopRunning` | src/logger.cpp:58-61 | the destructor's first locked region: from here on nothing is accepted |
| `Logging.AsyncLogging.BackendStep` | src/logger.cpp:95-153 | the backend thread's next region |
| `Logging.AsyncLogging.RecycleLocked` | src/logger.cpp:136-152 | at most two written buffers return to the pool, and a spare buffer is made ready |
| `Logging.AsyncLogging.DrainRest` | src/logger.cpp:68-89 | what was left is written in order: work list, then current buffer |
| `LogLine.LineIsPrefix` | src/logger.cpp:265-272 | every line is the longest prefix that fits of its pieces, without the numbers that did not fit where they stood |
| `LogLine.KeptExactly` | include/logger.h:29-40 | no piece is left out exactly when each number fits behind all that stands before it |
| `LogLine.WholeLine` | src/logger.cpp:239-272 | a line whose pieces fit together is all of them, numbers included |
| `LogLine.FinishedIsPrefix` | src/logger.cpp:251-256 | every message handed over is the kept pieces and a newline cut to 4096 bytes, so every backend copy fits |
| `LogLine.Logger.Put` | include/logger.h:29-40 | text is cut to the room left, a number is written whole or not at all |
| `LogLine.Logger.Finish` | src/logger.cpp:251-256 | a newline is added exactly when there is room, and the line is appended to the log |
| `EventLoop.TasksConserved` | src/eventloop.cpp:120-142 | in every interleaving, tasks run, rest of the batch and queue are the submissions in lock order: FIFO, at most once, none lost |
| `EventLoop.RecordExactly` | src/eventloop.cpp:131-170 | over every run, the submissions on record are the ones pushed, in lock order, each waiting exactly when it was made by `SubmitAndWait`, and each to be followed by one wake-up write |
| `EventLoop.WaitSeesTask` | src/eventloop.cpp:144-170 | a waiting submitter returns only after its own task has run; once it has run, its flag is set or about to be |
| `EventLoop.FlagExactly` | src/eventloop.cpp:159-166 | a submission's flag is set exactly when it waits and its task has run to its end |
| `EventLoop.ReturnExactly` | src/eventloop.cpp:168-169 | a waiting submitter returns exactly by looking once its flag is set |
| `EventLoop.ReadableExactly` | src/eventloop.cpp:96-118 | in every run the eventfd is readable exactly when some wake-up write got through and the loop has not read it since |
| `EventLoop.CounterExactly` | src/eventloop.cpp:96-118 | the eventfd counts the wake-up writes that got through since it was last read, up to 2^64 - 2 |
| `EventLoop.LostExactly` | src/eventloop.cpp:108-111 | over every run, whether a wake-up write has been interrupted since the loop last swapped its queue, told by the history alone |
| `EventLoop.AnnouncedExactly` | src/eventloop.cpp:96-142 | in every run, a loop about to poll with tasks queued will be woken exactly when a submitter is between push and wake or a wake-up write since the last eventfd read got through; otherwise one was interrupted |
| `EventLoop.NoLostWakeup` | src/eventloop.cpp:96-142 | without interrupted wake-up writes, whenever the loop is about to poll with tasks queued, the eventfd is readable or a submitter is between push and wake |
| `EventLoop.LostOnlyByInterrupt` | src/eventloop.cpp:108-111 | in every run, an unannounced task at a poll means that no wake-up write was heard and one was interrupted since the last swap |
| `EventLoop.InterruptLosesWakeup` | src/eventloop.cpp:108-111 | an interrupted wake-up write does leave a task unannounced |
| `EventLoop.RoundRunsQueued` | src/eventloop.cpp:69-81 | in every interleaving, once a poll has returned for any reason, a timeout included, everything submitted before it has run, in order, when the loop is next at a poll |
| `EventLoop.RoundCompletes` | src/eventloop.cpp:69-81 | the loop gets back to its poll by its own steps, with the queue empty |
| `EventLoop.NothingRunsUnpolled` | src/eventloop.cpp:69-81 | until a poll returns, an interrupted one not counting, the loop runs no task and reads no wake-up, whatever submitters do |
| `EventLoop.EventLoop.PushMission` | src/eventloop.cpp:135-140 | the locked half of an off-thread submission; the machine's step on the object |
| `EventLoop.EventLoop.WakeUp` | src/eventloop.cpp:96-118 | the counter goes up unless full or interrupted |
| `EventLoop.EventLoop.SwapMissions` | src/eventloop.cpp:121-125 | the whole queue becomes the batch |
| `EventLoop.EventLoop.RunMission` | src/eventloop.cpp:126-165 | one task of the batch runs and, if waited for, sets its flag, with other threads acting before and between |
| `EventLoop.EventLoop.RunBatch` | src/eventloop.cpp:126-128 | the batch is carried out to its end, in order, whatever other threads do meanwhile; what they submit stays queued |
| `EventLoop.EventLoop.Iterate` | src/eventloop.cpp:69-81 | one turn of the loop, other threads acting throughout, runs everything submitted before its poll, sets every flag waited for and queues or runs the rest; an interrupted poll changes nothing |
| `Registry.TableAgrees` | src/tcpserver.cpp:65-85 | in every interleaving an open connection is in the table with nothing pending; a closed one has exactly one erasure pending, or is gone |
| `Registry.TasksFindTheirConnection` | src/tcpserver.cpp:72-80 | every erasure finds its connection and every insertion does not: insert precedes erase, each happens once |
| `Registry.HomeExactly` | src/tcpserver.cpp:54-65 | in every run each connection belongs to the loop picked for it and stands in that loop's queue exactly until it is constructed there |
| `Registry.HeadOpens` | src/tcpserver.cpp:65-85 | the connection at the head of a free loop's queue is constructed, inserted by the base loop's own steps, and then open and in the table |
| `Registry.ClosedIsErased` | src/tcpserver.cpp:76-81 | in every interleaving a closed connection is out of the table once the base loop has taken as many steps as it had work |
| `Registry.BaseSettles` | src/eventloop.cpp:120-129 | the base loop gets through all its work by its own steps, whatever loops are blocked |
| `Registry.WaitersAreServed` | src/eventloop.cpp:144-170 | in every interleaving, once the base loop has taken as many steps as it had work, the insertion an I/O loop was blocked on is done and the loop can return: no deadlock |
| `Registry.TcpServer.OnAccept` | src/tcpserver.cpp:54-65 | a new connection is queued on its I/O loop without waiting |
| `Registry.TcpServer.InitConnection` | src/tcpserver.cpp:65-74 | the I/O loop submits the insertion and blocks |
| `Registry.TcpServer.FinishInit` | src/tcpserver.cpp:76-84 | the I/O loop goes on once the insertion is done |
| `Registry.TcpServer.OnClose` | src/tcpserver.cpp:76-81 | the close callback submits the erasure |
| `Registry.TcpServer.BaseTurn` | src/tcpserver.cpp:72-80 | the base loop's next insertion, erasure or batch |
| `RegistryLoop.RunRefines` | src/eventloop.cpp:69-170 | every run of the server on the event loop, polls, wake-ups lost or not, swaps and flags included, is a run of the registry |
| `RegistryLoop.FlagMeansDone` | src/eventloop.cpp:144-170 | an I/O loop that sees its flag finds its insertion done |
| `RegistryLoop.TableAgreesOnLoop` | src/tcpserver.cpp:65-85 | the table agreement of the registry holds on the event loop, in every interleaving of its steps |
| `RegistryLoop.BlockedIsReleased` | src/eventloop.cpp:144-170 | in every interleaving on the event loop, once the base loop has been through a poll, the flag a blocked I/O loop waits for is set and the loop can go on |
| `RegistryLoop.ReturnOpens` | src/tcpserver.cpp:76-84 | going on frees the loop and opens its connection |
| `ThreadPool.IndexInRange` | src/eventloopthreadpool.cpp:22-63 | under any interleaving of starts, resizes, picks and stops, a running pool answers with a started, active loop and a stopped one with none |
| `ThreadPool.SizeExactly` | src/eventloopthreadpool.cpp:56-63 | in every run the size asked for is the size there is, from one up while stopped and within the started loops while running, and nothing else changes |
| `ThreadPool.TurnsExactly` | src/eventloopthreadpool.cpp:22-54 | starting runs as many loops as the size, closing leaves none to pick, a pick moves the turn to the next active loop |
| `ThreadPool.Fair` | src/eventloopthreadpool.cpp:22-28 | over any number of picks without a resize, the loops' counts differ by at most one |
| `ThreadPool.EventLoopThreadPool.GetOneThread` | src/eventloopthreadpool.cpp:22-28 | the loop at the reduced position, the position then moving on one |
| `ThreadPool.EventLoopThreadPool.SetSize` | src/eventloopthreadpool.cpp:56-63 | the size stays between one and the number of started loops while running |
| `ThreadPool.EventLoopThreadPool.Start` | src/eventloopthreadpool.cpp:32-42 | one loop per slot, and the size becomes the limit |
| `ThreadPool.EventLoopThreadPool.PickMany` | src/eventloopthreadpool.cpp:22-28 | repeated picks go round the ring from the current position |
| `KvCodec.HeadRoundTrip` | src/kv/protocolcodec.cpp:65-94 | the 24 header bytes decode to the header they encode, whatever follows |
| `KvCodec.HeadLayout` | include/kv/packet.h:7-22 | the 24 header bytes, field by field, the most significant byte first |
| `KvCodec.PacketRoundTrip` | src/kv/protocolcodec.cpp:65-104 | an encoded packet, with anything behind it, decodes to itself exactly when its header tells its body's length |
| `KvCodec.DecodesExactly` | src/kv/protocolcodec.cpp:65-81 | a stream decodes to a packet exactly when it begins with that packet's encoding and the header tells the body's length |
| `KvCodec.EncodesExactly` | src/kv/protocolcodec.cpp:106-145 | despite the narrowing to 32 bits a request encodes exactly when its true sizes are within the limits, with the documented layout and the true length |
| `KvCodec.RequestLayout` | src/kv/protocolcodec.cpp:106-145 | exactly which requests encode, and to which bytes, in numbers |
| `KvCodec.RequestRoundTrip` | src/kv/protocolcodec.cpp:106-184 | a request that encodes is recovered through the bytes, trailing bytes or not: its opcode and what that opcode carries |
| `KvCodec.AcceptedIsEncoding` | src/kv/protocolcodec.cpp:147-184 | a packet accepted as a request has exactly the body of that request |
| `KvCodec.AcceptsExactly` | src/kv/protocolcodec.cpp:147-184 | a packet is accepted as a request exactly when its type, length and body are those of that request |
| `KvCodec.ResponseRoundTrip` | src/kv/protocolcodec.cpp:186-235 | a response encodes exactly when its value is within the limit, and reads back under the protocol's magic, version and type, with status, value, opcode and id; its key is not sent |
| `KvCodec.ResponseLayout` | src/kv/protocolcodec.cpp:213-235 | exactly which responses encode, and to which bytes, in numbers |
| `KvCodec.ReadsExactly` | src/kv/protocolcodec.cpp:186-211 | a packet is accepted as a response exactly when its body is that response's |
| `KvFlow.ReadInteger` | include/kv/protocolcodec.h:48-56 | reads an integer at the offset and advances, or fails exactly past the end |
| `KvFlow.ReadString` | src/kv/protocolcodec.cpp:25-31 | reads a string at the offset and advances, or fails exactly past the end |
| `KvFlow.DecodeFlowToPacket` | src/kv/protocolcodec.cpp:65-81 | the field-by-field decoder is the packet decoder of the round trips |
| `KvFlow.WriteInteger` | include/kv/protocolcodec.h:60-67 | stores an integer at the offset, touching nothing else, and advances; or refuses exactly past the end and changes nothing |
| `KvFlow.EncodeInto` | src/kv/protocolcodec.cpp:83-98 | fills the caller's memory with the packet, or refuses exactly for lack of room and leaves it alone |
| `KvFlow.EncodePacketToFlow` | src/kv/protocolcodec.cpp:100-104 | the whole encoded packet |
| `KvFlow.EncodeRequestToPacket` | src/kv/protocolcodec.cpp:106-145 | the appending encoder is the request encoder of the round trips |
| `KvFlow.DecodePacketToRequest` | src/kv/protocolcodec.cpp:147-184 | the offset-advancing decoder is the request decoder of the round trips |
| `KvService.EchoIsMap` | src/kv/kvservice.cpp:87-135 | one request packet is answered as a plain map would, under its own opcode and id; the limits on stored keys and values keep holding and the internal-error fallback is not taken |
| `KvService.ServiceIsMap` | src/kv/kvservice.cpp:87-135 | for every sequence of request packets the responses are a sequential map's answers and the store is that map |
| `KvService.ReadsLastWrite` | src/kv/kvstore.cpp:7-45 | after any sequence of packets a get finds the value last put and not changed since, and nothing for a key deleted since |
| `KvService.ReadsUntouched` | src/kv/kvstore.cpp:7-22 | a key no packet has changed is read as it was at the start |
| `KvService.OtherAnswers` | src/kv/kvstore.cpp:24-45 | pings and puts are answered with success, a delete by whether the key was there, a refusal with its status |
| `KvService.CommandExactly` | src/kv/kvservice.cpp:87-125 | a packet under no status that carries an encodable request asks for just that request; any other is refused with its own status or as a bad request |
| `KvService.KvStore.Get` | src/kv/kvstore.cpp:7-22 | the map's answer to a get, with the request's key |
| `KvService.KvStore.Put` | src/kv/kvstore.cpp:24-33 | the map's update and answer to a put, with the request's key |
| `KvService.KvStore.Del` | src/kv/kvstore.cpp:35-45 | the map's update and answer to a delete, found or not, with the request's key |
| `KvService.KvService.ShouldEcho` | src/kv/kvservice.cpp:87-135 | decoding, dispatch and fallback; the service's step on the object |
| `KvReceive.ServeParses` | src/kv/kvserver.cpp:20-51 | for all sound choices of the four injected predicates the loop ends on every buffer, takes whole frames only and answers, as the service would, those that are to be answered |
| `KvReceive.SplittingIrrelevant` | src/kv/kvserver.cpp:20-51 | for all sound choices of the four injected predicates replies, store and closing do not depend on how the bytes are cut into reads |
| `KvReceive.DefaultsSound` | src/kv/kvservice.cpp:21-72 | the default predicates are sound, so the loop with them ends and does not depend on the cutting |
| `KvReceive.HeadCheckExactly` | src/kv/kvservice.cpp:21-31 | the default header check passes exactly headers with the right magic, version and type and an empty body |
| `KvReceive.OnlyPingsServed` | src/kv/kvservice.cpp:21-67 | behind the default checks a well-formed request is served exactly when it is a ping; any other closes the connection unanswered |
| `KvReceive.DefaultReply` | src/kv/kvservice.cpp:41-67 | an admitted header is answered under its own opcode and id: a ping with the status it came with, another known opcode as malformed, the rest as unsupported |
| `KvReceive.StoreUntouched` | src/kv/kvservice.cpp:41-67 | behind the default checks no sequence of reads changes the store |
| `KvReceive.NextRequest` | src/kv/kvserver.cpp:20-51 | one turn of the handler on a real buffer and store is the dialogue's turn, for any injected predicates |
| `KvConnection.WireIsDialogue` | src/kv/kvserver.cpp:19-51 | over every run of a key-value connection, with any cutting of the input, short writes, errors and heartbeat closes, the accepted replies are the first ones of the dialogue over the whole stream and go out in order; without errors they are all of them, and store, closing and leftover are the same too |
| `KvConnection.RepliesAreMapAnswers` | src/kv/kvserver.cpp:19-51 | from bytes to bytes: every reply packet decodes to a sequential map's answer to its request, one for each framed request to be answered, in order, and the store is that map |
| `KvConnection.RunIsRun` | src/kv/kvserver.cpp:19-51 | a run of a key-value connection is, event by event, a run of the connection, so what is proved of those holds of it |
| `KvConnection.PerformAllInput` | src/tcpconnection.cpp:119-275 | what writes and closes do to a connection never depends on its unread bytes, nor changes them, re-entrant close callbacks included |
| `KvConnection.Turn` | src/kv/kvserver.cpp:20-51 | one turn of the handler on a real connection and store: the next request taken and answered, or the connection closed, or nothing |
| `KvConnection.OnMessage` | src/kv/kvserver.cpp:20-51 | the handler loop on a real connection and store, for any injected predicates: requests taken, replies written and the close made as the dialogue says, in order; it stops where the source would loop for ever |
| `KvConnection.Read` | src/tcpconnection.cpp:87-116 | the readable event of a key-value connection is the step of the runs above |
| `KvFraming.FramingSound` | docs/kv协议.md:99-142 | checks that decide on the header, wait for the announced body and decode the whole are sound |
| `KvFraming.RequestIsFrame` | docs/kv协议.md:99-142 | behind them every request that encodes, under any id and whatever follows, is one frame, made into the request's own packet |
| `KvFraming.RequestsAnswered` | src/kv/kvserver.cpp:19-51 | from requests to answers: whatever pieces the encoded requests arrive in, the client reads for each in turn the answer of a map that has carried out those before it, and the store ends as that map |
| `KvShared.OneOrder` | src/kv/kvserver.cpp:12-51 | for any number of connections over one store, in every interleaving down to single requests, there is one order of all requests let through that keeps each connection's own order; every connection's replies are the map's answers at its places, the store is that map, and a connection for which nothing went wrong has every request that reached it whole let through and answered once its handler has come to rest |
| `KvShared.HandlerFinishes` | src/kv/kvserver.cpp:20-51 | in every interleaving a handler comes to rest after at most one turn more than it was given bytes |
| `KvShared.CallsGetThrough` | src/tcpconnection.cpp:87-116 | among many connections too, each takes every call made on it between its handler's turns, and closes at end of stream and on a refusal |
| `KvShared.StepKeeps` | src/kv/kvservice.cpp:87-135 | reads, single handler turns, writable events and closes of one connection keep all connections in agreement with the common order |
| `KvShared.ObjectTurn` | src/kv/kvserver.cpp:20-51 | a handler turn run on a connection object is the shared machine's turn |

## Left out

- src/socket.cpp, src/inetaddress.cpp, src/acceptor.cpp, src/epoll.cpp: thin system-call wrappers; their effects are arguments of the modelled calls.
- Object lifetime: weak and shared pointers to connections, stale entries of an active list and unsynchronised reads of `owner_`; a connection lives for the whole run. A close callback is taken to be installed.
- Sizes beyond 2^31 bytes in the buffer's `int` positions and the 32-bit length of `WriteBuffer(const char*, unsigned)`; buffer positions are unbounded.
- `Timer::Insert` from another thread: it would keep the object alive outside the wheel, and no caller uses it.
- `TcpServer::Close`, thread start and join, `EventLoopThread`: results on loops and the registry are for runs before shutdown.
- `EventLoop::Submit` on the loop's own thread, which calls the task at once and never queues it.
- The logger's write to stderr when an append re-enters itself, digits of `to_chars`, the text of a log header, a log file that cannot be opened.
- The logger's 4 MiB blocks as heap memory: each has one owner by its type, so the model keeps the used part as a sequence and counts the blocks.
- Wall-clock time, poll timeouts and the backend's one-second wait; ticks and steps are counted instead, and a wait may end at any step.
- Injected key-value predicates that change the buffer other than by the body check taking bytes off its front, or that change the packet or the reply they are asked about.
