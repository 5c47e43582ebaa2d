# adb in Dafny

A Dafny 4.11 model of the parts of Android's adb (and of the `mkbootfs` cpio writer beside it) where correctness
depends on many functions working together, with proofs of what they promise. `dafny verify dfyconfig.toml` checks
everything.

The kernel, the scheduler and the remote end are adversaries throughout. Reads return any part of what was asked for,
writes take any part of what they were given, EAGAIN and errors come at any point, poll reports hang-ups, threads
interleave freely, and callbacks do whatever they like. Theorems about protocols are about every finite run.

## How it is put together

| files | what they hold |
|---|---|
| `Base`, `Descriptors`, `AdbIo` | bytes, non-blocking descriptors driven by scripts of kernel results, `ReadFdExactly` and `WriteFdExactly` |
| `SmartSocket` | `unhex`, the request decoder, `SendProtocolString` |
| `Streams` | the stream protocol as a step system: two endpoints, two FIFO channels of OPEN, OKAY, WRTE and CLSE |
| `StreamInvariant`, `StreamPairs`, `StreamRuns` | the invariant of a run: what holds of one socket, of two linked sockets and of the packets between them; every step keeps it |
| `StreamTheorems`, `StreamAnswers`, `StreamSilence`, `StreamOrigins`, `StreamOpens`, `StreamCloses`, `StreamRequests` | the promises of the protocol |
| `Registry`, `Sockets` | `sockets.cpp` and the stream part of `handle_packet` as they run: records behind pointers, two lists, loops over partial reads and writes; each operation is proved to perform the step of `Streams` and to keep the registry well formed |
| `FdEvent`, `FdEventLoop` | fdevents, poll nodes and the pending list; arbitrary callbacks |
| `SocketEvents`, `MainLoop` | the event loop over the socket registry, and the main thread as a whole: the loop with the protocol's steps as its callbacks |
| `RunQueue` | functions submitted to the main thread from any thread |
| `Listeners` | listeners and the disconnect lists of transports |
| `Transport`, `TransportRuns`, `TransportTheorems` | reader, writer and main thread of one transport, what refers to it, and who looks at it once it is freed |
| `PacketCodec`, `Negotiation` | packets as bytes, checksum, CNXN exchange, and that the threads of a transport perform it |
| `Shell`, `ShellService`, `ShellSubprocess` | the shell protocol, the pump to the child's stdin as a step system, and the class that runs it |
| `FileSync`, `FileSyncIo` | push and pull |
| `Utf8`, `FdTable` | the streaming UTF-8 splitter and the descriptor table of the Windows port |
| `Cpio` | the cpio writer and a reader for it |

The stream protocol is modelled twice on purpose. `Streams` is the simple form, over values, on which whole runs are
reasoned about. `Sockets` is the program's form: a class whose methods update records, follow peer pointers, move
sockets between lists and restart a scan after each close. Its contracts say that each method's effect is exactly the
step of `Streams`. Dereferences are of memory proved to be allocated, because a freed record is absent from `mem`.

What the event loop may deliver to a socket in `Streams` (`Deliverable`: FDE_WRITE only while packets are queued) is
what the event loop does deliver. `MainLoop` runs the two together: every socket's fdevent is kept in step with the
socket, every call of its callback is deliverable (`MainLoop.EveryCallIsDeliverable`), and what the main thread does is
a run of `Streams` (`MainLoop.LoopIsRun`). A read may arrive with FDE_READ off when poll reports trouble and so fakes
one; only the exact token count assumes that away.

## What turned out not to hold

- *Nothing refers to a transport when it is freed.* Three things can: a socket in the live list, a listener, and a
  client or forwarded socket on the closing list, which keeps the transport it was opened on until its packets are
  written and consults it when a hang-up fakes a read. There are two exceptions.
  - The removal message and SYNC(0) reach the main thread through different descriptors. If the writer thread leaves
    because a write to the remote end failed, the reader thread can follow and the removal can be handled while
    SYNC(0) is still unread. `TransportTheorems.FreedUnderListenerRun` is such a run.
  - handle_offline closes the sockets in the live list only. If a packet is still queued when the remote end goes away,
    the transport is freed with nothing having failed, and the main thread looks at it afterwards.
    `TransportTheorems.FreedUnderDrainingRun` is such a run.

  `TransportTheorems.FreedSafelyExactlyWhen` gives the exact condition for every reachable state in which the writer
  has left: no schedule frees the transport while something refers to it, and no schedule looks at it after it is
  freed, if and only if it is offline, no CNXN is waiting or can still arrive, and no client or forwarded socket is on
  the closing list. Without a failed write the first exception never happens (`WriterLeavesLast`, `FreedReleased`), and
  the second is all that is left (`LateOnlyByDraining`).
- *Every string `SendProtocolString` accepts is decoded.* It accepts up to MAX_PAYLOAD - 4 bytes. A smart socket that
  `host:transport` has bound collects no more than the transport's payload limit, and an old device announces 4096:
  `SmartSocket.OldDeviceRejects` is a request of 5000 bytes that is lost. The request comes back exactly when it has 1
  to 0xffff bytes, none of them NUL, and fits the socket's limit with its four-digit header
  (`SmartSocket.RequestDecodedExactlyWhen`).
- *Every function submitted to the main thread runs.* The queue is run under its mutex, so a function that itself
  submits waits for a mutex its own thread holds (`RunQueue.JammedRun`). At rest, exactly the submissions before the
  first such function have run (`RunQueue.EverySubmissionRuns`).
- *A routed client only waits for an answer.* connect_to_remote ends the process over a destination that does not fit
  the transport. A callback comes to that exactly when it routes a client that had no transport until then, with a
  request too long for the one it acquires (`StreamOpens.DiesExactlyWhen`); a client bound before never does.

## Where the code and protocol.txt disagree

The model follows the code. The checksum is a plain sum of bytes, not a CRC. A CLOSE is answered with a CLOSE, because
closing a local socket shuts its remote peer down. A READY for an unknown stream is answered with a CLOSE. A WRITE
that comes before READY is queued, not refused. The payload maximum is 1 MB, not 256 KB.

## Model

| member | source | states |
|---|---|---|
| `SmartSocket.Unhex` | core/adb/sockets.cpp:553-594 | the loop computes the value of the digits with the 32-bit shift, and the error value on a character that is not a digit |
| `SmartSocket.UnhexSpoiled` | core/adb/sockets.cpp:553-594 | one character that is no digit, wherever it is, gives 0xffffffff |
| `SmartSocket.BadLengthRejected` | core/adb/sockets.cpp:686-696 | a length that is not four hex digits is rejected |
| `SmartSocket.UnhexInvertsHexDigits` | core/adb/sockets.cpp:553-594 | reading back any number of printed hex digits recovers the value whenever it fits in them and in 32 bits |
| `SmartSocket.RequestDecodedOnce` | core/adb/sockets.cpp:668-703 | a request of 1 to 0xffff bytes that fits the limit with its header, cut into packets in any way, is decoded exactly once, up to a NUL if it has one, on the packet with its last byte |
| `SmartSocket.RequestDecodedExactlyWhen` | core/adb/sockets.cpp:657-703 | of all strings the sender accepts, read in pieces within the socket's payload limit, exactly those of 1 to 0xffff bytes that are free of NULs and fit the limit with their header are decoded; one that does not fit is rejected |
| `SmartSocket.OldDeviceRejects` | core/adb/sockets.cpp:672-676 | every request of 5000 bytes, read as 4096 and 908, is rejected under the limit of an old device and decoded under MAX_PAYLOAD |
| `Descriptors.DrainConserves` | core/adb/sockets.cpp:257-291 | draining a queue under any write results moves bytes from its front to the descriptor and loses none |
| `Descriptors.PushExactly` | core/adb/sockets.cpp:260-279 | from the results of the calls alone: writing a packet is blocked exactly when calls that took something, but not all, are followed by EAGAIN or by nothing yet, failed exactly when they are followed by another error or by zero; the count is what they took |
| `Descriptors.DrainExactly` | core/adb/sockets.cpp:257-291 | the same for a queue of packets, with what stays in it |
| `Descriptors.PullExactly` | core/adb/sockets.cpp:312-332 | from the results of the calls alone: what is read is what the leading calls brought, up to the buffer; end of file exactly when they are followed by zero or an error other than EAGAIN before it is full |
| `StreamTheorems.DeliveredInOrder` | core/adb/sockets.cpp:257-346 | in every run, what reached a receiver's descriptor is a prefix of what the sender handed over, both ways; while the receiver lives, written, queued and in-flight bytes together are all of it |
| `StreamTheorems.StreamsDoNotMix` | core/adb/sockets.cpp:60-96 | in every run, an end is linked to at most one end of the other side |
| `StreamTheorems.TokensConserved` | core/adb/sockets.cpp:125-183 | while both ends live each direction holds at least one flow-control token, and at most one more per packet read on a faked read |
| `StreamTheorems.ExactlyOneToken` | core/adb/adb.cpp:404-483 | without hang-ups each direction has exactly one of: FDE_READ on, a WRITE in flight, a queued packet, a READY in flight; no queue holds two packets |
| `StreamTheorems.QuietAgreement` | core/adb/adb.cpp:420-466 | with nothing in flight, both ends of a stream are open or neither is, all bytes are written or queued at the receiver, and a sender whose receiver has nothing queued may read |
| `StreamTheorems.SocketHistory` | core/adb/sockets.cpp:134-176 | in every run, on either side, written followed by queued bytes are all accepted payload until the socket is freed; a routed client reads OKAY before any stream byte and none after FAIL |
| `StreamTheorems.LostOnlyByErrorOrEof` | core/adb/sockets.cpp:212-383 | in every run, a step that leaves a socket freed with bytes unwritten is its own side's, and among the results of its calls is a write that failed with an error other than EAGAIN or took nothing, or a read that met end of file while the socket was already closing; a CLOSE and the loss of the transport never do |
| `StreamTheorems.EventLoses` | core/adb/sockets.cpp:250-383 | the causes in the callback, in terms of the results of its calls |
| `StreamTheorems.HandleLoses` | core/adb/adb.cpp:445-483 | of the packets, only a WRITE to a connected socket with nothing queued loses bytes, and only when one of its writes fails with an error other than EAGAIN or takes nothing |
| `StreamCloses.EventClosesExactlyWhen` | core/adb/sockets.cpp:250-383 | a callback closes a connected socket exactly when a write failed, or when it got to reading and met end of file |
| `StreamCloses.EventFreesExactlyWhen` | core/adb/sockets.cpp:290-299 | a callback frees a socket on the closing list exactly when its queue is written or fails, or at end of file without a write |
| `StreamCloses.EnqueueExactly` | core/adb/sockets.cpp:125-183 | what does not fit before EAGAIN is queued, all of it taken is answered with READY, a failed write closes the socket |
| `StreamCloses.SmartClosesExactlyWhen` | core/adb/sockets.cpp:334-371 | at end of file a client at the smart-socket stage is gone; while its request is incomplete, or after host:transport, it goes exactly then or when forced to |
| `StreamCloses.StraysChangeNothing` | core/adb/adb.cpp:404-483 | a packet that does not come from the peer of the connected socket it names, or carries a zero id where none may be, changes nothing and is not answered |
| `StreamCloses.EveryClientIsTold` | core/adb/sockets.cpp:532-551 | in every run, a client's wait for the answer to its OPEN ends with OKAY if it is connected and with FAIL if not |
| `StreamRequests.RequestAnswered` | core/adb/sockets.cpp:657-839 | however a request is cut over events, nothing happens before its last byte, and then exactly what it asks for: closed, bound with an empty buffer, or one OPEN |
| `StreamRequests.TwoRequests` | core/adb/sockets.cpp:748-758 | a client that asks for a transport and then for a service on it, both cut in any way, is bound by the first and sends exactly one OPEN for exactly that service on the last byte of the second |
| `StreamRequests.OversizedCloses` | core/adb/sockets.cpp:672-676 | a request that does not fit the limit closes the client before anything is sent |
| `StreamOrigins.UnlinkedIsSilent` | core/adb/adb.cpp:404-483 | in every run, a socket linked to none of the other side has handed over nothing and been given nothing |
| `StreamTheorems.WritesFit` | core/adb/sockets.cpp:307-344 | in every run every WRITE in flight, either way, is nonempty and within the negotiated limit |
| `StreamAnswers.NobodyLeftWaiting` | core/adb/adb.cpp:404-443 | in every run with both sides online and nothing in flight, no socket of either side is still waiting for the answer to its OPEN |
| `StreamOpens.DiesExactlyWhen` | core/adb/sockets.cpp:515-530 | a callback ends the process exactly when it routes a client without a transport whose request does not fit the transport it acquires; a bound client's request always fits |
| `StreamOpens.ForwardOpensExactlyWhen` | core/adb/sockets.cpp:515-530 | a forwarded connection is opened exactly when the transport is online and the destination fits its limit with a NUL and one byte to spare |
| `StreamOpens.OpensFit` | core/adb/sockets.cpp:515-530 | in every run every OPEN in flight, either way, fits the negotiated limit with its NUL |
| `StreamSilence.WorkIsBounded` | core/adb/adb.cpp:404-483 | the packets handled and queues drained in any run weigh no more than the potential at its start plus what was opened and read meanwhile |
| `StreamSilence.FallsSilent` | core/adb/sockets.cpp:458-477 | without new opens and reads the endpoints handle a bounded number of packets: CLOSE never ping-pongs |
| `StreamRuns.StepInv` | core/adb/adb.cpp:347-491 | every step of either endpoint keeps: bytes of each socket conserved, bytes of each linked pair in order with their tokens, a READY first for an end that is opening, a CLOSE or READY on its way to an end that outlives its peer, and every packet in flight addressed to ids that were given out |
| `StreamRuns.NoneLeft` | core/adb/sockets.cpp:109-123 | after close_all_sockets no socket in the live list refers to the transport, itself, through its remote peer or through a smart socket that a host:transport request bound |
| `Registry.ListFacts` | core/adb/sockets.cpp:60-107 | live ids are increasing, nonzero and below the next id; sockets on the closing list have id 0, no peer and packets queued |
| `Registry.PointerFacts` | core/adb/sockets.cpp:212-248 | peer links are symmetric and never dangle; FDE_WRITE is on exactly when packets are queued; an open socket with packets queued has a remote peer |
| `Registry.RepChange` | core/adb/sockets.cpp:98-107 | a change of one socket and its peer that moves it between the lists accordingly keeps the registry well formed |
| `Registry.RepNew` | core/adb/sockets.cpp:85-96 | installing a socket keeps the registry well formed |
| `Sockets.FindIn` | core/adb/sockets.cpp:60-76 | the scan returns the socket with the id exactly if its peer matches |
| `Sockets.WritePacket` | core/adb/sockets.cpp:143-158 | the write loop takes what the descriptor takes; blocked exactly on EAGAIN or when no result is left, failed exactly on another error or zero |
| `Sockets.DrainQueue` | core/adb/sockets.cpp:257-291 | the loop over queued packets has the effect of draining the queue, blocked and failed as the results of the calls say |
| `Sockets.ReadAvailable` | core/adb/sockets.cpp:307-332 | the read loop returns what the leading calls brought up to the limit, and end of file exactly when they are followed by it |
| `Sockets.TakePacket` | core/adb/sockets.cpp:125-177 | a packet is written as far as possible and the rest queued with FDE_WRITE on |
| `Sockets.CloseRep` | core/adb/sockets.cpp:186-248 | closing a record is closing the stream end: it sends CLSE for a remote peer, frees exactly what is no longer needed and moves a socket with packets to the closing list |
| `Sockets.SocketTable.FindLocal` | core/adb/sockets.cpp:60-76 | finds a socket exactly when the protocol says there is one |
| `Sockets.SocketTable.RawClose` | core/adb/sockets.cpp:212-248 | the records and the packet sent after closing, with the notification of a client that was still opening |
| `Sockets.SocketTable.CloseSocket` | core/adb/sockets.cpp:212-248 | performs the Close step and keeps the registry well formed |
| `Sockets.SocketTable.LocalEnqueue` | core/adb/sockets.cpp:125-177 | performs the Enqueue step; the result is whether more data is welcome |
| `Sockets.SocketTable.WriteHalf` | core/adb/sockets.cpp:257-305 | performs the FDE_WRITE half of the callback step |
| `Sockets.SocketTable.HandToRemote` | core/adb/sockets.cpp:448-456 | hands what was read to the remote peer as one WRITE and turns FDE_READ off |
| `Sockets.SocketTable.HandToSmart` | core/adb/sockets.cpp:657-839 | performs the smart-socket step on what was read: collects, rejects, or passes a whole request on |
| `Sockets.SocketTable.AskSmart` | core/adb/sockets.cpp:704-839 | performs the step of a whole request: host:transport binds the smart socket and keeps it with an empty buffer, a routed client sends OPEN and its smart socket is freed, others close both sockets |
| `Sockets.SocketTable.ReadHalf` | core/adb/sockets.cpp:307-371 | performs the FDE_READ half of the callback step |
| `Sockets.SocketTable.EventFunc` | core/adb/sockets.cpp:250-383 | performs the callback step and keeps the registry well formed, or ends the process exactly when the step sends an oversized OPEN |
| `Sockets.SocketTable.MaxPayload` | core/adb/sockets.cpp:879-888 | the limit that applies to a socket through its own or its peer's transport |
| `Sockets.SocketTable.CreateSocket` | core/adb/sockets.cpp:385-400 | installs a socket with the next id at the end of the live list |
| `Sockets.SocketTable.AcceptClient` | core/adb/adb_listeners.cpp:75-91 | a smart-socket client is installed with its smart socket |
| `Sockets.SocketTable.ConnectToRemote` | core/adb/sockets.cpp:515-530 | sends OPEN, or ends the process exactly when the destination with its NUL exceeds the payload limit less one |
| `Sockets.SocketTable.AcceptForward` | core/adb/adb_listeners.cpp:93-113 | a forwarded connection is installed and its OPEN sent, unless it is oversized |
| `Sockets.SocketTable.HandleReady` | core/adb/adb.cpp:420-443 | the first READY connects and notifies, later ones re-enable reading, others are ignored |
| `Sockets.SocketTable.HandleClose` | core/adb/adb.cpp:445-466 | CLOSE(0, id) closes only a socket without a peer on another transport |
| `Sockets.SocketTable.HandlePacket` | core/adb/adb.cpp:404-483 | performs the Handle step for each of the four commands and keeps the registry well formed |
| `Sockets.SocketTable.CloseAll` | core/adb/sockets.cpp:109-123 | the restarting scan ends, closes every live socket of the transport once, in order of id, and sends their CLSEs in that order |
| `Sockets.SocketTable.GoOffline` | core/adb/adb.cpp:141-152 | performs the GoOffline step |
| `FdEvent.InstallInv` | core/adb/fdevent.cpp:142-159 | installing keeps: pending exactly when listed exactly when events are nonzero, listed once, pending only if installed, poll flags mirroring the mask |
| `FdEvent.RemoveInv` | core/adb/fdevent.cpp:161-176 | removing keeps the same, and gives up the descriptor unless FDE_DONT_CLOSE is set |
| `FdEvent.SetInv` | core/adb/fdevent.cpp:196-214 | re-masking keeps the same |
| `FdEvent.MarkInv` | core/adb/fdevent.cpp:252-284 | marking a polled descriptor keeps the same, so the checks in fdevent_process hold |
| `FdEvent.CallsOk` | core/adb/fdevent.cpp:287-294 | whatever callbacks do, each call is for an fdevent that is installed and pending then, with events, each asked for unless trouble faked it; no fdevent is called twice in an iteration |
| `FdEvent.RoundCalls` | core/adb/fdevent.cpp:413-435 | an iteration of the loop calls at most once per fdevent, to read only if poll reported data or trouble on its descriptor, to write only if writable, with FDE_ERROR only on trouble |
| `FdEvent.RoundComplete` | core/adb/fdevent.cpp:413-435 | a descriptor with anything reported whose fdevent no callback touches is called for: FDE_READ exactly on data or trouble, FDE_WRITE exactly if writable, FDE_ERROR exactly on trouble |
| `FdEvent.Loop` | core/adb/fdevent.cpp:413-435 | after any number of iterations the invariant holds, nothing is pending and there is something to poll |
| `FdEventLoop.EventLoop.FdInstall` | core/adb/fdevent.cpp:142-159 | the tables change as Install says and stay consistent; the descriptor was not watched |
| `FdEventLoop.EventLoop.FdRemove` | core/adb/fdevent.cpp:161-176 | the tables change as Remove says and stay consistent |
| `FdEventLoop.EventLoop.FdSet` | core/adb/fdevent.cpp:178-214 | the tables change as Set says and stay consistent |
| `FdEventLoop.EventLoop.FdAdd` | core/adb/fdevent.cpp:216-219 | exactly the given bits are added, other fdevents are untouched |
| `FdEventLoop.EventLoop.FdDel` | core/adb/fdevent.cpp:221-224 | exactly the given bits are removed, pending events with them |
| `FdEventLoop.EventLoop.Process` | core/adb/fdevent.cpp:241-285 | the loop marks every polled descriptor with the events its report calls for |
| `FdEventLoop.EventLoop.DispatchPending` | core/adb/fdevent.cpp:429-433 | the inner loop makes exactly the calls of DispatchAll and leaves its state |
| `SocketEvents.CallsAreDeliverable` | core/adb/fdevent.cpp:241-294 | in every round of the loop, whatever other callbacks did, a call for a registered socket is an event the protocol allows, and without trouble on its descriptor a read reaches it only while FDE_READ is on |
| `MainLoop.LoopWatched` | core/adb/fdevent.cpp:413-435 | after any rounds of the loop with the protocol's steps as callbacks, every allocated socket's fdevent is installed and asks for FDE_READ and FDE_WRITE exactly when the socket wants them, and no freed socket's is installed |
| `MainLoop.InStepAsRecorded` | core/adb/sockets.cpp:385-400 | what the loop watches for is what the socket's record says |
| `MainLoop.EveryCallIsDeliverable` | core/adb/fdevent.cpp:241-294 | in every run of the main thread each call of a socket's callback is an event the protocol allows on the socket table it finds, and a read with FDE_READ off happens only when poll reported trouble on its descriptor |
| `MainLoop.LoopIsRun` | core/adb/fdevent.cpp:413-435 | whatever the main thread does under the event loop is a run of the protocol |
| `RunQueue.StepInv` | core/adb/fdevent.cpp:362-411 | every step of every thread keeps: functions run and waiting are the submissions in order, none that has run submits, and nothing waits without a wake-up once the notify descriptor exists, unless the main thread waits for itself |
| `RunQueue.InOrderAndAwaited` | core/adb/fdevent.cpp:362-411 | under every interleaving, functions run followed by functions waiting are the submissions in order, and after setup nothing waits without a wake-up on its way, unless the next function submits and waits for its own thread's mutex |
| `RunQueue.EverySubmissionRuns` | core/adb/fdevent.cpp:362-411 | once submissions stop, the threads come to rest within a bound however scheduled; then exactly the submissions before the first that itself submits have run, once, in order, so all have if and only if none submits |
| `RunQueue.JammedRun` | core/adb/fdevent.cpp:362-381 | a run in which one function that submits leaves everything standing still |
| `Listeners.EraseInv` | core/adb/adb_listeners.cpp:60-67 | destroying a listener keeps the disconnect list of every transport naming exactly the listeners bound to it, each once |
| `Listeners.ErasingDone` | core/adb/transport.cpp:859-864 | when all callbacks of a transport have run, exactly its listeners are gone and the lists agree |
| `Listeners.ListenerTable.RunDisconnects` | core/adb/transport.cpp:859-864 | erases exactly the listeners of the transport, keeping the others in order |
| `Listeners.ListenerTable.Disconnect` | core/adb/adb_listeners.cpp:116-125 | erases the listener it is called for and no other |
| `Listeners.ListenerTable.RemoveListener` | core/adb/adb_listeners.cpp:145-155 | erases the first listener with the name, or reports that there is none |
| `Listeners.ListenerTable.RemoveAll` | core/adb/adb_listeners.cpp:157-168 | keeps exactly the smart-socket listeners, in order |
| `Listeners.OnlySpecialMeaning` | core/adb/adb_listeners.cpp:157-168 | the listeners kept are those whose connect_to begins with '*' |
| `Listeners.ListenerTable.InstallListener` | core/adb/adb_listeners.cpp:178-241 | rebinds the listener with the name, adds one, or refuses with the status the case calls for; asks of the caller only that a listener that moves has a transport before and after |
| `TransportRuns.StepInv` | core/adb/transport.cpp:192-317 | every step of the three threads keeps: reference count, kick and removal in step with the threads, the wire a prefix of what was sent, SYNC(0) last from the reader, no live socket or listener on an offline transport, and the transport looked at late only once it is freed |
| `TransportRuns.FirstIsCnxn` | core/adb/adb.cpp:356-361 | what the writer forwards out of the messages a host's main thread sent begins with CNXN |
| `TransportTheorems.Lifecycle` | core/adb/transport.cpp:615-628 | under every interleaving: the reference count is the number of threads that have not let go, the removal message is sent once and when both have, kick_func runs at most once and has run by then, no thread is left when the transport is freed |
| `TransportTheorems.WireIsWhatWasSent` | core/adb/transport.cpp:257-306 | under every interleaving what reaches the remote end is a prefix of the messages other than SYNC that the main thread sent after some SYNC(1, token) with the reader's token; on a host the first of it is CNXN |
| `Transport.NoSyncOnWire` | core/adb/transport.cpp:273-300 | SYNC never goes to the remote end |
| `TransportTheorems.ClosedForGood` | core/adb/adb.cpp:362-366 | once the main thread has handled SYNC(0), in every continuation, past the freeing of the transport too, no socket in the live list and no listener refers to it |
| `TransportTheorems.WriterLeavesLast` | core/adb/transport.cpp:273-306 | the writer leaves only after SYNC(0) was handled, unless a write to the remote end failed |
| `TransportTheorems.FreedReleased` | core/adb/transport.cpp:512-537 | in every run without a failed write, from the moment the transport is freed no socket in the live list and no listener refers to it |
| `TransportTheorems.LateOnlyByDraining` | core/adb/sockets.cpp:879-888 | in every run without a failed write, the first look at the freed transport is the callback of a client or forwarded socket on the closing list |
| `TransportTheorems.SettledForGood` | core/adb/transport.cpp:512-537 | a transport that is offline, cannot connect again and has no client or forwarded socket closing stays so: nothing refers to it when it is freed and nothing looks at it later |
| `TransportTheorems.FreedSafelyExactlyWhen` | core/adb/transport.cpp:512-537 | once the writer has left, no schedule frees the transport while something refers to it, and none looks at it after it is freed, if and only if it is offline, no CNXN can put it online again, and no client or forwarded socket is on the closing list |
| `TransportTheorems.FreedUnderListenerRun` | core/adb/transport.cpp:287-306 | a run in which the transport is freed while a listener refers to it |
| `TransportTheorems.FreedUnderDrainingRun` | core/adb/sockets.cpp:307-311 | a run without any failure in which the transport is freed while a forwarded socket on the closing list refers to it, and that socket's next callback looks at it |
| `AdbIo.Source.ReadFdExactly` | core/adb/adb_io.cpp:70-95 | however the stream is cut, reads exactly the bytes asked for or fails when there are fewer |
| `AdbIo.PersistExactly` | core/adb/adb_io.cpp:97-124 | from the results of the calls alone: writing everything fails exactly when an error other than EAGAIN comes before all is taken, and what was taken is written |
| `AdbIo.WriteLoop` | core/adb/adb_io.cpp:97-124 | the loop retries on EAGAIN and short writes and stops at an error; it succeeds exactly when everything is taken |
| `AdbIo.Sink.WriteFdExactly` | core/adb/adb_io.cpp:97-124 | however the descriptor takes them, writes exactly the bytes, or the prefix taken before an error |
| `PacketCodec.CalculateChecksum` | core/adb/adb.cpp:107-118 | the wrapping accumulator holds the sum of the bytes modulo 2^32 |
| `PacketCodec.ChecksumSeesOneByte` | core/adb/transport.cpp:1092-1094 | changing one byte of a payload always changes its checksum |
| `PacketCodec.MagicIsComplement` | core/adb/transport.cpp:1076-1084 | every bit of the magic differs from that of the command |
| `PacketCodec.EncodeLayout` | core/adb/adb.h:61-68 | the six words lie on the wire in the order of amessage, lowest byte first, the payload after them |
| `PacketCodec.DecodeEncode` | core/adb/transport_local.cpp:63-98 | reading what was written for a sealed packet within the limit returns the packet and leaves what follows |
| `PacketCodec.EncodeDecode` | core/adb/transport.cpp:1076-1094 | whatever passes check_header and check_data is the encoding of a sealed packet within the limit |
| `PacketCodec.StreamRoundTrip` | core/adb/transport_local.cpp:63-98 | a stream of packets is read back as written |
| `PacketCodec.RemoteRead` | core/adb/transport_local.cpp:63-86 | decodes what is in the stream, however it is cut, with the same refusals |
| `PacketCodec.RemoteWrite` | core/adb/transport_local.cpp:88-98 | puts the encoding on the wire |
| `PacketCodec.SameLimit` | core/adb/adb.cpp:322-330 | in every run of the CNXN exchange, when the host is online so is the device and both hold the smaller limit |
| `PacketCodec.WritesAccepted` | core/adb/transport.cpp:1076-1090 | every WRITE in flight in any run passes the other end's checks |
| `PacketCodec.ReadAsSent` | core/adb/adb.cpp:404-483 | handle_packet takes the apacket of a stream packet for that packet: its command, its ids in their places, its data |
| `PacketCodec.PacketsArrive` | core/adb/transport.cpp:1076-1094 | every packet in flight in any run passes the other end's checks and is taken for what it is |
| `Negotiation.SyncAnnounces` | core/adb/adb.cpp:356-361 | on SYNC(1) the host's main thread announces its limit as the exchange says, a device's nothing |
| `Negotiation.HostHearsAsShaken` | core/adb/adb.cpp:322-345 | on CNXN the host takes the smaller limit, goes online and announces nothing, as in the exchange |
| `Negotiation.DeviceHearsAsShaken` | core/adb/adb.cpp:322-345 | on CNXN the device takes the smaller limit, goes online and announces it, as in the exchange |
| `Negotiation.CnxnStartsAfresh` | core/adb/adb.cpp:322-330 | after a CNXN no socket in the live list and no listener of an earlier connection is left |
| `Shell.CutRestores` | core/adb/shell_service_protocol.cpp:45-51 | the pieces of a packet put together are its payload |
| `Shell.EncodeLayout` | core/adb/shell_service_protocol.cpp:56-62 | a packet on the wire: the id, four bytes of length with the lowest first, the data |
| `Shell.ReadsArePieces` | core/adb/shell_service_protocol.cpp:32-62 | for any packets and any positive capacity, the reads of each packet are its pieces, in order, under its id |
| `Shell.StdinPieces` | core/adb/shell_service_protocol.cpp:32-54 | cutting packets does not change the stdin payload |
| `Shell.ShellProtocol.Read` | core/adb/shell_service_protocol.cpp:32-54 | one read, however the stream is cut: a header when the last packet is finished, then as much data as fits |
| `Shell.ShellProtocol.Write` | core/adb/shell_service_protocol.cpp:56-62 | puts the encoding of the packet on the wire |
| `ShellService.WriteMoves` | core/adb/shell_service.cpp:608-624 | a write moves bytes from the rest of the packet to stdin in order; EAGAIN changes nothing, and exactly an error or zero closes stdin and drops the rest |
| `ShellService.NobodyDiesCalmly` | core/adb/shell_service.cpp:505-627 | a round in which output is passed, stdin takes something or is full, and the packet to start on is whole closes no descriptor |
| `ShellService.WhoDies` | core/adb/shell_service.cpp:473-495 | a closed stdout takes stdin with it and nothing else, a closed stderr only itself, a lost or broken protocol descriptor everything |
| `ShellService.OverForGood` | core/adb/shell_service.cpp:473-475 | once the protocol descriptor or both pipes are closed nothing more is passed on |
| `ShellService.SelectTrouble` | core/adb/shell_service.cpp:516-525 | an interrupted select changes nothing, a failed one ends the pump |
| `ShellService.NextConserves` | core/adb/shell_service.cpp:560-606 | reading a packet moves its stdin payload from the stream to what is left to write |
| `ShellService.SelectShape` | core/adb/shell_service.cpp:505-558 | an iteration of SelectLoop passes input at most once, because only one of the two descriptors is watched |
| `ShellService.StepInv` | core/adb/shell_service.cpp:455-558 | every round keeps: the protocol descriptor in the read set exactly when no input is left, stdin in the write set exactly when some is, and no stdin byte lost or reordered |
| `ShellService.StdinIsPrefix` | core/adb/shell_service.cpp:455-627 | for any packets, capacity, select results and write results the child's stdin is a prefix of the stdin payloads, and all of them once everything is read and written |
| `ShellSubprocess.Subprocess.PassInput` | core/adb/shell_service.cpp:560-627 | performs the PassInput step, with the index into the buffer |
| `ShellSubprocess.Subprocess.SelectOnce` | core/adb/shell_service.cpp:505-558 | performs one iteration of SelectLoop |
| `ShellSubprocess.Subprocess.PassDataStreams` | core/adb/shell_service.cpp:455-495 | performs the whole run |
| `ShellSubprocess.Serve` | core/adb/shell_service.cpp:455-627 | from packets to stdin through a stream cut in any way: the run of the step system, so a prefix of the stdin payloads |
| `FileSync.StrtoulDecimal` | core/adb/file_sync_service.cpp:379-384 | the mode printed with %d is read back by strtoul with base 0 |
| `FileSync.GrantedBits` | core/adb/file_sync_service.cpp:397-400 | bit by bit: the stored mode has the user's permissions, for the group also the user's, for others also both, and nothing else |
| `FileSync.LinkModes` | core/adb/file_sync_service.cpp:392-394 | whatever the permissions, S_IFLNK is a link and S_IFREG and S_IFDIR are not |
| `FileSync.ModeRead` | core/adb/file_sync_service.cpp:369-394 | of any digits after the last comma: more than 64 bits are refused, the low 32 bits decide link or file |
| `FileSync.SmallIsOneChunk` | core/adb/file_sync_client.cpp:374-416 | the single-write form is the chunked form with one chunk |
| `FileSync.PushRoundTrip` | core/adb/file_sync_service.cpp:369-411 | a pushed file arrives with its path (commas included), mode, content and mtime however it was cut, and the next request is next in the stream |
| `FileSync.PushRegular` | core/adb/file_sync_service.cpp:369-411 | a regular file with any permissions is stored with its path, content and mtime, and everybody has the user's permissions |
| `FileSync.CollectOnly` | core/adb/file_sync_service.cpp:243-266 | only a stream of data messages within the limit, ended by ID_DONE, is taken for a file, and its content is theirs |
| `FileSync.LinkOnly` | core/adb/file_sync_service.cpp:322-366 | only one data message with the target and ID_DONE is taken for a link |
| `FileSync.RequestOnly` | core/adb/file_sync_service.cpp:471-522 | only a known id with a text of at most 1024 bytes is not refused, and a send request only with a comma |
| `FileSync.SmallRoundTrip` | core/adb/file_sync_client.cpp:374-416 | the single-write form arrives as the same file |
| `FileSync.LinkRoundTrip` | core/adb/file_sync_service.cpp:322-366 | a pushed symbolic link arrives with its path and target |
| `FileSync.PullRoundTrip` | core/adb/file_sync_service.cpp:413-448 | what the server sends for a file the client puts together again |
| `FileSync.HandleRequest` | core/adb/file_sync_service.cpp:471-522 | every NUL-free request of up to 1024 bytes is taken apart as it was put together, whatever follows it: send, receive, list, the three kinds of stat, quit; other ids are refused |
| `FileSyncIo.CopyFile` | core/adb/file_sync_client.cpp:441-466 | the copy loop turns a file, read in any pieces, into one message per piece, up to its end or to the first message after which the other side has said something |
| `FileSyncIo.SendRequest` | core/adb/file_sync_client.cpp:281-299 | writes the request, or refuses a text that is too long and writes nothing |
| `FileSyncIo.SendSmallFile` | core/adb/file_sync_client.cpp:374-416 | writes the single-write form, or refuses a path that is too long and writes nothing |
| `FileSyncIo.SendLargeFile` | core/adb/file_sync_client.cpp:418-476 | writes the chunked form of the whole file, or of the part sent before the other side said something, ID_DONE included; or refuses a path that is too long and writes nothing |
| `FileSyncIo.CollectFrom` | core/adb/file_sync_service.cpp:243-266 | the data loop collects the content, with the same refusals, however the stream is cut |
| `FileSyncIo.HandleSyncCommand` | core/adb/file_sync_service.cpp:471-522 | takes any request apart however the stream is cut: a file to store, a question about a path, the end, or a refusal |
| `FileSyncIo.Recv` | core/adb/file_sync_service.cpp:413-448 | sends the content of the file in messages, or a failure if there is no such file |
| `FileSyncIo.Push` | core/adb/file_sync_client.cpp:677-731 | end to end, the stored file is the file pushed, in either form, with the user's permissions for everybody |
| `FileSyncIo.Pull` | core/adb/file_sync_client.cpp:733-788 | end to end, from the request for a path to the content of the server's file of that name; nothing exactly when the path is too long or there is no such file |
| `Cpio.EmitLayout` | core/cpio/mkbootfs.c:91-139 | header and data of every entry start at multiples of 4 |
| `Cpio.EmitRead` | core/cpio/mkbootfs.c:91-139 | an entry is read back from where it was put, with all thirteen numbers of its header, whatever follows |
| `Cpio.ArchiveRoundTrip` | core/cpio/mkbootfs.c:91-151 | a reader that goes by the lengths recovers exactly the list of entries, the i-th with inode 300000 + i modulo 2^32, one link and nothing but zeros besides; the archive is a multiple of 256 long |
| `Cpio.InodesDiffer` | core/cpio/mkbootfs.c:91-112 | up to 2^32 entries have different inodes, so none is taken for a hard link to another |
| `Cpio.Writer.Eject` | core/cpio/mkbootfs.c:91-139 | writes the entry; the size counted is the size written |
| `Cpio.Writer.EjectTrailer` | core/cpio/mkbootfs.c:141-151 | writes the trailer and pads to a multiple of 256 |
| `Cpio.WriteArchive` | core/cpio/mkbootfs.c:91-151 | the bytes written are the archive and their number is the total counted |
| `Utf8.ParseCompleteUTF8` | core/adb/sysdeps_win32.cpp:2288-2324 | the backward walk finds the split |
| `Utf8.CodepointLenTable` | core/adb/sysdeps_win32.cpp:2279-2281 | the bit expression gives the length each lead byte announces |
| `Utf8.Console.Write` | core/adb/sysdeps_win32.cpp:2334-2363 | writes the complete part of buffer and input and holds back the rest |
| `Utf8.NothingLost` | core/adb/sysdeps_win32.cpp:2345-2363 | for any bytes and any cuts, written followed by held-back bytes are the input, and at most three are held back |
| `Utf8.EveryPieceValid` | core/adb/sysdeps_win32.cpp:2288-2363 | if the input is the beginning of valid UTF-8 (section 4 of RFC 3629), every piece written is valid UTF-8 |
| `FdTable.RunsAgree` | core/adb/sysdeps_win32.cpp:178-224 | over any sequence of allocs and closes the hinted table answers as a first-fit scan from slot 0 |
| `FdTable.StepInv` | core/adb/sysdeps_win32.cpp:178-224 | all slots below the hint stay in use |
| `FdTable.FailsOnlyWhenFull` | core/adb/sysdeps_win32.cpp:178-201 | an allocation fails exactly when every slot is in use |
| `FdTable.Win32Fhs.FhAlloc` | core/adb/sysdeps_win32.cpp:178-201 | the scan in the array allocates as HintedStep says |
| `FdTable.Win32Fhs.FhClose` | core/adb/sysdeps_win32.cpp:204-224 | closing frees the slot and lowers the hint |
| `FdTable.Win32Fhs.FromInt` | core/adb/sysdeps_win32.cpp:142-166 | accepts exactly the numbers of slots in use and returns the slot |
| `FdTable.Win32Fhs.Inverse` | core/adb/sysdeps_win32.cpp:142-176 | the two conversions undo each other on slots in use and refuse the others |

## Left out

- Socket ids are unbounded here; the program aborts when the 32-bit counter wraps.
- Host services, JDWP sockets and device trackers, which pair local sockets with local sockets; a host request other than `host:transport` is a request that is not forwarded.
- The `status` of a client records what it reads about its stream; the OKAY or FAIL that answers `host:transport` is not part of it.
- Several transports at once, and remote ends that send SYNC packets or ids they were never given; a second CNXN on a live transport is part of `Transport` but not of `Streams`.
- AUTH, keys and the authorization dialogue.
- How fde.force_eof gets set: it is an input of the callback, and fdevent_subproc_event_func is not modelled.
- The intrusive prev and next pointers of the socket lists; the lists are sequences, in the same order.
- Failures of the socket pair are steps of `Transport`, but the promises that depend on SYNC(0) being delivered are for runs without them.
- The thread protocol and the run queue are step systems over values; their locks are the steps' atomicity.
- `Transport` goes on where an OPEN too long for the transport would end the process; its runs include those that do not.
- What fs_config, SELinux labels, mkdir and unlink do to a pushed file, errors on either file system, and the answers to stat and list requests.
- FileSync.Strtoul: does not model white space and signs before the digits, which the client never sends.
- Cpio.Emit: the mode is the one fix_stat leaves; reading directories, links and the canned configuration is not modelled.
- Shell window-size packets, and what PassOutput writes to the protocol descriptor.
- close_smartsockets, format_listeners, USB and mDNS, logging, tracing, command-line parsing, and the other tools of the repository.
