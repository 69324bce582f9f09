# A verified model of ASockLib

ASockLib sends messages over stream sockets. Each message is framed by a ten-byte header that
holds its length as decimal text. The receiver collects bytes in a circular buffer, cuts them
into frames again and hands each payload to the user's callback. This project models the parts of
the library where that can go wrong, and proves what they keep.

| file | what it models |
|---|---|
| `Header.dfy` | the length header: `snprintf`, the `int` cast, `atoi` |
| `Framing.dfy` | frames, and the one-shot splitter of a byte string |
| `Cursors.dfy` | the cursor arithmetic of the circular buffer |
| `CumBuffer.dfy` | class `CumBuffer` over an array, refined to a queue of bytes |
| `Receive.dfy` | one `RecvData` call on the queue of bytes, and every run of calls |
| `RawReceive.dfy` | one `RecvData` call on the buffer's memory, for any state of the cursors, and every run of calls |
| `Send.dfy` | one `send` result, one `SendData` or `SendPendingData` call |
| `NixBase.dfy` | classes `Context` and `NixBase`: the methods in place, proved equal to the two files above |
| `Links.dfy` | threads competing for a context's lock, each `send` a step of its own |
| `EndToEnd.dfy` | sender, byte stream and receiver together |
| `Server.dfy` | the Linux event loop over its live contexts and its context cache, with sends in between |
| `ServerRuns.dfy` | runs of that loop told by the events alone: what each client has been heard and told |
| `Sequences.dfy` | sequences without duplicates |
| `WinSends.dfy` | the Windows server's overlapped sends and their record cache |
| `WinWire.dfy` | the byte stream that overlapped sends on one socket leave |

The operating system is a parameter: what `recv`, `send`, `accept`, `epoll_ctl` and the completion
port answer is given as data, and the theorems hold for all answers.

## How the parts fit

The main results are about every run. `RawReceive.dfy` follows the receive path on the bytes of the
buffer, also after a growth that has put its cursors out of line; `RawReceive.CallRefines` shows that
until then it is the queue of `Receive.dfy`. `EndToEnd` composes sender, wire and that receiver:
whatever the threads, the partial, blocked, interrupted or failed sends and the sizes received,
`DeliveredInOrder` says what is delivered while the buffer is sound, `DeliveredInstead` what is
delivered otherwise, and `DeliveredExactly` which messages are always delivered. The steps they run
over are the ones the in-place methods take: `NixBases.NixBase.RecvData` ends in `RawReceive.Calling`,
`SendData` in `Send.SendCall`, which `Links.SendCallIsRun` shows to be a run of the lock machine, and
likewise for `SendPendingData`. Every method of `CumBuffer` but `IncreaseBufferAndCopyExisting` keeps
`Valid()` and is specified on the queue `Contents()`, so any sequence of those calls behaves as that
queue. `Servers.PoolInOrder` and `ServerRuns.ClientInOrder` are about the server's whole life: every
batch of events, every send in between, and every receive, sound or not.

Every operation that changes state also has its outcome stated from its inputs alone, without its own
step function: `Send.SendCallOutcome` and `Send.DrainCallOutcome` from the results of `send`,
`Servers.AcceptingOutcome` from those of `accept` and `epoll_ctl`, `Servers.HandledOutcome` from the event,
`WinSends.StepOutcome` from the record and the completion. `ServerRuns.LoopIsRun` shows that a whole life
of the server is a run of such outcomes, one for each event reported and in that order, and
`ServerRuns.GotIsHeard` and `ServerRuns.StreamIsTold` tie what is held for a client to those events.

## What turned out false, and exactly when

- The header carries a length exactly when it has at most nine digits (`Header.HeaderRoundTrip`).
  `SendData` does not check this. A ten-digit length loses its last digit, and one that the `int` cast
  makes negative is read as no length (`Header.AnyHeaderRead`).
- Growing the receive buffer for a large frame keeps both cursors. The buffer stays sound exactly
  when read cursor plus fill count is the write cursor (`Cursors.GrowthBoundary`,
  `Receive.AfterOk`). On a stream of frames this depends on their sizes alone, not on how the bytes
  are cut: it holds exactly as long as no frame beyond the capacity of the moment, which begins fewer
  than ten bytes before the end of the buffer, has its header there (`Receive.SoundExactly`,
  `Receive.SafeExactly`, `EndToEnd.BrokenBySizes`). A first frame of any size is safe, and so is every
  frame that fits (`Receive.LaterFramesFit`, `EndToEnd.NeverStalls`).
- That the callback gets the payloads accepted, in order, holds on every run exactly for messages of
  safe sizes (`EndToEnd.DeliveredExactly`). Take a capacity of 30 and frames of 25, 110 and 40 bytes.
  The second begins at offset 25, so its header wraps. If its bytes come alone, `GetData` refuses it
  and the connection is given up (`EndToEnd.LossReachable`). If the third frame comes with its last
  byte, the callback gets bytes 40 to 140 of what follows the first frame instead of bytes 10 to 110
  (`EndToEnd.WrongPayload`).
- A Windows record that comes back from a send gives `delete[]` the pointer it got from `new[]`
  exactly when nothing of the frame had been transferred before its last `WSASend`
  (`WinSends.FreedAtStart`, `WinSends.PartialSendFreesInside`).
- Overlapped sends on one Windows socket keep their frames whole exactly when bytes are only
  transferred while no other send of that socket is halfway (`WinWire.FramedExactly`). Completions of
  whole windows guarantee it; the rest of a partial one is issued again behind whatever else has been
  sent, so any two messages can tear each other's frames (`WinWire.OverlapTears`).
- Terminating a client keeps the context pool in order exactly when the client is still live
  (`Servers.TerminateOnce`); one event per descriptor in a batch is what guarantees it.

Where the code and its comments differ, the model follows the code:

- The comment at `DoSendPendingFailed` says the server keeps running. `ServerThreadRoutine` returns
  whenever `SendPendingData` returns false, so one failed client stops the server.
- The comment at `InitAutoGrowing` says the buffer doubles when space runs out. `Append` still
  refuses data longer than the current capacity.
- The comment at `IncreaseBufferAndCopyExisting` says the buffer grows by the given size. The code
  makes it that size.
- After a failed completion the Windows worker means to terminate the client of a send, but tests the
  type of a record that it has already reset and returned (`asock_win_server.hpp:768` and `:781`). The
  test succeeds only if another thread has refilled the record in between; the model has both cases.

## Model

| member | source | states |
|---|---|---|
| Header.HeaderRoundTrip | include/asock/internal/asock_nix_base.hpp:68-71 | the length read back from the printed header is the payload length plus the header size if and only if the payload length has at most nine digits, whatever follows the terminator |
| Header.FrameLenBound | include/asock/internal/asock_nix_base.hpp:211-213 | no readable ten-byte header announces more than 999,999,999 payload bytes |
| Header.AnyHeaderRead | include/asock/internal/asock_nix_base.hpp:68-71 | what the receiver reads from the header of a payload of any length: the `int` cast of the length, without its last digit if it has ten, and nothing if it is negative |
| Header.DigitsAre | include/asock/internal/asock_nix_base.hpp:71 | what is printed is the decimal numeral of the number in the characters '0' to '9', without leading zeros |
| Header.NumeralRead | include/asock/internal/asock_nix_base.hpp:211-213 | `atoi` on any field without leading white space: after a sign, the number that the leading characters '0' to '9' stand for; undefined if they fill the field |
| Header.SpaceSkipped | include/asock/internal/asock_nix_base.hpp:211-213 | white space before that does not matter |
| Framing.SplitAppend | include/asock/internal/asock_nix_base.hpp:395-448 | splitting a stream in two steps, keeping the tail in between, gives the same frames and the same tail |
| Framing.SplitFrames | include/asock/internal/asock_nix_base.hpp:395-448 | splitting the frames of any printable messages gives back exactly their payloads with nothing left |
| Framing.SplitPrefix | include/asock/internal/asock_nix_base.hpp:395-448 | any prefix of a framed stream splits into a prefix of the messages, and its tail starts with the next message's header |
| Cursors.WindowIsFree | include/asock/internal/asock_buffer.hpp:467-495 | the granted window is in bounds, as long as announced, free of unread bytes and, while the buffer has room, non-empty; granting it moves no unread byte |
| Cursors.WindowIsLargest | include/asock/internal/asock_buffer.hpp:467-495 | the window ends where the buffer does or where the oldest unread byte is, so it is the largest there is at that place |
| Cursors.FilledWindow | include/asock/internal/asock_buffer.hpp:497-504 | bytes written at the start of the window are the next ones in line after the unread ones |
| Cursors.GrowthBoundary | include/asock/internal/asock_buffer.hpp:526-551 | growing with both cursors kept re-establishes the cursor invariant if and only if read cursor plus fill count is the write cursor, and then keeps every position |
| CumBuffers.CumBuffer.Init | include/asock/internal/asock_buffer.hpp:69-79 | a fixed buffer of the given capacity, sound and empty |
| CumBuffers.CumBuffer.InitAutoGrowing | include/asock/internal/asock_buffer.hpp:82-92 | an auto-growing buffer of the given capacity, sound and empty |
| CumBuffers.CumBuffer.GrowInPlace | include/asock/internal/asock_buffer.hpp:105-127 | growth branches 1 and 4: the capacity doubles and the contents are the old ones followed by the data |
| CumBuffers.CumBuffer.GrowRotated | include/asock/internal/asock_buffer.hpp:128-220 | growth branches 2 and 3: the same for a wrapped buffer, whose bytes become contiguous |
| CumBuffers.CumBuffer.WriteLinear | include/asock/internal/asock_buffer.hpp:294-302 | the data goes in one piece after the unread bytes, nothing else moves |
| CumBuffers.CumBuffer.WriteSplit | include/asock/internal/asock_buffer.hpp:230-249 | the data goes in two pieces around the end, after the unread bytes |
| CumBuffers.CumBuffer.Append | include/asock/internal/asock_buffer.hpp:94-305 | exactly when it succeeds and with which error it fails; on success the queue is the old one followed by the data; it doubles exactly when full or out of space in growing mode; a failure changes nothing |
| CumBuffers.CumBuffer.ValidateBuffer | include/asock/internal/asock_buffer.hpp:431-440 | OK if and only if there is data and at least the length asked for |
| CumBuffers.CumBuffer.PeekData | include/asock/internal/asock_buffer.hpp:308-344 | succeeds exactly when its tests on length and cursors do, whatever the cursors, and returns the bytes they point at; on a sound buffer, exactly when validation does, and then the oldest bytes of the queue |
| CumBuffers.CumBuffer.ConsumeData | include/asock/internal/asock_buffer.hpp:347-384 | the same tests; on a sound buffer it succeeds exactly when validation does and drops the oldest bytes |
| CumBuffers.CumBuffer.GetData | include/asock/internal/asock_buffer.hpp:387-428 | outcome, bytes and new state are those of peeking and then consuming, for any cursors |
| CumBuffers.OldestUnread | include/asock/internal/asock_buffer.hpp:308-344 | while the cursors are in line, the tests of `PeekData` after validation never fail, and what is copied out is the front of the queue |
| CumBuffers.CumBuffer.GetLinearFreeSpace | include/asock/internal/asock_buffer.hpp:467-479 | the window is non-empty and fits in the free space whenever the buffer has room |
| CumBuffers.CumBuffer.GetLinearAppendPtr | include/asock/internal/asock_buffer.hpp:482-495 | may move the write cursor to the start but never changes the queue |
| CumBuffers.CumBuffer.DirectWrite | include/asock/internal/asock_nix_base.hpp:386-388 | the bytes go to the offset given and nothing else changes; in the window of a sound buffer they touch no unread byte |
| CumBuffers.CumBuffer.IncreaseData | include/asock/internal/asock_buffer.hpp:497-504 | write cursor and count advance; on a sound buffer exactly the bytes written at the window's start are appended to the queue |
| CumBuffers.CumBuffer.ReSet | include/asock/internal/asock_buffer.hpp:519-523 | the queue is empty, the capacity kept |
| CumBuffers.CumBuffer.IncreaseBufferAndCopyExisting | include/asock/internal/asock_buffer.hpp:526-551 | raw bytes and cursors are kept and the rest is zero; the buffer is sound if and only if read cursor plus fill count was the write cursor, and then holds the same queue |
| Receive.SettledStep | include/asock/internal/asock_nix_base.hpp:412-447 | delivering the first complete frame leaves the same final state to be reached |
| Receive.AfterOk | include/asock/internal/asock_nix_base.hpp:376-456 | one call keeps the receive invariant, with the cached length agreeing with the buffered header, if and only if it neither grows a buffer whose cursors are out of line nor meets an unreadable header; unless it meets one, it leaves room for the next call |
| Receive.GrowsWrappedExactly | include/asock/internal/asock_nix_base.hpp:214-226 | a call that grows the buffer finds the cursors out of line if and only if the frame that needs the growth begins fewer than ten bytes before the end of the buffer |
| Receive.AfterNothing | include/asock/internal/asock_nix_base.hpp:386-388 | a receive that returns an error loses nothing, though it may move the write cursor |
| Receive.OkHasWindow | include/asock/internal/asock_nix_base.hpp:384-385 | between calls the window is never empty, so the assertion at the next entry holds |
| Receive.RunIsSplit | include/asock/internal/asock_nix_base.hpp:376-456 | over any run of calls that each find a sound buffer, the last of them perhaps breaking it, what is delivered and what stays unread is what the one-shot splitter yields on all bytes so far |
| Receive.ChunkIndependence | include/asock/internal/asock_nix_base.hpp:376-456 | two receivers of any capacity given the same bytes in any pieces deliver the same payloads and keep the same tail |
| Receive.RunStands | include/asock/internal/asock_nix_base.hpp:376-456 | on any byte stream without unreadable headers, the bytes alone, however cut, decide whether the buffer is broken, and its capacity and read cursor |
| Receive.SafeExactly | include/asock/internal/asock_nix_base.hpp:200-237 | the receiver stays sound under every chunking of every prefix of a framed stream if and only if the frame sizes are safe: no frame beyond the capacity of the moment begins fewer than ten bytes before the end of the buffer |
| Receive.SoundExactly | include/asock/internal/asock_nix_base.hpp:200-237 | under every chunking of every prefix of a framed stream, the receiver is sound if and only if the bytes that have come do not reach the header of a frame that breaks the buffer; both sides depend on frame sizes and byte count only |
| Receive.StreamReceived | include/asock/internal/asock_nix_base.hpp:376-456 | a stream whose frame sizes are safe is received intact under any chunking, and every state on the way is sound with a non-empty window |
| Receive.LaterFramesFit | include/asock/internal/asock_nix_base.hpp:214-226 | a first frame of any size followed by frames that fit the capacity it leaves behind is safe |
| Receive.WrappedGrowthIsReachable | include/asock/internal/asock_nix_base.hpp:214-226 | whenever a frame leaves fewer than ten bytes of a fresh buffer, or none, and the next frame exceeds the capacity, two receives end with broken cursors |
| RawReceive.DeliveringSettles | include/asock/internal/asock_nix_base.hpp:395-449 | while the cursors are in line, the delivery loop on the buffer's memory ends in the state, payloads and queue that the splitter gives |
| RawReceive.CallRefines | include/asock/internal/asock_nix_base.hpp:376-456 | from a sound state, a whole receive on the memory ends as `Receive.After` says; it is lost exactly at an unreadable header |
| RawReceive.BreakStrays | include/asock/internal/asock_nix_base.hpp:214-226 | the call that breaks the buffer leaves it waiting for the rest of the frame, with its memory and cursors in a known position |
| RawReceive.AstrayCall | include/asock/internal/asock_nix_base.hpp:376-456 | each further call on a broken buffer: it waits until the frame is complete; then an assertion fails, or `GetData` refuses the frame, or the callback gets the bytes that lie as far on in the stream as the old capacity was long |
| RawReceive.TakingKeeps | include/asock/internal/asock_nix_base.hpp:376-456 | after every call, in step or broken, a receiver stands where the bytes received put it |
| RawReceive.ReachedDelivers | include/asock/internal/asock_nix_base.hpp:376-456 | of a framed stream whose received part does not break the buffer, a prefix of the payloads has been delivered, and all when all has come |
| Send.WriteOnceConserves | include/asock/internal/asock_nix_base.hpp:105-161 | one round of the send loop moves bytes from the frame to the wire or the deque, losing, repeating and reordering none; it fails exactly on an error, or where the socket would block and EPOLLOUT cannot be armed, and goes on exactly after an interrupt or a partial send |
| Send.EnqueueConserves | include/asock/internal/asock_nix_base.hpp:73-98 | queueing behind a pending send succeeds exactly if EPOLLOUT can be armed; it then appends exactly the frame, and otherwise changes nothing |
| Send.DrainOnceConserves | include/asock/internal/asock_nix_base.hpp:302-371 | one round of the drain keeps wire plus deque the same stream, including when a remainder replaces the front entry; it fails exactly on an error or when EPOLLOUT cannot be disarmed once all is sent, and goes on exactly after an interrupt, an empty send or a whole front entry with more behind it |
| Send.SendCallConserves | include/asock/internal/asock_nix_base.hpp:65-164 | when a call returns true, from the results alone; it then has appended its whole frame to the stream, and otherwise put a proper prefix on the wire, none if a send was pending; flag, deque and EPOLLOUT interest keep agreeing |
| Send.DrainCallConserves | include/asock/internal/asock_nix_base.hpp:299-373 | when a drain returns true, from the results alone; it never changes the stream, and unless it fails flag, deque and interest keep agreeing |
| Send.SendCallOutcome | include/asock/internal/asock_nix_base.hpp:65-164 | for every series of results of `send`: how many bytes go out, what is queued with flag and EPOLLOUT set, and when the call returns true, namely if the frame is out before the socket blocks or fails, or the rest can be queued with EPOLLOUT armed |
| Send.DrainCallOutcome | include/asock/internal/asock_nix_base.hpp:299-373 | for every deque and series of results: which entries go out whole, which in part, what stays, when flag and interest are cleared, and that the call returns false only on an error before the loop ends or an EPOLLOUT that cannot be disarmed |
| NixBases.NixBase.SendLoop | include/asock/internal/asock_nix_base.hpp:105-161 | the in-place loop over the results ends in the state and result of the loop on values |
| NixBases.NixBase.SendData | include/asock/internal/asock_nix_base.hpp:65-164 | the call ends in the state and result of `SendCall`, about which conservation is proved, and in the state and result that the `send` results alone say |
| NixBases.NixBase.SendPendingData | include/asock/internal/asock_nix_base.hpp:299-373 | the in-place loop ends in the state and result of `DrainCall`, about which conservation is proved, and in the state and result that the `send` results alone say |
| NixBases.NixBase.OnCalculateDataLen | include/asock/internal/asock_nix_base.hpp:200-237 | the length announced by the buffered header, or more to come, for any cursors; grows the buffer, and sets the capacity for later ones, to twice a length beyond the capacity and only then, keeping memory and cursors |
| NixBases.NixBase.TakeIn | include/asock/internal/asock_nix_base.hpp:386-394 | the bytes that the kernel puts in the window are in the memory and counted; on a sound buffer they join the queue |
| NixBases.NixBase.Recv | include/asock/internal/asock_nix_base.hpp:384-394 | the zero-copy receive puts exactly the received bytes in the window, and nothing on an error or an orderly end; it stops exactly where an assertion of the source fails |
| NixBases.NixBase.DeliverRound | include/asock/internal/asock_nix_base.hpp:395-448 | for any cursors, a round either ends the call in the state of the delivery loop or delivers one frame, leaves the same to be done and consumes at least a header's worth of bytes |
| NixBases.NixBase.DeliverPacket | include/asock/internal/asock_nix_base.hpp:412-447 | one complete packet leaves the buffer for the callback, or `GetData` refuses it and nothing is consumed |
| NixBases.NixBase.DeliverAll | include/asock/internal/asock_nix_base.hpp:395-449 | the loop in place ends in the state and result of the loop on the memory's value, for any cursors |
| NixBases.NixBase.RecvData | include/asock/internal/asock_nix_base.hpp:376-456 | the in-place receive ends in the state of a call on the memory, sound or broken, for bytes, an orderly end and an error alike; it returns false exactly at an orderly end or a frame that `GetData` refuses |
| NixBases.SoundFinishes | include/asock/internal/asock_nix_base.hpp:376-456 | from a sound context that call ends in the state specified by the one-shot splitter |
| Links.SendConservation | include/asock/internal/asock_nix_base.hpp:65-164 | over every interleaving, wire plus deque plus the frame in hand are the frames taken in lock order, and the wire never holds anything else |
| Links.NoLostWakeUp | include/asock/internal/asock_nix_base.hpp:126-152 | over every interleaving that breaks nothing, pending flag, non-empty deque and armed EPOLLOUT are equivalent |
| Links.FrameAtomicity | include/asock/internal/asock_nix_base.hpp:66-161 | over every interleaving, each taken frame begins on the wire where the one before it ends and is contiguous there, whoever finishes sending it |
| Links.SendCallIsRun | include/asock/internal/asock_nix_base.hpp:65-164 | a whole `SendData` call is a run of the lock machine; its message is not taken if it fails with nothing sent, and the connection breaks exactly when it fails with part of the frame sent |
| Links.DrainCallIsRun | include/asock/internal/asock_nix_base.hpp:299-373 | a whole `SendPendingData` call is a run of the lock machine, which breaks the connection exactly when the call fails |
| EndToEnd.DeliveredInOrder | include/asock/internal/asock_nix_base.hpp:65-456 | over every interleaving of sends, drains and receives, as long as the bytes received do not reach the header of a frame that breaks the receive buffer: the receiver is sound with a window, the delivered payloads are a prefix of those accepted in lock order, and equal them once deque, lock and wire are clear |
| EndToEnd.DeliveredInstead | include/asock/internal/asock_nix_base.hpp:200-448 | over every interleaving in which they do reach it: the messages before are delivered, and in place of that message's payload nothing, or the bytes that lie as far on in the stream as the old capacity was long |
| EndToEnd.BrokenBySizes | include/asock/internal/asock_nix_base.hpp:200-237 | in every reachable state the buffer has been broken if and only if the sizes accepted in lock order and the number of bytes received say so |
| EndToEnd.DeliveredExactly | include/asock/internal/asock_nix_base.hpp:65-456 | every run that accepts exactly these messages and runs to its end delivers them all, if and only if their sizes are safe |
| EndToEnd.LossReachable | include/asock/internal/asock_nix_base.hpp:416-426 | for any unsafe list of messages, a run in which every send succeeds: the receiver refuses the breaking frame once it is complete, and it and all later messages are lost |
| EndToEnd.WrongPayload | include/asock/internal/asock_nix_base.hpp:412-447 | for any three messages whose second breaks the buffer and whose third arrives with its last byte, a run in which every send succeeds and the callback gets other bytes as the second payload |
| EndToEnd.NotThePayload | include/asock/internal/asock_nix_base.hpp:412-447 | with a second payload of zeros those bytes do differ from it, so the delivered payloads are not a prefix of those accepted |
| EndToEnd.NeverStalls | include/asock/internal/asock_nix_base.hpp:384-411 | if every frame accepted fits the buffer, then on every run the receiver is sound with its capacity unchanged, the cached length agrees with the buffered header and the window is non-empty |
| EndToEnd.CanAlwaysDeliver | include/asock/internal/asock_nix_base.hpp:299-456 | from every reachable unbroken link with safe sizes some continuation delivers everything accepted, taking no new message and draining only while EPOLLOUT is armed |
| Servers.TerminateOnce | include/asock/internal/asock_nix_server.hpp:207-234 | terminating a client keeps the pool in order if and only if the client is live, and then touches no other client |
| Servers.AddedOk | include/asock/internal/asock_nix_server.hpp:170-179 | a context from the cache, or a new one, becomes a live client with the pool in order and every other client untouched |
| Servers.AcceptingOutcome | include/asock/internal/asock_nix_server.hpp:141-198 | for any results of `accept` and `epoll_ctl`: exactly the descriptors accepted up to the first other result are served, by contexts as good as new from the front of the cache, the client count is larger by as many, no client is disturbed and the pool stays in order; false exactly if that result is an error of `accept` or of `epoll_ctl` |
| Servers.HandledOutcome | include/asock/internal/asock_nix_server.hpp:266-310 | what any event does, said from the event alone: a receive is acted on, a hang-up, an orderly end, a refused receive or a failed drain puts the client in the cache with the count one lower, only a failed drain or accept stops the loop, nothing else changes, and the pool stays in order |
| Servers.ReadDelivers | include/asock/internal/asock_nix_base.hpp:376-456 | bytes received from a client whose stream is not spoilt leave it live, and delivered exactly what the one-shot splitter yields on all it has sent |
| Servers.TerminatedIsGone | include/asock/internal/asock_nix_server.hpp:207-234 | a terminated client is out of the socket map, last in the cache and as good as new with the buffer it had, the count is one lower, and nothing else has changed |
| Servers.RestReportable | include/asock/internal/asock_nix_server.hpp:266-310 | after one event of a batch with one event per descriptor, or a send in between, the rest of the batch still concerns live clients in the state reported |
| Servers.Loop | include/asock/internal/asock_nix_server.hpp:237-314 | every batch, with any sends in between, leaves the pool in order |
| Servers.PoolInOrder | include/asock/internal/asock_nix_server.hpp:237-314 | from the start of the server, whatever the kernel reports, whatever is sent in between and whatever lost receives do, each context is live or cached and never both, the cache free of duplicates and as good as new, the client count right, every send state sound and every receive state where the bytes received have put it |
| ServerRuns.LoopIsRun | include/asock/internal/asock_nix_server.hpp:237-314 | a whole life of the server: the events of each batch are handled one after the other, all of them unless one stops the loop, each with the outcome that the event alone says, and the loop ends in the state the last one left |
| ServerRuns.EventTouches | include/asock/internal/asock_nix_server.hpp:266-310 | of a client that is live after an event, the receive half changes only by its own input and the send half only by its own output and the sends to it |
| ServerRuns.GotIsHeard | include/asock/internal/asock_nix_server.hpp:237-314 | on every run, what is held for a live client is the concatenation of the bytes that the events brought from it since it was accepted |
| ServerRuns.StreamIsTold | include/asock/internal/asock_nix_base.hpp:65-373 | on every run, the wire and deque of a live client are what the sends to it since it was accepted have added: whole frames for those that returned true; drains add and take nothing |
| ServerRuns.ClientInOrder | include/asock/internal/asock_nix_server.hpp:237-314 | on every run, if the bytes that the events brought from a live client since it was accepted are frames of some messages, as far as they have come, and do not break its buffer, it has been delivered a prefix of their payloads, and all when all has come |
| Servers.Server.PopClientContextFromCache | include/asock/internal/asock_nix_base.hpp:548-569 | takes the front of the cache, or allocates; the context is clean, neither cached nor live, and no client is disturbed |
| Servers.Server.PushClientContextToCache | include/asock/internal/asock_nix_base.hpp:571-588 | the context leaves the socket map and joins the cache at the back, reset but for its buffer; with the count adjusted, the pool is in order exactly if it was live |
| Servers.Server.TerminateClient | include/asock/internal/asock_nix_server.hpp:207-234 | keeps the pool in order exactly if the client was live; the client is then gone, its context last in the cache and as good as new, the count one lower, and no other is disturbed |
| Servers.Server.AddClient | include/asock/internal/asock_nix_server.hpp:170-179 | a round of the accept loop keeps the pool in order and disturbs no client |
| Servers.Server.AcceptRound | include/asock/internal/asock_nix_server.hpp:142-195 | one round of the accept loop: it goes on exactly after a descriptor for which EPOLLIN could be armed, fails exactly on an error of `accept` or `epoll_ctl`, and otherwise ends well; the state is that of the loop on values for the rest of the results |
| Servers.GrownForLater | include/asock/internal/asock_nix_base.hpp:219-226 | a receive that grows a client's buffer gives the next context allocated the grown capacity |
| Servers.Server.AcceptNewClient | include/asock/internal/asock_nix_server.hpp:141-198 | ends in the state and result that the results of `accept` and `epoll_ctl` alone say, with the pool in order and no client disturbed; exactly a failure stops the server |
| Servers.Server.ReceiveFrom | include/asock/internal/asock_nix_server.hpp:294-297 | a receive on the client's memory, and the termination of the client where it returns false: the state is that of `Handled`, whose outcome is `HandledOutcome`; keeps the pool in order and touches no other client |
| Servers.Server.DrainTo | include/asock/internal/asock_nix_server.hpp:304-307 | a drain, which on failure terminates the client and stops the server: state and result of `Handled`; keeps the pool in order and touches no other client |
| Servers.Server.HandleClient | include/asock/internal/asock_nix_server.hpp:281-308 | the three branches of a client's event: state and result of `Handled`; keeps the pool in order and touches no other client |
| Servers.Server.HandleEvent | include/asock/internal/asock_nix_server.hpp:266-310 | has the outcome that the event alone says, keeps the pool in order and touches no client but its own; the server is stopped exactly by a failed drain or accept |
| Servers.Server.SendData | include/asock/internal/asock_nix_base.hpp:65-164 | a send on a live client returns true exactly when the results say so and then appends its frame to that client's stream; it keeps the pool in order and changes nothing but that client's send half; on a context in the cache it fails and changes nothing |
| Servers.Server.ServerThreadRoutine | include/asock/internal/asock_nix_server.hpp:237-314 | the nested loops end in the state and outcome of `Loop`, with the pool in order |
| Servers.Server.ClearClientCache | include/asock/internal/asock_nix_base.hpp:591-613 | one call frees every allocated context exactly once |
| WinSends.IoCache.BuildPerIoDataCache | include/asock/internal/asock_win_server.hpp:599-622 | the loop adds twice the event count of clean records at the back of the cache, each once |
| WinSends.IoCache.PopPerIoDataFromCache | include/asock/internal/asock_win_server.hpp:625-641 | takes the front of the cache, refilled first if it was empty; the record is idle and no longer queued |
| WinSends.IoCache.PushPerIoDataToCache | include/asock/internal/asock_win_server.hpp:645-658 | the record is reset and queued at the back, nothing else changes; one that was not queued is then queued once |
| WinSends.StepOutcome | include/asock/internal/asock_win_server.hpp:54-134 | what each action does, said from the record and the results alone: a failed `WSASend` closes the socket and returns the record; a completion closes it exactly if the rest cannot be issued again, or the record of a failed one has been refilled; the record is in flight again exactly if a good completion on an open socket left bytes and they are issued again; otherwise it comes back, finished exactly if such a completion left none |
| WinSends.HandlesWell | include/asock/internal/asock_win_server.hpp:759-924 | the same for the handling of one completion |
| WinSends.NothingFails | include/asock/internal/asock_win_server.hpp:856-924 | over every interleaving in which no call and no completion fails, however partial the completions: the open sockets are exactly those connected, and every send that comes back has had its whole frame transferred |
| WinSends.EachRecordOnce | include/asock/internal/asock_win_server.hpp:54-134 | over every interleaving, a record is in the cache exactly once, or has exactly one completion outstanding, or is in one thread's hands |
| WinSends.InFlightCoversRest | include/asock/internal/asock_win_server.hpp:856-924 | over every interleaving, `wsabuf` of a record in flight covers exactly the unsent rest of its frame, and all before it has been transferred |
| WinSends.CompletedMeansTransferred | include/asock/internal/asock_win_server.hpp:880-922 | a send reported complete has had each byte of its frame transferred once and in order |
| WinSends.HandledInv | include/asock/internal/asock_win_server.hpp:759-924 | handling any completion, good, partial or failed, keeps records, cache and outstanding completions consistent (its outcome is `HandlesWell`) |
| WinSends.FreedAtStart | include/asock/internal/asock_win_server.hpp:645-658 | over every run, every record that comes back frees the start of its allocation if and only if nothing of its frame had been transferred before its last `WSASend`, which is when `wsabuf.len` is still `total_send_len` |
| WinSends.PartialSendFreesInside | include/asock/internal/asock_win_server.hpp:880-921 | any frame sent in two parts gives a run in which it is not |
| WinWire.FramedExactly | include/asock/internal/asock_win_server.hpp:856-924 | over every interleaving, the frames on a socket's wire stay whole, one after the other, if and only if bytes are only transferred while no other send of that socket is halfway or given up halfway; the wire then holds the frames begun, as far as sent |
| WinWire.TurnExactly | include/asock/internal/asock_win_server.hpp:880-913 | a transfer continues or begins a frame where the wire allows it if and only if no other send of the socket is halfway |
| WinWire.WholeWindowsFramed | include/asock/internal/asock_win_server.hpp:915-922 | sends on one socket may overlap in any way and leave whole frames, as long as every completion that transfers bytes transfers its whole window |
| WinWire.OverlapTears | include/asock/internal/asock_win_server.hpp:880-913 | for any two messages some run puts the first byte of one frame right behind the first byte of the other |

## Left out

- Receive.RunIsSplit: a run on the queue of bytes ends with the call that breaks the buffer; `RawReceive.dfy` goes on from there.
- RawReceive.AstrayCall: says exactly what the first frame after the break becomes. What later frames become is computed by the model but not characterised.
- NixBases.NixBase.RecvData: a header that is negative, or whose digits fill the field, ends the call as undefined; in the source the unsigned sum wraps around, or `atoi` reads past the field.
- NixBases.NixBase.OnCalculateDataLen: returns no length for a negative header, where the source returns a wrapped unsigned sum.
- NixBases.NixBase.DeliverRound: ends at a negative header, where the source goes on with the wrapped length.
- NixBases.NixBase.DeliverAll: ends at a negative header likewise.
- NixBases.NixBase.SendData: the results of `send` are a finite list, after which the socket would block, so an endless series of interrupts is not modelled. Lengths beyond the range of `int` are modelled in the header only.
- Links.NoLostWakeUp: the flag, the deque and the interest mask change in one step, where the source changes them in successive statements under the same lock.
- Links.SendConservation: a link takes no more sends after a call that failed with part of its frame sent. The source goes on, behind a broken frame.
- Servers.Server.ServerThreadRoutine: contexts are values in a table indexed by address; update in place of one context is what class `Context` covers. Sends that callbacks make within an accept or a receive are taken after it. `epoll_wait` errors are not modelled, nor a process that ends at a failed assertion: the context concerned then holds anything.
- ServerRuns.ClientInOrder: the peer's stream is a parameter; that it consists of whole frames is what `EndToEnd` and `Links` prove of a peer built on this library.
- Servers.Server.SendData: a send is one step here; its single rounds are those of `Links`.
- WinSends.EachRecordOnce: takes the event count to be positive, as the source needs, and models `TerminateClient` only as the closing of the socket.
- WinWire.FramedExactly: a socket's wire holds the bytes in the order of the completions that report them, which is that of the `WSASend` calls on the runs whose completions come in that order. A context is taken to serve one connection.
- Allocation failures, overflow of sizes on doubling, logging and error texts.
- Socket setup, listening, connecting, timeouts, socket options and signals.
- UDP, the kqueue branches, the client classes and the Windows receive path, which repeat the algorithms modelled here.
- User callbacks: a delivery appends to a list.
- Windows context recycling and its reference counts.
- Reconnecting a client and shutting a server down: each connection starts from a new or recycled context.
