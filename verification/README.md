# Shine, verified

Shine carries many logical sessions over one TCP connection: RESP2 framing, 14 kinds of Shine frame, credit-controlled
byte streams and datagram sessions, half-close, a password handshake and a heartbeat. In front of it sits a routing
index over domains and CIDR blocks. This project models those three parts in Dafny and proves what they promise.

**Transport.** `SessionModel` and `LinkModel` give one step function per handler of `Session` and `Link`. `World` joins
a client link and a server link by two FIFO pipes. Its step function is total: an act that is not possible changes
nothing, so every list of acts is a run and a statement about `After(cfg, acts)` is about every reachable state. The
acts are user calls on any session, opening sessions, delivering the next frame, heartbeat turns, link failure at any
moment, `closeNow`, and loss of frames under way once a link is down. `Isolation` projects such a run to the machine of
a single session, and `PairBase`, `Credit`, `Delivery`, `Completeness`, `Closing`, `Datagrams` and `Stall` are
invariants of that machine. `Guarantees`, `CallLog`, `Targets`, `DatagramCount`, `EndOfFile`, `Handshake`, `HeartRun`,
`Echo`, `LinkLife`, `WireRun`, `Alone` and `StallRun` state the results for whole runs. `CallLog` ties the history that
the guarantees speak of to the arguments and answers of the users' calls. `CreditWakeup` goes down to single atomic operations for the writer and `onWindow`.
`Transport` holds the classes `Session` and `Link` with the fields and methods of the source, each method proved against
the step functions. `Network` joins two `Link` objects: every act on them is the same act on the model, so the
guarantees of runs hold of the objects.

**Codec.** `ReadBuffer` is the compacting buffer, `Resp2` the incremental parser and the printer, `Address` the binary
address, `ShineFrame` the frames, and `FrameStream` the reader loops over a socket that cuts the stream anywhere.
`Grammar` states the language of the parser without a parser, and `WireForms` the bytes of every frame.

**Routing.** `Cidr` has three readings of a CIDR block (bit by bit, byte and mask, integer interval), `GeoIp` the
sorted and merged index, `GeoSite` the label walk, `Router` rule matching and rewriting, and `RouteLaws` what rules mean
condition by condition. Blocks follow section 3.1
of RFC 4632 and section 2.3 of RFC 4291.

Where the code and its documentation differ, the model follows the code:

- docs/UDP_AND_ROUTING_DESIGN.md:28 speaks of a radix or trie lookup; the code searches sorted intervals.
- The client's send credit is its own window, not the server's, and so is the server's, which comes from NEW. Each
  reader gives credit back at half of its own window. `StallExactly` says for which windows this can stop a writer.
- `read` reports end of file as soon as the peer has closed, whatever its inbox holds (`EndOfFileExactly`), so delivery
  is a prefix and a run can leave bytes unread (`DeliveredButUnread`). A reader at end of file has read everything
  exactly when its inbox was empty as the CLOSE was dispatched (`CloseFindsAll`, `ReadAllExactly`).
- A prefix length is cut to eight bits before its range is checked, and a negative one means a host route
  (`PrefixCheckExactly` has the exact texts that are misread).
- Category codes are lower-cased on load and not on lookup (`IpCaseExactly`, `SiteCaseExactly`).
- `ensure_writable` skips compaction when the head is in the lower half, so it can fall short (`ShortGrowth`); its
  contract has the exact condition, which the reader loops always meet.

## Model

| member | source | states |
|---|---|---|
| CallLog.EndToEnd | src/transport/session.cpp:34-100 | in every run, for every session and direction, the bytes that all `read` calls of one end have returned, put together, are a prefix of the bytes that the `write` calls of the other end have let in |
| CallLog.HistoryIsLog | src/transport/session.cpp:34-163 | in every run the history kept in a session is exactly the arguments let in and the answers given by the calls of that run; frames and other sessions add nothing |
| CallLog.WriteTakesExactly | src/transport/session.cpp:68-77 | a `write` with no other under way takes the data exactly when the link is up and the write side is not done, and then all of it is on the wire or in the call |
| CallLog.DatagramsEndToEnd | src/transport/session.cpp:137-178 | what `receiveFrom` has returned is an order-preserving selection of what `sendTo` has let in, as the wire format carries it |
| CallLog.ShutdownTakesEffect | src/transport/session.cpp:102-117 | on a link that is up `shutdownWrite` ends the write side and no more, and queues a CLOSE exactly when it was not ended before |
| CallLog.CloseTakesEffect | src/transport/session.cpp:119-135 | on a link that is up `close`, once its coroutine has run, leaves the session Closed and unlisted, with a CLOSE queued exactly when one was owed |
| CallLog.BothCalledThenGone | src/transport/session.cpp:102-135 | once both users have called `shutdownWrite` or `close` and no CLOSE is under way on links that are up, both ends are Closed and in neither table |
| SessionModel.ReadReturns | src/transport/session.cpp:34-66 | `read` returns what it records as read: a prefix of the leftover and the queued payloads, as much of the leftover, or else of the next payload, as there is room for |
| Guarantees.PrefixDelivery | src/transport/session.cpp:34-100 | in every run, for every session and direction, the bytes read are a prefix of the bytes put on the wire, and these of the bytes given to `write`; nothing is read that nobody wrote |
| Targets.TargetEndToEnd | src/transport/link.cpp:294-308 | in every run a stream session at the server has the target that the client's `openSession` was given, exactly if it can be carried and with its domain cut otherwise |
| Targets.TargetArrives | src/transport/link.cpp:386-397 | in every run the two ends of a stream session have the same target, as the wire format carries it |
| Targets.AnsweredExactly | src/transport/link.cpp:295-315 | on links that are up, once a NEW is no longer under way, the server has the session exactly when it is a datagram session or its target can be carried; otherwise the client's end is Closed or a RESET is on its way |
| Targets.NewIsAnswered | src/transport/link.cpp:288-315 | in every run a NEW that a server takes is answered at once: by ACK and a session when the target asked for can be carried or it is for datagrams, and by RESET alone otherwise |
| Targets.OpenedAsAsked | src/transport/link.cpp:376-401 | in every run the client has a session exactly when `openSession` was called for it, with that target and of that kind |
| Targets.NextAimed | src/transport/link.cpp:288-315 | every move keeps: NEW carries the client's target, the server's session has it, RESET means it could not be carried, and a NEW that is gone was answered |
| DatagramCount.NoneMissingExactly | src/transport/session.cpp:172-178 | on links that are up, datagrams returned, queued and under way are, in order, all that `sendTo` let in exactly when none met a full queue, a closed or a missing session; and as many are missing as did |
| DatagramCount.CountsAgree | src/transport/link.cpp:278-287 | on links that are up, datagrams sent are as many as those received, queued, under way and turned away |
| DatagramCount.NextCounts | src/transport/session.cpp:172-178 | as long as both links stay up, a move turns away exactly as many datagrams as are missing after it |
| Guarantees.NothingMissing | src/transport/session.cpp:165-170 | on links that are up, the bytes arrived at an end and the DATA on its way there are together exactly the bytes sent, as long as that end has thrown nothing away; an end that still listens never has |
| Guarantees.CaughtUp | src/transport/session.cpp:34-66 | so with none of the session's frames on the way, the bytes read, left over and queued are exactly the bytes sent, whatever the state; all is read exactly when nothing is left over or queued |
| EndOfFile.EndOfFileExactly | src/transport/session.cpp:48-55 | in every run `read` reports end of file exactly when the read side is done and no leftover remains, and then no continuation ever returns another byte or touches the inbox; it waits exactly when the read side is open and nothing is there |
| EndOfFile.CloseFindsAll | src/transport/link.cpp:331-338 | a CLOSE finds everything sent ahead of it; whatever follows, a reader at end of file has read all of that exactly when its inbox was empty as the CLOSE was dispatched |
| EndOfFile.ReadAllExactly | src/transport/session.cpp:185-194 | on links that are up, with nothing thrown away at the reader and nothing on its way, a reader at end of file has read all that was ever sent exactly when its inbox was empty as the CLOSE was dispatched |
| EndOfFile.FrozenRun | src/transport/session.cpp:48-51 | once a read side is done, every continuation leaves the inbox as it is and hands out only the leftover |
| Guarantees.WriterKeepsAll | src/transport/session.cpp:68-100 | while its link is up, the bytes accepted by `write` are those on the wire followed by those of the current call |
| Guarantees.CreditConserved | src/transport/session.cpp:180-215 | in every run credit is not negative, and credit + DATA under way + bytes held + WINDOW under way never exceeds the window in NEW; it equals it until a frame of the session is thrown away, hence while both ends are open and both links up |
| Guarantees.ReceiverBounded | src/transport/session.cpp:43-64 | what a receiver buffers, together with `recv_unacked_`, never exceeds the window, so the 32-bit counter never wraps |
| Guarantees.TableIsLiveSessions | src/transport/link.cpp:467-476 | in every run the session table lists exactly the sessions that are not Closed |
| Guarantees.PhaseNeverGoesBack | src/transport/session.cpp:102-201 | a session object once created stays, and its state only advances |
| Guarantees.BothShutThenGone | src/transport/link.cpp:331-343 | once both ends have run `shutdownWrite` or `close` and no CLOSE is under way, both are Closed and in neither table |
| Guarantees.NewIsFresh | src/transport/link.cpp:306-312 | a NEW or NEW_UDP at the head of the pipe never names a session that the server already has, so `emplace` always inserts |
| Guarantees.DatagramsInOrder | src/transport/session.cpp:137-178 | in every run the datagrams received are an order-preserving selection of those sent, unchanged when every address is one the wire format carries |
| Guarantees.DatagramNeverBlocks | src/transport/session.cpp:172-178 | in every run a datagram at the head of the pipe is taken, however full its queue: the pipe is one frame shorter, the link stays up, and nothing has changed but that session's queue, by that datagram with its parsed address exactly when the session is listed, of its kind, open and below 1024 |
| Guarantees.RunSound | src/transport/link.cpp:268-367 | all the invariants of the single-session machine hold for every session after every run |
| StallRun.StallExactly | src/transport/session.cpp:79-83 | with equal passwords, some run leaves a client's writer waiting with its reader drained and nothing under way exactly when the client's window is below max(1, half the server's); a server's writer exactly when the client's window is 0 |
| StallRun.StallIsForEver | src/transport/session.cpp:79-83 | after a stall no continuation of the run puts another byte of that writer on the wire |
| StallRun.DeliveredButUnread | src/transport/session.cpp:48-55 | with equal passwords and any client window above 0 there is a run in which a byte is delivered and the reader is at end of file without it |
| StallRun.HandshakeExactly | src/transport/link.cpp:59-181 | some run completes the handshake at both ends exactly when the two passwords are equal |
| StallRun.OpenAfterCloseNow | src/transport/link.cpp:447-457 | some run ends with a link closed by `closeNow` and an open session still in its table |
| LinkLife.ClosingEmptiesExactly | src/transport/link.cpp:422-457 | when a link is closed, its table is empty and all its sessions are Closed exactly when it was closed by anything but `closeNow` or had no live session |
| LinkLife.ClosedForEver | src/transport/link.cpp:369-374 | in every continuation a closed link stays closed: its pipe only gets shorter, it takes no frame, sends no ping and gets no session |
| LinkLife.QueuesBounded | src/transport/session.cpp:22-28 | in every run no inbox and no datagram queue holds more than 1024 entries |
| LinkLife.ReaderWaitsExactly | src/transport/session.cpp:165-170 | a reader with frames to take waits exactly when the next is DATA for a listening stream session with exactly 1024 payloads unread |
| Handshake.SessionNeedsAuth | src/transport/link.cpp:95-121 | against any peer, a server has a session only if its first frame was HELLO and, with a password set, its second was AUTH with that password |
| Handshake.FinishedHandshakeAgrees | src/transport/link.cpp:162-180 | in every run, two finished handshakes mean equal passwords; an end with a password finishes only against the same password |
| Handshake.PeerOpensNothing | src/transport/link.cpp:288-289 | a client link gets no session from its peer, whatever the peer sends |
| Handshake.AuthAnswered | src/transport/link.cpp:105-120 | in every run AUTH at a server that waits for it ends the handshake with OK queued for the right password, and closes the link with ERR queued for any other |
| CreditWakeup.EveryInterleaving | src/transport/session.cpp:78-98 | under every interleaving of single atomic operations, credit is neither negative nor created, everything queued was paid for, and a writer waiting with credit has a token or a post about to come |
| CreditWakeup.WaiterGoesOn | src/transport/session.cpp:180-183 | from any such state with credit and a waiting writer, the pending post and six writer operations queue at least one more byte |
| Isolation.StepSeen | src/transport/link.cpp:268-367 | one step of two links with any number of sessions is, seen through one id, one move of the machine that carries this session alone |
| Isolation.SessionsAreIsolated | src/transport/link.cpp:467-476 | in every run what one session sees is a play of its own machine |
| Alone.AloneInSomeRun | src/transport/link.cpp:268-367 | every run has a run that opens and uses no other session and ends with the same two links less the other sessions: this session, its frames under way, the handshake and the heartbeat are the same |
| Alone.StepAlone | src/transport/link.cpp:268-367 | one step of the crowded links is at most one step of the links that carry the session alone |
| Isolation.RunRoles | src/transport/link.cpp:21-57 | in every run the options of both links stay as configured, every session object carries the id it is filed under, and the table lists only existing objects |
| PairBase.NextBase | src/transport/link.cpp:288-343 | every move keeps: nothing before NEW, the server's end only after it, RESET only instead of it, listed exactly while not Closed, inbox open exactly while the read side is |
| Credit.NextLedger | src/transport/session.cpp:84-97 | every move keeps the books of both directions balanced |
| Delivery.NextOrdered | src/transport/session.cpp:165-170 | every move keeps: arrived bytes are a prefix of sent bytes, also after everything under way has been taken, and a receiver that would still listen then would have them all |
| Completeness.NextWhole | src/transport/session.cpp:165-170 | every move keeps: with both links up and nothing thrown away at the reader, arrived bytes and DATA under way are exactly the bytes sent |
| Completeness.NextUnlost | src/transport/link.cpp:269-276 | every move keeps: on links that are up, an end that listens, or is about to be created, has thrown nothing away |
| Completeness.NextFilled | src/transport/session.cpp:165-170 | every move keeps: no payload in an inbox is empty |
| Completeness.NextFrozen | src/transport/session.cpp:48-51 | no move touches the inbox of an end whose read side is done |
| Closing.NextShutting | src/transport/session.cpp:102-135 | every move keeps: an end whose write side is done was shut by its user or refused by the server, and the CLOSE it owes is spawned, under way or known to the peer |
| Closing.BothShutBothClosed | src/transport/session.cpp:185-194 | in such a state, both ends shut and no CLOSE under way mean both Closed and unlisted |
| Closing.NextAdvances | src/transport/session.cpp:185-201 | every move leaves each end's state where it is or moves it forward |
| Datagrams.NextRelayed | src/transport/link.cpp:278-287 | every move keeps: datagrams received, queued and under way are together an order-preserving selection of those sent |
| Datagrams.CarryAllIntact | src/transport/address.cpp:90-138 | datagrams whose addresses can be carried cross the wire format unchanged |
| Stall.NextLoss | src/transport/link.cpp:269-276 | every move keeps: on links that are up, nothing of a stream session has been thrown away while both its ends are open |
| Stall.ExactWhileOpen | src/transport/session.cpp:203-215 | conservation is exact in both directions while both links are up and both ends open |
| Stall.NextGivesBack | src/transport/session.cpp:203-215 | every move keeps: a reader on an open link withholds nothing, or less than half of its own window |
| Stall.StallNeedsSmallWindow | src/transport/link.cpp:386-397 | a stalled writer implies a client window of 0 or below half of the reader's window |
| Stall.NextStarved | src/transport/session.cpp:79-83 | every move keeps a starved writer starved and its sent bytes as they are |
| Transport.Session.constructor | src/transport/session.cpp:15-30 | a fresh session with the peer's window as credit |
| Transport.Session.Read | src/transport/session.cpp:34-66 | returns the bytes, the end of file or the wait of the model's `read`; the bytes returned are the next ones in order, no more than fit, and exactly what the history of read bytes grows by; session and write queue change as the model says |
| Transport.Session.ReadLeftover | src/transport/session.cpp:35-47 | hands out the front of the leftover, keeps its rest, and does the credit accounting |
| Transport.Session.ReadInbox | src/transport/session.cpp:53-65 | hands out the front of the next payload, keeps its rest as leftover, and does the credit accounting |
| Transport.Session.SendWindowIfDue | src/transport/session.cpp:203-215 | queues WINDOW with all unacknowledged bytes at half of the own window, on an open link only |
| Transport.Session.Write | src/transport/session.cpp:68-100 | succeeds exactly on an open link and write side, and has then taken all the data, each byte on the wire or left in the call; the entry checks and the write loop up to its end or its wait for credit |
| Transport.Session.BeginWrite | src/transport/session.cpp:68-77 | lets the data in exactly on an open link and write side, whole |
| Transport.Session.WriteTurn | src/transport/session.cpp:78-98 | one turn of the write loop, with its wait for credit and its test for a closed link |
| Transport.Session.SendOne | src/transport/session.cpp:84-97 | a turn that finds credit sends at least a byte and leaves the rest of the loop to do |
| Transport.Session.ShutdownWrite | src/transport/session.cpp:102-117 | the four states, the CLOSE it queues and the table entry it removes |
| Transport.Session.Close | src/transport/session.cpp:119-135 | closes both directions, spawns at most one CLOSE, leaves the table |
| Transport.Session.RunSpawnedClose | src/transport/session.cpp:124-128 | the spawned CLOSE reaches the queue if the link is still open |
| Transport.Session.SendTo | src/transport/session.cpp:137-151 | succeeds exactly on an open link and write side, and has then queued one frame with that payload and an address blob that parses to what the far end receives |
| Transport.Session.ReceiveFrom | src/transport/session.cpp:153-163 | returns the oldest datagram and records it, fails on a closed read side, or waits, and which of the three |
| Transport.Session.Perform | src/transport/session.cpp:34-163 | any one call does to the session, the write queue and the table what the model's call does |
| Transport.Session.Handle | src/transport/link.cpp:268-287 | a frame for a listed session does to it what the model does |
| Transport.Session.OnDataFrame | src/transport/session.cpp:165-170 | a payload joins the inbox exactly when it is not empty and the stream's inbox is open |
| Transport.Session.OnUdpDataFrame | src/transport/session.cpp:172-178 | a datagram joins the queue exactly when the session is of its kind, open, and has fewer than 1024 queued |
| Transport.Session.OnWindowFrame | src/transport/session.cpp:180-183 | adds the delta to the credit and leaves a token for the writer |
| Transport.Session.OnCloseFrame | src/transport/session.cpp:185-194 | advances the state and closes the inbox |
| Transport.Session.OnResetFrame | src/transport/session.cpp:196-201 | closes the session |
| Transport.LoopIsTurns | src/transport/session.cpp:78-98 | the write loop is so many single turns on the link, one after the other |
| Transport.SendAllSpends | src/transport/session.cpp:78-98 | the write loop spends all the credit or sends all the data: exactly that many bytes leave the front of the data and are charged |
| Transport.SendAllFrames | src/transport/session.cpp:84-94 | its frames carry exactly those bytes in order, in non-empty pieces, all but the last as large as the frame limit |
| Transport.Link.constructor | src/transport/link.cpp:21-57 | an open link before its handshake, a client with HELLO queued |
| Transport.Link.EnqueueFrame | src/transport/link.cpp:369-374 | appends to the write queue unless the link is closed |
| Transport.Link.EraseSession | src/transport/link.cpp:473-476 | removes one entry of the table |
| Transport.Link.OpenSession | src/transport/link.cpp:376-401 | a listed session with that target and the link's own window, and one frame queued: NEW_UDP, or a NEW whose address blob parses to what the far end receives; refused on a closed link |
| Transport.Link.UseSession | src/transport/session.cpp:34-163 | every call on a session object is the model's step of its link: that session, the table, the queue, and nothing else |
| Transport.Link.WriteSession | src/transport/session.cpp:68-100 | a whole `write` is the model's steps for its entry and its turns |
| Transport.Link.ReadSession | src/transport/session.cpp:34-66 | `read` on a session object is the model's step of its link, with the model's answer |
| Transport.Link.ReceiveSession | src/transport/session.cpp:153-163 | the same for `receiveFrom` |
| Transport.Link.Waits | src/transport/session.cpp:165-170 | whether the inbox of a frame's session is full |
| Transport.Link.ReceiveFrame | src/transport/link.cpp:40-51 | the next frame goes to the handshake while it lasts and to the dispatcher afterwards |
| Transport.Link.HeartFrame | src/transport/link.cpp:349-366 | PING is answered, a matching PONG clears the ping, the rest is ignored |
| Transport.Link.FailLink | src/transport/link.cpp:422-438 | closes the link, empties the table and resets exactly the sessions that were listed; nothing on a closed link |
| Transport.Link.ResetAll | src/transport/link.cpp:436-437 | resets every session of the list and no other |
| Transport.Link.CloseNow | src/transport/link.cpp:447-457 | closes the link and leaves sessions and table alone |
| Transport.Link.Beat | src/transport/link.cpp:228-266 | one heartbeat turn: failure, a ping, or nothing |
| Transport.Link.HandshakeFrame | src/transport/link.cpp:95-121 | one frame of either handshake, server or client |
| Transport.Link.DispatchFrame | src/transport/link.cpp:268-367 | every kind of frame after the handshake does to the link and its sessions what the model does; handshake frames, ACK, and NEW at a client do nothing |
| Transport.Link.AcceptSession | src/transport/link.cpp:288-326 | a NEW creates a listed session with the peer's window and queues ACK, keeps a session that is listed already, or queues RESET for a bad address |
| Transport.Link.SessionFrame | src/transport/link.cpp:331-348 | a frame for a listed session changes that session alone; any other is dropped |
| Network.Network.constructor | src/transport/link.cpp:21-57 | two fresh links, before any act |
| Network.Network.Perform | src/transport/link.cpp:268-367 | every act on two joined `Link` objects is the same act on the model, from any state that acts lead to |
| Network.Network.PerformAll | src/transport/link.cpp:183-226 | any list of acts leaves the objects where the model's run of that list ends |
| Network.Network.Write | src/transport/session.cpp:68-100 | a whole `write` on a session object is a run of its entry and its turns |
| Network.Network.Read | src/transport/session.cpp:34-66 | `read` on a session object is an act of the run and returns that act's answer |
| Network.Network.ReceiveFrom | src/transport/session.cpp:153-163 | the same for `receiveFrom` |
| Network.Network.ObjectsKeepWord | src/transport/session.cpp:34-100 | of any two joined `Link` objects, after any acts: the bytes returned by all `read` calls are a prefix of those let in by all `write` calls, credit and buffers are within the window, and the table lists exactly the sessions not Closed |
| Network.Network.TargetsKeepWord | src/transport/link.cpp:294-308 | a server's stream session object has the target that the client's `openSession` was given, as the wire format carries it |
| Heartbeat.ClockSafe | src/transport/link.cpp:237-252 | with clock readings that never go back, the unsigned subtractions never wrap |
| Heartbeat.OnePingAtATime | src/transport/link.cpp:252-263 | between two pings of a run the first one's own PONG has been handled |
| Heartbeat.PunctualNeverFailed | src/transport/link.cpp:245-250 | a peer whose PONGs are handled within the timeout is never failed |
| Heartbeat.SilentPeerFails | src/transport/link.cpp:228-266 | a peer that answers nothing is failed by max(last pong + interval, start) + timeout + 2 tick gaps |
| HeartRun.HeartFollows | src/transport/link.cpp:228-266 | after every run from a finished handshake, the heart of an end that is up is the heartbeat's own after just its ticks and PONGs, and a heartbeat that has failed has closed the link |
| HeartRun.OnePingInRun | src/transport/link.cpp:252-263 | between any two pings that an end sends in a run, it is handed the PONG of the first |
| HeartRun.PunctualInRun | src/transport/link.cpp:245-250 | in a run whose PONGs come within the timeout, no heartbeat turn closes the link |
| HeartRun.SilentInRun | src/transport/link.cpp:228-266 | a run without a matching PONG whose heartbeat turns come at most a gap apart until the deadline ends with the link closed |
| HeartRun.HeartWaitsForHandshake | src/transport/link.cpp:34-37 | in every run an end before the end of its handshake has no ping pending and takes the time of `start` for its last PONG |
| HeartRun.HeartAtHandshake | src/transport/link.cpp:235-239 | the act that finishes the handshake leaves it so, and the heartbeat bounds count from there |
| Echo.PingUnderWay | src/transport/link.cpp:349-363 | in every run, on links that are up, while an end waits for a PONG its PING or the PONG that clears it is under way |
| Echo.PingIsQueued | src/transport/link.cpp:252-263 | the heartbeat turn that starts a wait queues the PING with the nonce that is then waited for |
| Echo.PongEndsWait | src/transport/link.cpp:356-364 | in every run a PONG with the nonce waited for ends the wait at once |
| FrameStream.ChunkIndependence | src/transport/link.cpp:183-211 | however a stream is cut into reads, the decoded frames, the point of failure and the rest are those of the whole stream |
| FrameStream.FeedIsAppend | src/transport/link.cpp:183-211 | decoding more bytes after some is decoding all of them |
| FrameStream.StreamRoundTrip | src/proto/shine_frame.cpp:68-245 | the encodings of any frames that fit, followed by part of one more, decode to those frames and keep the part, never an error |
| FrameStream.WholeStreamRoundTrip | src/proto/shine_frame.cpp:68-245 | on a frame boundary nothing is left over |
| FrameStream.WireAllInjective | src/proto/shine_frame.cpp:160-245 | two lists of frames that fit and have the same bytes are equal |
| FrameStream.Socket.ReadSome | src/transport/link.cpp:194-196 | any non-empty piece of the stream that fits the buffer; empty only at its end or for an empty buffer |
| FrameStream.FrameReader.constructor | src/transport/link.cpp:21-28 | nothing decoded yet, all bytes still in the socket |
| FrameStream.FrameReader.Receive | src/transport/link.cpp:191-201 | the pending bytes stay the same, progress is made, and an empty read is the real end of the stream |
| FrameStream.FrameReader.Attempt | src/transport/link.cpp:75-83 | decides the first frame of everything still to come from the buffered bytes alone |
| FrameStream.FrameReader.One | src/transport/link.cpp:73-93 | the first frame of the stream, its error, or end of file only when no frame is complete |
| FrameStream.FrameReader.ReaderLoop | src/transport/link.cpp:183-211 | dispatches exactly the frames of the whole stream and ends for the reason the whole stream has; found closed on some turn, it has dispatched a prefix of them |
| FrameStream.FrameReader.HandshakeThenRead | src/transport/link.cpp:40-51 | handshake and reader loop on one buffer see exactly the frames of the stream, none lost or repeated in between |
| FrameStream.WriterLoop | src/transport/link.cpp:213-226 | the queued frames go out as the concatenation of their encodings |
| FrameStream.Carry | src/transport/link.cpp:183-226 | a queue of frames that fit, written by one end and cut anywhere by the network, is dispatched whole by the other, which then sees the end of the stream |
| WireRun.PipesDecode | src/proto/resp2_parser.cpp:68-111 | in every run of links whose limits leave room for their own chunks and passwords, with datagrams within the limit, the bytes of each pipe, cut anywhere, decode to exactly its frames |
| WireRun.RunFits | src/transport/session.cpp:84-94 | in every such run every frame in either pipe is one the parser at the other end accepts |
| ShineFrames.DecodeAfterEncode | src/proto/shine_frame.cpp:68-245 | decoding an encoded frame gives it back, for all 14 kinds |
| ShineFrames.EncodeAfterDecode | src/proto/shine_frame.cpp:68-156 | a value that decodes is the encoding of its frame, but for surplus array elements and a CLOSE without a reason |
| WireForms.DecodeExactly | src/proto/shine_frame.cpp:68-156 | the values that decode to a frame are exactly its encoding, that with surplus arguments, and the CLOSE that leaves out an empty reason |
| WireForms.FormOnWire | src/proto/shine_frame.cpp:160-245 | the bytes of each of the 14 kinds: count, command word, arguments, ids big-endian, and the DATA magic |
| WireForms.AddressForm | src/transport/address.cpp:120-138 | the bytes of an address: tag, length, bytes cut to 255, port big-endian |
| WireForms.Greetings | src/transport/link.cpp:102-113 | the text of the HELLO and ERR messages of the handshake |
| WireForms.Numerals | src/proto/resp2_writer.cpp:7-9 | lengths are printed in decimal |
| ShineFrames.Encode | src/proto/shine_frame.cpp:160-245 | appends the wire form of the frame and nothing else |
| ShineFrames.EncodeData | src/proto/shine_frame.cpp:236-245 | the hand-made DATA framing is the bulk string of magic, id and payload |
| ShineFrames.DecodeFrame | src/proto/shine_frame.cpp:68-156 | agrees with the decoder that the round trips are about |
| ShineFrames.DecodeDataFrame | src/proto/shine_frame.cpp:68-80 | the DATA branch, its id folded byte by byte, agrees with that decoder |
| BigEndian.DecodeU64 | src/proto/shine_frame.cpp:54-58 | succeeds exactly on 8 bytes and is then the number they spell |
| BigEndian.DecodeU32 | src/proto/shine_frame.cpp:60-64 | succeeds exactly on 4 bytes and is then the number they spell |
| BigEndian.PutU32BE | src/proto/shine_frame.cpp:19-26 | the shift-and-mask bytes are the big-endian digits |
| BigEndian.PutU64BE | src/proto/shine_frame.cpp:28-32 | the loop's bytes are the big-endian digits |
| BigEndian.ReadU32BE | src/proto/shine_frame.cpp:34-41 | the four shifted bytes are the number that `DecodeU32` reads |
| BigEndian.ReadU64BE | src/proto/shine_frame.cpp:43-48 | the fold over eight bytes is the number that `DecodeU64` reads |
| BigEndian.FromToBE | src/proto/shine_frame.cpp:19-48 | reading a printed number that fits gives it back |
| BigEndian.ToFromBE | src/proto/shine_frame.cpp:19-48 | printing a read number gives the bytes back |
| Addresses.ParseAfterPrint | src/transport/address.cpp:90-138 | parsing a printed address, whatever follows, gives the address, with long domains cut to 255 bytes and empty ones refused |
| Addresses.RoundTripExactly | src/transport/address.cpp:90-138 | the round trip holds exactly for IP addresses and domains of 1 to 255 bytes |
| Addresses.PrintAfterParse | src/transport/address.cpp:90-118 | an accepted blob starts with the printed form of what was read |
| Resp2.ParseExtend | src/proto/resp2_parser.cpp:29-111 | a complete parse or an error is unchanged by bytes that arrive later |
| Resp2.ParseAfterPrint | src/proto/resp2_parser.cpp:68-111 | a printed value that fits parses back and consumes exactly its own bytes |
| Resp2.PrefixIsIncomplete | src/proto/resp2_parser.cpp:68-111 | every proper prefix of a printed value is incomplete, never an error |
| Resp2.OversizedBulkRejected | src/proto/resp2_parser.cpp:48-51 | a bulk string above the limit is an error |
| Grammar.ParseExactly | src/proto/resp2_parser.cpp:29-111 | the parser finds a value exactly when its input starts with bytes that spell it: marker, a header text that reads as the length, CRLF, body, CRLF, and for arrays a count of at most 1024 |
| Resp2.FindCrlf | src/proto/resp2_parser.cpp:13-19 | the first CRLF at or after a position, or none |
| Resp2.ParseBulkString | src/proto/resp2_parser.cpp:29-62 | the loop-free parse agrees with its specification in every branch |
| Resp2.ParseElements | src/proto/resp2_parser.cpp:96-104 | the element loop agrees with the recursive specification |
| Resp2.TryParse | src/proto/resp2_parser.cpp:68-111 | agrees with the specification that the lemmas above are about |
| Resp2.WriteBulk | src/proto/resp2_writer.cpp:7-21 | appends the bulk string |
| Resp2.WriteArray | src/proto/resp2_writer.cpp:23-31 | appends header and elements in order |
| Decimal.ReadBack | src/proto/resp2_parser.cpp:21-24 | a printed length within 64 bits reads back |
| Decimal.SpelledLoosely | src/proto/resp2_parser.cpp:21-24 | blanks around a number, a sign and leading zeros do not change it |
| ReadBuffers.ReadBuffer.constructor | src/core/buffer.hpp:42-42 | an empty queue of the given capacity |
| ReadBuffers.ReadBuffer.Committed | src/core/buffer.hpp:48-48 | the bytes left in the writable area join the queue |
| ReadBuffers.ReadBuffer.Consume | src/core/buffer.hpp:54-64 | drops that many bytes from the front, loses no room, and compacts exactly when the head passes the middle |
| ReadBuffers.ReadBuffer.Compact | src/core/buffer.hpp:60-62 | moves the readable bytes to the front unchanged |
| ReadBuffers.ReadBuffer.EnsureWritable | src/core/buffer.hpp:66-73 | keeps the queue; the room asked for is there exactly when the head is not in the lower half with a request that doubling cannot cover, hence whenever it is within the capacity |
| ReadBuffers.ReadBuffer.Resize | src/core/buffer.hpp:72-72 | grows the vector and keeps the queue |
| ReadBuffers.ReadBuffer.Fill | src/transport/link.cpp:193-200 | a socket read appends its bytes to the queue |
| ReadBuffers.ShortGrowth | src/core/buffer.hpp:66-73 | a buffer and a request that are not satisfied |
| Cidrs.ThreeFormsAgree | src/route/router.cpp:48-74 | for every legal block and address, the byte-and-mask compare, the interval test and the bit-by-bit reading agree, over 32 and 128 bits |
| Cidrs.RangeIsPrefix | src/route/geo_matcher.cpp:103-115 | the interval from mask, and, or-not holds exactly the numbers with the same high bits, and does not wrap |
| Cidrs.BitsEqualIsPrefix | src/route/router.cpp:48-55 | the byte-and-mask compare is equality of the numbers' high bits |
| Cidrs.ContainsIsPrefix | src/route/router.cpp:71-74 | bit-by-bit containment is equality of the numbers' high bits |
| Cidrs.PrefixCheckExactly | src/route/router.cpp:20-43 | the text after the slash is read as the length it spells, or refused, exactly when it spells no negative `int` and none above the limit whose low byte is within it; `/264` is read as `/8` and `/4294967304` refused |
| GeoIp.Canonicalize | src/route/geo_matcher.cpp:121-150 | sorted, disjoint, never adjacent, and the same addresses |
| GeoIp.CanonicalUnique | src/route/geo_matcher.cpp:121-150 | two canonical lists that cover the same addresses are identical |
| GeoIp.SameAddressesSameVector | src/route/geo_matcher.cpp:100-150 | block lists that denote the same addresses, in any order and with any tie order of the sort, give the identical vector |
| GeoIp.SortRanges | src/route/geo_matcher.cpp:123-123 | sorted by start and a permutation |
| GeoIp.MergeRanges | src/route/geo_matcher.cpp:124-134 | the merge loop gives a canonical list with the same addresses, also at the all-ones end |
| GeoIp.UpperBound | src/route/geo_matcher.cpp:164-164 | the first interval that starts above the value |
| GeoIp.Lookup | src/route/geo_matcher.cpp:164-168 | testing the predecessor alone decides membership |
| GeoIp.RangesCover | src/route/geo_matcher.cpp:100-117 | the intervals of a block list cover exactly the addresses that some block contains |
| GeoIp.GeoIpMatcher.AddEntry | src/route/geo_matcher.cpp:95-118 | one entry's intervals join its lower-cased category |
| GeoIp.GeoIpMatcher.Gather | src/route/geo_matcher.cpp:95-118 | after all entries every category holds the intervals of its entries in order |
| GeoIp.GeoIpMatcher.CanonicalizeAll | src/route/geo_matcher.cpp:121-150 | every category becomes canonical and answers as before |
| GeoIp.GeoIpMatcher.Load | src/route/geo_matcher.cpp:95-150 | afterwards a category holds an address exactly when it did before or some loaded block of that category contains it |
| GeoIp.GeoIpMatcher.Match | src/route/geo_matcher.cpp:156-181 | true exactly when the category holds the address; an unknown category holds none |
| GeoSite.FindSuffix | src/route/geo_matcher.cpp:55-61 | the label walk ends and succeeds exactly when a stored suffix is the domain or follows a dot at its end |
| GeoSite.SuffixFormsAgree | src/route/router.cpp:57-67 | the plain rules' suffix test agrees with the label walk on all domains exactly for non-empty suffixes without a leading dot |
| GeoSite.FindDot | src/route/geo_matcher.cpp:58-58 | the first dot, or none |
| GeoSite.AddDomainHits | src/route/geo_matcher.cpp:25-42 | one more entry adds exactly the domains that it matches |
| GeoSite.PatternEntries | src/route/geo_matcher.cpp:30-41 | Regex and Plain entries are treated alike, as a pattern if they compile and as nothing otherwise |
| GeoSite.GeoSiteMatcher.AddSite | src/route/geo_matcher.cpp:20-43 | one site adds exactly its domains to its lower-cased category |
| GeoSite.GeoSiteMatcher.Load | src/route/geo_matcher.cpp:20-43 | afterwards a category matches exactly what it did before or what some loaded entry matches |
| GeoSite.GeoSiteMatcher.Match | src/route/geo_matcher.cpp:48-67 | true exactly when the category matches the domain |
| Router.Router.RuleMatches | src/route/router.cpp:76-117 | the two flags compute the rule's meaning; never for another inbound tag, and for a rule without conditions exactly for its tag |
| Router.Router.MatchDomain | src/route/router.cpp:83-94 | exact names, suffixes and categories, in that order, as one disjunction |
| Router.Router.MatchIp | src/route/router.cpp:100-109 | blocks and categories as one disjunction, on top of an earlier match |
| Router.Router.PickOutbound | src/route/router.cpp:153-158 | the outbound of the first matching rule, or the default when none matches |
| Router.PickUnchanged | src/route/router.cpp:153-158 | replacing a rule by one that matches alike with the same outbound changes no choice |
| RouteLaws.RuleMeaning | src/route/router.cpp:76-117 | a rule matches exactly when its tag agrees and some condition it lists holds: a name, a suffix with its dot, a block bit by bit, a code; one that lists none matches exactly the inbound it names |
| RouteLaws.OtherInboundsIgnored | src/route/router.cpp:77-77 | deleting every rule for another inbound changes no choice |
| RouteLaws.TagsOnlySelect | src/route/router.cpp:77-77 | of the rest, every rule with a condition may lose its tag and no choice changes |
| RouteLaws.SplitKeepsPick | src/route/router.cpp:76-117 | replacing a rule, anywhere in a list, by one rule for each of its conditions in any order changes no choice |
| RouteLaws.LowerExactly | src/route/geo_matcher.cpp:22-22 | lower-casing identifies exactly the codes that differ in the case of letters and leaves no capital |
| Router.BlocksHit | src/route/geo_matcher.cpp:100-117 | the blocks spelled out for a code hold exactly the addresses listed under it |
| Router.SpellIpExactly | src/route/router.cpp:97-116 | replacing a loaded `geoip` code by its blocks keeps a rule's meaning for every request exactly when the rule still has a condition or has no inbound tag |
| Router.SpellIpKeepsPick | src/route/router.cpp:153-158 | with a non-empty block list no request is routed elsewhere |
| Router.ValuesHit | src/route/geo_matcher.cpp:25-30 | the names and suffixes spelled out for a code match exactly what is listed under it |
| Router.SpellSiteExactly | src/route/router.cpp:80-96 | the same for a `geosite` code made of Full and RootDomain entries |
| Router.SpellSiteKeepsPick | src/route/router.cpp:153-158 | with at least one entry no request is routed elsewhere |
| Router.CapitalCodeNeverMatches | src/route/geo_matcher.cpp:96-98 | a code with a capital letter matches no address |
| Router.IpCaseExactly | src/route/geo_matcher.cpp:156-159 | lookup of a code agrees with a case-blind lookup on every address exactly when it has no capital letters or nothing is listed under it in any case |
| Router.SiteCaseExactly | src/route/geo_matcher.cpp:48-51 | the same for `geosite` codes and domains |
| Router.Compile | src/route/router.cpp:119-151 | a router built from parsed rules and data files holds the loaded indexes that the rewritings are about |

## Left out

- Sockets, timers, strands, signals, scheduling, logging and metrics: channels are FIFOs, the clock and random numbers are parameters, the handshake timeout and every other failure is an act that may happen at any moment.
- Interleavings finer than one handler: `onPeerClose` reads and then writes the state while `shutdownWrite` compares and swaps it, so finer steps can overwrite a state. Only the credit and wake-up argument goes down to single atomic operations.
- The bounded write queue of 1024 frames and senders waiting for it: the queue and the socket are one unbounded FIFO.
- "A closed link has only closed sessions" is false after `closeNow` (`OpenAfterCloseNow`); `ClosingEmptiesExactly` has the condition. The destructor, which closes in the same way, is not an act of its own.
- Isolation of one slow stream session from the others: a full inbox makes the link's reader wait, and the model has that wait (`SessionModel.MustWait`).
- Transport.Link.OpenSession: requires an id that the link has not used; the source draws 64 random bits and relies on it.
- Transport.Link.DispatchFrame: requires that a NEW does not name a session that has been closed, which `Guarantees.NewIsFresh` proves of every run. For a listed id the second object that the source creates is outside the model.
- Transport.Link.AcceptSession: has the same requirement.
- Transport.Link.ReceiveFrame: has the same requirement.
- Transport.Session.Write: stops where the coroutine waits for credit; that it goes on once credit arrives is `CreditWakeup.WaiterGoesOn`. It asks for one writer at a time (src/transport/session_stream.hpp:14) and a frame limit above 0 (256 KiB in the source), without which the loop spins.
- Transport.Session.Read: a stream session only; the source has no stream inbox for a datagram session.
- Transport.Session.SendTo: a datagram session only. The source's `write` and `sendTo` do not look at the protocol: a `write` on a datagram session, or a `sendTo` on a stream session, would queue a frame that the peer's session drops. Users get each session through the interface of its own kind, and the model's steps refuse the other one.
- Transport.Session.ReceiveFrom: a datagram session only.
- Transport.Session.BeginWrite: like `write`, one writer at a time and a stream session.
- Network.Network.Write: has the requirements of `write`.
- Network.Network.Read: a stream session only.
- Network.Network.ReceiveFrom: a datagram session only.
- Transport.Link.ReadSession: a stream session only.
- Transport.Link.ReceiveSession: a datagram session only.
- GeoIp.SortRanges: an insertion sort stands for `std::sort`; only sortedness and permutation are used.
- Cidrs.ThreeFormsAgree: prefixes of at most 32 or 128; the shift in the loader is undefined in C++ beyond that.
- Cidrs.PrefixCheckExactly: the text after the slash; parsing the address text is library code.
- GeoSite.GeoSiteMatcher.Load: regular expressions are arbitrary predicates and their compiler is a parameter; the protobuf file is a list that has been parsed.
- Decimal.ReadBack: `SimpleAtoi` is modelled from Abseil's documented behaviour (surrounding spaces, a sign, 64-bit range).
- WireRun.PipesDecode: asks for a parser limit of at least 259 bytes, the longest binary address; the source's is 512 MiB.
- Router.Compile: the rule texts and the data files have been parsed.
- Resp2.TryParse: views into the buffer are copies, so their lifetime is not modelled.
- Configuration, YAML, host-and-port text, DNS and its cache, the link pool and factories: easy members or foreign libraries.
- SOCKS5 and HTTP CONNECT, and `gracefulShutdown`, which nothing calls.
