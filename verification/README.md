# cpp_proxy: a verified model of the retain / acknowledge / flush protocol

cpp_proxy relays a client's bytes to a server. While a separate handler process is connected, every
run of bytes read from the client is also retained in a deque and framed to that process, and goes
on to the server only when the process acknowledges it with a cumulative count. If the process is
lost, the proxy switches to bypass, flushes what it retained, relays directly, and reconnects with
its counters reset. The project models that protocol and proves what it is for: the server sees
exactly the client's bytes, through every mix of acknowledgements, failures, flushes, relays and
reconnects, and where the code does not guarantee this, exactly when it does not.

Two further parts are modelled: the vendored `basic_streambuf`, as a refinement of a bounded queue,
and the reload of the listener configuration.

## How it is built

| file | what it models |
|---|---|
| `Basics.dfy` | shared vocabulary |
| `Wire.dfy` | the messages between proxy and handler as bytes, and how a byte stream is cut into them |
| `Retention.dfy` | retained packets and the split made by an acknowledgement; the counter; the machine arithmetic of the split |
| `Blocks.dfy` | bump-allocated blocks over arrays, and the deque of packets that point into them |
| `Outputs.dfy` | a peer's socket: what was sent, which writes are under way, what a close leaves of them |
| `Proxy.dfy` | the proxy half of a session as a step machine with explicit suspension points |
| `Session.dfy` | the session object: one method for the code between two suspensions, each proved equal to a step of the machine on real packet memory |
| `Transparency.dfy` | the main invariant, its exact condition per step and per run, for any handler |
| `Closing.dfy` | what is under way in every reachable state; what a close delivers, exactly; transparency in terms of what has arrived |
| `Readers.dfy` | how many readers of the handler's answers a session has, and exactly when there are two |
| `History.dfy` | what the state owes to the events so far: reads recorded, connection and bypass, what each loop waits for next |
| `Answers.dfy` | what the handler's answers do: bytes released, new data, no effect, and what the reader does next |
| `Overlaps.dfy` | concrete runs in which overlapping writes, two readers or a close lose or duplicate bytes |
| `Verdicts.dfy` | new data injected by the handler, block verdicts, the outputs after a close |
| `Handler.dfy` | the handler process: the loop that parses frames and answers with counts, up to the end of its stream |
| `Protocol.dfy` | both processes and both channels; the accounting between them |
| `Delivery.dfy` | every reachable state of the two processes; draining |
| `Channels.dfy` | the frames and answers of a connection, from the greeting on, over every run |
| `Streambuf.dfy` | the stream buffer: pure operations, refinement of a bounded queue, the class |
| `Reload.dfy` | ordered entity sets, set differences, the acceptor map over reloads |

Code that the repository writes as step-by-step updates is a class here (`Blocks.DataBlock`,
`Blocks.Direction`, `ProxySession.Session`, `Handler.Session`, `Streambuf.BasicStreambuf`,
`Reload.Config`, `Reload.Acceptors`), whose methods are proved equal to pure functions of the old
state. The whole-run results are lemmas about those functions.

## Modelling decisions

- **Suspension points.** The coroutines of a session share one executor and interleave only where
  they suspend. `ClientAt`, `ServerAt` and `ReaderAt` record where each is suspended: before and after
  every read of a peer, every write to a peer, the framed write, the empty head and the greeting. An
  event is what runs from one of these to the next. Two pairs of suspensions are one event: the head
  and the new data of an answer are read together, and so are the attempts to connect.
- **Writes.** A write to a peer is started by one event and is under way until another one sees it
  complete or break. Writes on one socket go out whole, in the order they were started
  (`Outputs.Out`); a write of no bytes completes at once. A break closes the session. Every event that
  closes the session carries a `Cut`: how many bytes of the writes under way on either socket still
  get out; the others are lost, whoever started them. A write on a closed socket puts out nothing. A
  framed write to the handler succeeds only if the socket was usable when it started; it may still
  fail later, and does if the greeting in front of it does.
- **Connection to the handler.** It may fail at any time. Retries of connecting change no state. What
  both channels hold is lost when the socket is reset.
- **Readers.** Every connection starts a reader of its answers, after the greeting. Nothing makes a new
  connection wait for the reader of the one before, which may be waiting for a write to a peer, or have
  been given an answer just before the reset; both then read from the new socket. `reader` is the one
  whose turn it is, `others` are the rest, and the event `Turn` passes the turn on, so any reader may
  act at any time, and it may be given any head, as when two of them read parts of the same answer. All
  results on the proxy half hold for any number of readers; `Readers.dfy` says when
  there are several. The results on both processes are for runs in which a new connection waits for the
  reader of the one before, since two readers share out one stream of answers between them.
- **Overlapping releases.** The code does not prevent a flush from starting while released bytes are
  being written, two flushes or two releases at once, or a packet being appended while a flush is under
  way. `Exclusive` names the events that do not overlap in this way, whichever readers they are of. It is not assumed of the code: of all
  runs from a new session, those that conserve the client's bytes in every open state are exactly
  those without such an overlap (`Transparency.TransparentIffGuarded`), and `Overlaps.dfy` gives runs
  in which the bad overlap happens.
- **Injected data.** An output is a list of writes, relayed or injected; `Erase` keeps the relayed
  bytes.
- **Acknowledgements.** A handler may send any count. Below the proxy's counter the subtraction in the
  split wraps. `Retention.FitsIff` says when the size it yields is still that of a split: inside the
  packet, with at least a byte left. Otherwise the size is either exactly the packet, which the code
  then writes whole and leaves in the deque with no bytes, or it is outside, and the code hands out a
  buffer that reaches outside the packet, which is undefined; `Retention.OutsideIff` tells these apart,
  and `Blocks.PrepareBuffers` follows the code in all three cases. The step machine stops at both of
  the latter. For the shipped handler counts never fall below (`Delivery.AnswersAlwaysFit`).
- **The handler's head.** The five bytes a frame's head is read into are not set before. Where the stream
  ends within a head the code goes on with what they held, which is a parameter here (`was`).
- **Direction.** Whole runs are stated for the request direction with the default
  `response_bypass = true`, where nothing is retained towards the client. The split, its counter and
  the deque are generic in the direction.
- **Integers.** Counters are 64-bit; lengths on the wire are 32-bit little-endian, as on the machines
  the proxy runs on. The accounting between the processes is stated while the client has sent fewer
  than 2^64 bytes.

## What the code does not do

The repository's README says that no problem of the handler process affects the proxy. The model
shows where this, and what the other two parts promise, does not hold as the code stands, with exact
conditions and with runs or inputs that fail:

- a flush that overlaps a release or another flush sends bytes twice, and a read that completes
  during the reader's flush is lost (`Transparency.TransparentIffGuarded`, `Overlaps`);
- whatever closes the session, above all the end of a stream seen by either loop, neither waits for
  acknowledgements nor for writes under way, so the client's last bytes can be dropped, also
  acknowledged ones (`Closing.CloseDeliversIffNothingHeld`, `Overlaps.EofCloseDropsRetained`,
  `Overlaps.EofCloseCutsRelease`);
- nothing makes a new connection wait for the reader of the old one: a reader is left behind exactly
  when it is the client loop that starts to reconnect, and a second one is started exactly when the
  connection comes up before the first has ended (`Readers.ReconnectLeavesReaderIff`,
  `Readers.SecondReaderIff`, `Readers.NeverTwoReadersIff`, `Overlaps.TwoReadersAtOnce`); the two can
  release the same packet and drop another unsent (`Overlaps.TwoReadersSendTwiceAndLose`);
- an acknowledgement that splits a packet does not advance the counter, so later acknowledgements
  release more than was acknowledged (`Retention.AckForwardsItsCountIffEarlierAcksAligned`,
  `Retention.RepeatedPartialAckReleasesTwice`);
- the handler does not stop where its stream ends but takes the rest, completed by old bytes, for one
  more frame; a packet cut off there is acknowledged in full (`Handler.EndAddsNothingIff`,
  `Handler.CutPacketIsAcknowledged`, `Handler.CutPacketRepeatsOldBytes`);
- after a greeting that fails nothing reconnects until a framed write fails, which the next one does;
  this is the only way for the handler to be given up meanwhile (`History.HandlerIsNeverGivenUp`,
  `History.FramedWriteCanSucceedIff`);
- a failed `prepare` or `overflow` of the stream buffer can leave its contents overwritten
  (`Streambuf.ThrowKeepsContentsIff`, `Streambuf.FailedPrepareOverwrites`);
- a port removed before its listener registered keeps a listener
  (`Reload.TrackedIffNoneDeletedEarly`, `Reload.DeletedEarlyKeepsListening`);
- a changed listening address on a kept port is not noticed by a reload
  (`Reload.AddressesTrackedIffKeptPortsKeepThem`, `Reload.ChangedAddressKeepsOldAcceptor`).

## Model

| member | source | states |
|---|---|---|
| Wire.CutIsLossless | src/process/process.cpp:108-143 | reading heads and bodies off any stream loses no byte: the messages and an incomplete rest make up the stream |
| Wire.CutIsUnique | src/process/process.cpp:108-143 | there is only one way to read a stream as messages and an incomplete rest |
| Wire.CutIsIncremental | src/process/process.cpp:108-143 | the messages read do not depend on how the stream was fragmented |
| Wire.FramesRoundTrip | src/cpp_proxy/session.hpp:394-398 | from any fragment of what the proxy framed the handler decodes exactly the complete frames |
| Wire.FramesAreCanonical | src/process/process.cpp:108-143 | whatever bytes arrive, the decoded frames encode back to the part of the stream that was consumed |
| Wire.HeadsRoundTrip | src/local_tcp.hpp:43-52 | 16-byte response heads, each with its new data, decode to the list that was encoded, at any cut |
| Wire.FrameLayout | src/cpp_proxy/session.hpp:395-396 | a frame is its kind, the length as four bytes with the least significant first, and the body |
| Wire.HeadLayout | src/local_tcp.hpp:43-52 | a response head is kind, action, two zero bytes, and two little-endian integers of four and eight bytes, followed by the new data |
| Wire.BytesAreReadSo | src/process/process.cpp:120-121 | off any bytes both readers take the length, and the proxy the count, as little-endian values at these places |
| Wire.LiteralMessages | src/local_tcp.hpp:31-41 | five messages in full, with the byte values of the kinds and actions; one client byte 7 goes to the handler as 0, 1, 0, 0, 0, 7 |
| Retention.AckSplitIsExact | src/cpp_proxy/session.hpp:229-264 | an acknowledgement releases exactly the first newly covered bytes of the flattened deque, keeps exactly the others, leaves no empty packet, and advances the counter by what it released in whole packets |
| Retention.SplitConserves | src/cpp_proxy/session.hpp:252-264 | released bytes followed by what clearing leaves are the deque's bytes |
| Retention.AppendsCommuteWithClear | src/cpp_proxy/session.hpp:333-345 | packets pushed while released bytes are written change neither the output nor what is cleared |
| Retention.OrderMattersOnlyForOverAck | src/cpp_proxy/session.hpp:235-248 | handling an acknowledgement before or after pushes gives the same split if and only if it covers no more than was retained |
| Retention.CounterPlusTrims | src/cpp_proxy/session.hpp:235-264 | over any run since a reset, bytes forwarded are the counter plus all bytes released by splits |
| Retention.SplitsExactlyWhenUnaligned | src/cpp_proxy/session.hpp:237-243 | a packet is split exactly when the count is not on a packet boundary and does not cover everything |
| Retention.AckForwardsItsCountIffEarlierAcksAligned | src/cpp_proxy/session.hpp:235-247 | an acknowledgement of retained bytes forwards exactly up to its count if and only if all earlier ones since the reset were aligned; else it overshoots by the earlier splits |
| Retention.CounterIsForwardedIffAligned | src/cpp_proxy/session.hpp:235-247 | the counter equals the bytes forwarded if and only if no acknowledgement was unaligned |
| Retention.RepeatedPartialAckReleasesTwice | src/cpp_proxy/session.hpp:237-243 | acknowledging one byte twice releases two |
| Retention.MachineUsedIsExact | src/cpp_proxy/session.hpp:237-238 | with counts not below the counter the 64-bit difference and its narrowing to int are exact and inside the packet |
| Retention.MachineUsedInsidePacketIff | src/cpp_proxy/session.hpp:236-238 | for any 64-bit counter and count for which the guard, a sum that may itself wrap, splits a packet, the computed size is inside the packet exactly when the count is not below the counter, the guard wrapped, or the distance wraps back by luck |
| Retention.FitsIff | src/cpp_proxy/session.hpp:236-243 | for any 64-bit counter and count a caller can tell beforehand, from these and the first packet's length, whether the loop makes a split: inside the deque and leaving at least a byte of a split packet |
| Retention.OutsideIff | src/cpp_proxy/session.hpp:237-242 | below the counter the computed size lies in front of the packet or behind it exactly at these distances; the one distance between is the packet's own length |
| Retention.WrappedAckReleases | src/cpp_proxy/session.hpp:236-243 | a count below the counter that fits releases bytes of the first packet only, their number congruent to the difference modulo 2^32, and leaves the counter |
| Blocks.DataBlock.Append | src/cpp_proxy/data_block.hpp:37-41 | appending extends the used part by the bytes and leaves the free part beyond alone |
| Blocks.DataBlock.WriteFrame | src/cpp_proxy/session.hpp:391-398 | data read behind the space of a head and the head written in place form the contiguous frame; earlier bytes are untouched |
| Blocks.Direction.PrepareBlock | src/cpp_proxy/session.hpp:368-374 | a read gets a block with at least 69 free bytes, a fresh one of 2 MiB exactly when there was none or too little room |
| Blocks.Direction.StoreRead | src/cpp_proxy/session.hpp:390-398 | the packet joins the deque, all earlier packets keep their bytes, regions stay in bounds and apart, and the frame is its encoding |
| Blocks.RetainReads | src/cpp_proxy/session.hpp:368-398 | over any run of reads, through as many blocks as they fill, every packet retained before or during it stays in bounds, apart from all others, and holds exactly the bytes read; every read of a nonempty size takes something |
| Blocks.PrepareBuffers | src/cpp_proxy/session.hpp:229-250 | for every 64-bit count the loop, in wrapping and narrowing arithmetic, computes the exact split and its buffers where there is one, and otherwise the first packet whole or a size outside it, and reports which |
| Blocks.Direction.PrepareTransferPacket | src/cpp_proxy/session.hpp:229-250 | the same on the deque and counter of a direction |
| Blocks.Direction.ClearHandledPacket | src/cpp_proxy/session.hpp:252-264 | popping and trimming in place leaves exactly the cleared deque, still in bounds and apart |
| Blocks.Direction.FlushBytes | src/cpp_proxy/session.hpp:278-284 | a flush writes everything stored, in order |
| ProxySession.Session.ClientLoop | src/cpp_proxy/session.hpp:523-540 | refines the top of the client loop; a block that replaces another is new |
| ProxySession.Session.RelayFromClient | src/cpp_proxy/session.hpp:490-510 | refines the read for a direct relay, up to starting the relay |
| ProxySession.Session.RelayCompleted | src/cpp_proxy/session.hpp:509-516 | refines the end of the relay, or its failure with the close |
| ProxySession.Session.StoreFromClient | src/cpp_proxy/session.hpp:363-404 | refines the retained read, and writes exactly the encoded frame when the socket is usable |
| ProxySession.Session.ProcessWriteDone | src/cpp_proxy/session.hpp:397-402 | refines the end of the framed write, with bypass and flush on failure |
| ProxySession.Session.ClientFlushCompleted | src/cpp_proxy/session.hpp:284-291 | refines the end of the client loop's flush: clearing the deque and starting to reconnect, or the close |
| ProxySession.Session.EnableBypass | src/cpp_proxy/session.hpp:266-292 | bypass is set and all retained bytes are written |
| ProxySession.Session.ConnectProcess | src/cpp_proxy/session.hpp:184-199 | no effect while connecting, else counters and socket are reset |
| ProxySession.Session.ProcessConnected | src/cpp_proxy/session.hpp:211-215 | bypass ends and the greeting is started as the first frame of the connection, whatever readers earlier connections left |
| ProxySession.Session.GreetingDone | src/cpp_proxy/session.hpp:215-222 | the reader starts only once the greeting is written |
| ProxySession.Session.ReadAnswer | src/cpp_proxy/session.hpp:442-465 | takes exactly the first complete answer with its new data, never stale bytes of the reused buffer |
| ProxySession.Session.HandleHead | src/cpp_proxy/session.hpp:304-337 | refines taking an answer: up to the write of its new data, or without new data block, or pass up to the write |
| ProxySession.Session.InjectionCompleted | src/cpp_proxy/session.hpp:312-337 | refines the verdict once the new data is written, or the close if that breaks |
| ProxySession.Session.ReleaseCompleted | src/cpp_proxy/session.hpp:337-346 | refines clearing after the write, or the close if that breaks |
| ProxySession.Session.ProcessReadError | src/cpp_proxy/session.hpp:421-432 | refines losing the handler in the reader |
| ProxySession.Session.ReaderFlushCompleted | src/cpp_proxy/session.hpp:284-291 | refines the end of the reader's flush, which reconnects either way |
| ProxySession.Session.ServerLoop | src/cpp_proxy/session.hpp:590-606 | refines the top of the server loop, with the empty head sent while not bypassing |
| ProxySession.Session.HeadWritten | src/cpp_proxy/session.hpp:605-608 | refines the end of the empty head's write, whose error is ignored |
| ProxySession.Session.RelayFromServer | src/cpp_proxy/session.hpp:559-577 | refines the read for the relay towards the client, up to starting the relay |
| ProxySession.Session.ServerWriteCompleted | src/cpp_proxy/session.hpp:576-583 | refines the end of that relay, or its failure with the close |
| ProxySession.Session.GraceClose | src/cpp_proxy/session.hpp:92-104 | closing shuts both peers' sockets under whatever is being written, once |
| Transparency.StepKeepsInv | src/cpp_proxy/session.hpp:184-557 | every event whose deque-releasing write does not overlap another keeps conservation, single release and no overtaking |
| Transparency.ConservedIffExclusive | src/cpp_proxy/session.hpp:266-347 | an event that leaves the session open loses and duplicates nothing if and only if it does not overlap another release |
| Transparency.TransparentIffGuarded | src/cpp_proxy/session.hpp:184-557 | of all runs of a new session, with any number of readers, those that conserve the client's bytes in every open state are exactly those in which no two releases overlap |
| Closing.StepKeepsUnderWay | src/cpp_proxy/session.hpp:184-584 | in every state each loop that waits for a write of the peers' own bytes has exactly that write under way, relays behind flushes, and a closed session has none |
| Closing.ServerSeesClientBytes | src/cpp_proxy/session.hpp:184-557 | over whole guarded runs what has arrived at the server, then the deque, then a relay under way, is the client's input; relays never overtake; after a close both outputs are prefixes |
| Closing.ClosesIff | src/cpp_proxy/session.hpp:92-104 | exactly the ends of streams, failed reads and writes of the peers, and block verdicts close the session |
| Closing.CloseDeliversIffNothingHeld | src/cpp_proxy/session.hpp:524-528 | whatever closes the session and whatever that cuts, nothing of the client is lost if and only if the deque is empty and no direct relay is under way; nothing of the server if and only if no relay to the client is |
| Closing.RunDeliversIffNothingHeld | src/cpp_proxy/session.hpp:591-595 | the same, towards the server and towards the client, at the end of any guarded run from a new session |
| Closing.EofDeliversIffNothingRetained | src/cpp_proxy/session.hpp:524-528 | the client loop's close on the end of a stream delivers all input in every case if and only if the deque is empty |
| Readers.SecondReaderIff | src/cpp_proxy/session.hpp:200-222 | an event starts a second reader if and only if a connection comes up while one is left |
| Readers.ReconnectLeavesReaderIff | src/cpp_proxy/session.hpp:542-557 | with one reader, starting to reconnect leaves it behind if and only if the client loop does it: after a failed framed write with nothing retained, or after its flush |
| Readers.NeverTwoReadersIff | src/cpp_proxy/session.hpp:200-222 | of all runs of a new session, those that never have two readers are exactly those in which every connection waits for the reader before |
| History.ReadsAreRecorded | src/cpp_proxy/session.hpp:376-392 | over every run the inputs are the bytes of the reads, and the end is noted if and only if some read of either peer saw it |
| History.TopClosesIffEndWasSeen | src/cpp_proxy/session.hpp:591-595 | a loop that comes to its top closes the session if and only if some earlier read saw an end |
| History.StepFollows | src/cpp_proxy/session.hpp:184-215 | reconnecting starts exactly when a loop that found the handler lost has nothing, or nothing more, to flush, and resets the counter then and only then; bypass and the use of the socket follow losses and connections, and only a pass moves the counter |
| History.BypassesExactlyWithoutHandler | src/cpp_proxy/session.hpp:212-214 | in every open state of every run bypass is on if and only if the handler was never connected, or found lost since it last was |
| History.HandlerIsNeverGivenUp | src/cpp_proxy/session.hpp:427-430 | in every open state of every run the handler's socket is in use, or the session is reconnecting or flushing towards that, unless its last greeting failed |
| History.FramedWriteCanSucceedIff | src/cpp_proxy/session.hpp:397-402 | a framed write can succeed if and only if it starts on a socket in use with no greeting before it |
| History.LoopsGoInOrder | src/cpp_proxy/session.hpp:519-630 | over every run, whatever the other coroutines do in between, each loop waits for exactly what its own last event leads to |
| History.FramesAreSentIff | src/cpp_proxy/session.hpp:598-606 | a frame goes out exactly where a loop then waits for that write: the packet just read, or the empty head |
| Answers.PassReleasesFirstBytes | src/cpp_proxy/session.hpp:328-345 | a pass of a request writes exactly the retained bytes its count newly covers, behind its own new data, and once they are out exactly these leave the deque, whatever was retained meanwhile |
| Answers.OtherAnswersChangeNothing | src/cpp_proxy/session.hpp:475-486 | heartbeats and unknown kinds have no effect, and a response's pass without new data leaves no trace |
| Answers.NewDataGoesWhereMeant | src/cpp_proxy/session.hpp:310-320 | over every run, of all that was written to a peer what is new is exactly the new data of the answers meant for it, whole and in order |
| Answers.ReaderOrder | src/cpp_proxy/session.hpp:436-488 | each event of a reader leads to exactly one wait, or ends the reader |
| Overlaps.FlushDuringReleaseSendsTwice | src/cpp_proxy/session.hpp:337-345 | a reachable overlap of a release and a flush duplicates a byte |
| Overlaps.TwoFlushesSendTwice | src/cpp_proxy/session.hpp:427-428 | a reachable overlap of two flushes duplicates a byte |
| Overlaps.ReadDuringFlushIsLost | src/cpp_proxy/session.hpp:284-290 | a packet appended during a flush is cleared unsent |
| Overlaps.EofCloseDropsRetained | src/cpp_proxy/session.hpp:524-528 | closing on the end of the stream can drop a retained byte |
| Overlaps.EofCloseCutsRelease | src/cpp_proxy/session.hpp:337-345 | closing on the end of the stream can cut the write of an acknowledged byte |
| Overlaps.TwoReadersAtOnce | src/cpp_proxy/session.hpp:211-222 | a connection comes up while the reader of the one before waits for the write of new data: two readers |
| Overlaps.TwoReadersSendTwiceAndLose | src/cpp_proxy/session.hpp:328-345 | a reachable run in which two readers release the same packet and clear the next one unsent |
| Verdicts.NewDataDoesNotInterfere | src/cpp_proxy/session.hpp:310-320 | for any run there is one without new data that leads to the same state with the injected segments erased; new data whose write breaks acts like a block |
| Verdicts.InjectionChangesNoPeerBytes | src/cpp_proxy/session.hpp:310-320 | from a new session, with and without new data the same bytes are read, retained and delivered on both sides |
| Verdicts.PassingHandlerIsTransparent | src/cpp_proxy/session.hpp:304-347 | with a handler that injects nothing the bytes on the sockets themselves are the peers' bytes |
| Verdicts.ClosedIsFinal | src/cpp_proxy/session.hpp:92-104 | after a close no event changes either output |
| Verdicts.BlockWaitsForNewData | src/cpp_proxy/session.hpp:311-320 | a block verdict with new data leaves the session open, the deque as it is and the reader waiting for that write |
| Verdicts.BlockFreezesOutputs | src/cpp_proxy/session.hpp:311-326 | from the event that acts on a block verdict on, for every run after it, the session is closed, the new data is out whole behind what was out before, and nothing else goes out but a part of the writes then under way |
| Verdicts.CloseFreezesOutputs | src/cpp_proxy/session.hpp:92-104 | a close by a block or anything else releases nothing retained: either output gets at most a part of the writes under way and then stays as it is |
| Handler.Session.HandleFrame | src/process/process.cpp:120-196 | one frame changes the counters and is answered as specified; a body that came whole is handled as it came, one cut off is completed by what the buffer held |
| Handler.Session.Setup | src/process/process.cpp:98-198 | the answers to a stream are those to exactly its complete frames, in order, and, if the stream ends, to one more frame made of the rest |
| Handler.EndAddsNothingIff | src/process/process.cpp:110-161 | what the loop takes for a frame at the end of a stream adds nothing to the packets handled, or to the answers, if and only if its head, partly unset, is of another kind or announces no bytes |
| Handler.CutPacketIsAcknowledged | src/process/process.cpp:133-153 | a packet cut off by the end of the stream, anywhere in its body, is answered as if it had arrived whole, and handled with old bytes of the buffer for those missing |
| Handler.CutPacketRepeatsOldBytes | src/process/process.cpp:133-150 | a second packet cut off behind its k-th byte is handled with the first packet's bytes from there on |
| Handler.HandlingIsIncremental | src/process/process.cpp:98-198 | handling in batches gives the same state and answers |
| Handler.AcksAreRunningTotals | src/process/process.cpp:148-154 | each acknowledgement is the running total of packet bytes modulo 2^64, and handle_request sees exactly the packets |
| Handler.AnswersAreRunningTotals | src/process/process.cpp:147-186 | packets, and responses that came with data, are answered in order, each with its kind, a pass, no new data and the running total of that kind modulo 2^64; nothing else is answered |
| Handler.CountersAreTotals | src/process/process.cpp:149-168 | each counter is the total of the bytes of its own kind |
| Protocol.MoveKeepsInv | src/process/process.cpp:148-165 | every move of proxy, handler and channels keeps the books: unreleased packets are those already acknowledged followed by those still on their way |
| Delivery.ConnectedAccounts | src/cpp_proxy/session.hpp:235-247 | in every reachable connected state the counters and what is between them add up byte for byte, each pending count is the counter plus the packets up to its own, they rise strictly to the handler's, and nothing is released that the handler has not seen; with a frame begun on the old socket both counters are zero and nothing is between them |
| Delivery.AnswersAlwaysFit | src/cpp_proxy/session.hpp:237-247 | the shipped handler's next answer can always be taken, closes nothing, overlaps no release, and an acknowledgement is above the counter and of exactly one packet |
| Delivery.EveryDrainDelivers | src/process/process.cpp:98-198 | from every connected state, also where the client loop is flushing what an earlier connection left, and without new input or failure, every schedule is bounded by a decreasing measure, overlaps nothing, and ends with the deque empty and all input arrived at the server |
| Delivery.SomeDrainDelivers | src/cpp_proxy/session.hpp:436-488 | such a schedule to rest exists from every one of these states |
| Channels.ChannelsKeepOrder | src/cpp_proxy/session.hpp:211-222 | over every run, while the connection is in use, frames consumed and under way are those written since it came up, the greeting first, and answers likewise; the handler is always as if fed just what it consumed |
| Streambuf.ReserveContract | 3party/asio-1.24.0/include/asio/basic_streambuf.hpp:308-346 | length_error exactly when contents and request exceed the maximum; otherwise the room is there and the contents are kept |
| Streambuf.ReserveGrowsAsNeeded | 3party/asio-1.24.0/include/asio/basic_streambuf.hpp:308-346 | nothing moves while there is room; otherwise the contents move to the start and the vector grows as far as needed and no further |
| Streambuf.ThrowOverlaysContents | 3party/asio-1.24.0/include/asio/basic_streambuf.hpp:321-340 | what the contents are after a throw, byte by byte |
| Streambuf.ThrowKeepsContentsIff | 3party/asio-1.24.0/include/asio/basic_streambuf.hpp:321-340 | a throw keeps the contents if and only if they repeat with the read offset |
| Streambuf.FailedPrepareOverwrites | 3party/asio-1.24.0/include/asio/basic_streambuf.hpp:321-340 | reachable buffers of every size whose contents a failed prepare overwrites; 2, 3 become 3, 3 |
| Streambuf.CommitSaturates | 3party/asio-1.24.0/include/asio/basic_streambuf.hpp:233-238 | commit appends the start of the put area, at most all of it |
| Streambuf.ConsumeDrops | 3party/asio-1.24.0/include/asio/basic_streambuf.hpp:247-254 | consume drops from the front, at most everything |
| Streambuf.UnderflowPeeks | 3party/asio-1.24.0/include/asio/basic_streambuf.hpp:263-274 | underflow shows the first character or eof and keeps the contents |
| Streambuf.OverflowContract | 3party/asio-1.24.0/include/asio/basic_streambuf.hpp:283-306 | a character is refused exactly when the buffer is full and otherwise appended, as its own byte or, if negative, as that of the signed char, and returned; for eof something else is returned |
| Streambuf.OverflowMakesRoom | 3party/asio-1.24.0/include/asio/basic_streambuf.hpp:287-298 | a character that finds no room makes room for up to 128, within the maximum |
| Streambuf.ReadSizeNeverThrows | 3party/asio-1.24.0/include/asio/basic_streambuf.hpp:353-359 | preparing the size proposed by read_size_helper never throws |
| Streambuf.ReadSizeIsLargest | 3party/asio-1.24.0/include/asio/basic_streambuf.hpp:353-359 | read_size_helper gives the largest size that the limit, the maximum, and 512 or the free capacity allow |
| Streambuf.NewBufferRefines | 3party/asio-1.24.0/include/asio/basic_streambuf.hpp:131-346 | through any sequence of operations a new buffer throws exactly where a bounded queue is full and otherwise holds exactly the queue |
| Streambuf.BasicStreambuf.ReserveSpace | 3party/asio-1.24.0/include/asio/basic_streambuf.hpp:308-346 | the in-place moves and the growth on the array compute the specified reserve, also when it throws |
| Streambuf.BasicStreambuf.PrepareRoom | 3party/asio-1.24.0/include/asio/basic_streambuf.hpp:214-219 | prepare on the array, with its throw condition |
| Streambuf.BasicStreambuf.CommitRoom | 3party/asio-1.24.0/include/asio/basic_streambuf.hpp:233-238 | commit on the positions, for steps that an int holds |
| Streambuf.BasicStreambuf.ConsumeBytes | 3party/asio-1.24.0/include/asio/basic_streambuf.hpp:247-254 | consume on the positions, for steps that an int holds |
| Streambuf.BumpIsExactIff | 3party/asio-1.24.0/include/asio/basic_streambuf.hpp:236-253 | the cast of a step to int is exact if and only if the step is below 2^31 |
| Streambuf.BasicStreambuf.UnderflowChar | 3party/asio-1.24.0/include/asio/basic_streambuf.hpp:263-274 | underflow on the array |
| Streambuf.BasicStreambuf.OverflowChar | 3party/asio-1.24.0/include/asio/basic_streambuf.hpp:283-306 | overflow on the array, with the value it returns |
| Reload.BuildIsFirstWins | src/cpp_proxy/config.hpp:118-141 | the set built from a file has its ports, each with the first entity given for it |
| Reload.SetDifference | src/cpp_proxy/config.hpp:143-148 | the merge of two ordered sets computes the entities whose port is not in the other |
| Reload.Config.ParseConf | src/cpp_proxy/config.hpp:118-151 | new entities, and the differences by port both ways |
| Reload.Acceptors.HandleConfigChange | src/cpp_proxy/cpp_proxy.cpp:77-93 | one reload spawns the added listeners and erases the deleted acceptors |
| Reload.Acceptors.RegisterNext | src/cpp_proxy/cpp_proxy.cpp:38-38 | registration does not replace an acceptor |
| Reload.TrackedIffNoneDeletedEarly | src/cpp_proxy/cpp_proxy.cpp:79-93 | a change keeps listeners in step with the ports if and only if it takes away no port whose listener has not registered yet |
| Reload.DeletedEarlyKeepsListening | src/cpp_proxy/cpp_proxy.cpp:38-38 | a port removed before its listener registered stays listened on although no entity has it |
| Reload.AcceptorsTrackConfig | src/cpp_proxy/cpp_proxy.cpp:77-93 | from start-up, after any orderly sequence of reloads and registrations, the acceptors are those of the ports in the list read last, and the entities those of that list |
| Reload.AddressesTrackedIffKeptPortsKeepThem | src/cpp_proxy/config.hpp:60-62 | a reload leaves every acceptor on its configured address if and only if no kept port changed its address |
| Reload.ChangedAddressKeepsOldAcceptor | src/cpp_proxy/config.hpp:60-62 | a kept port with a new address keeps the acceptor on the old one |

## Left out

- Closing.ServerSeesClientBytes: covers runs without overlapping releases, because the code loses or duplicates bytes in all others, as Transparency.TransparentIffGuarded states.
- ProxySession.Session.HandleHead: stops at a count below the counter whose wrapped size is not that of a split. Outside the packet the code is undefined; a size of exactly the packet would leave one without bytes in the deque, and the step machine keeps those out.
- ProxySession.Session.InjectionCompleted: stops at the same counts.
- ProxySession.Session.ReleaseCompleted: where another reader has cleared packets meanwhile, the code may clear more than the deque holds, which is undefined; the step machine stops there.
- Protocol.MoveKeepsInv: for runs in which a connection waits for the reader of the one before (ExclusiveMove), and in which answers received but not yet read are lost when the socket is reset.
- Delivery.ConnectedAccounts: for the same runs.
- Reload.AcceptorsTrackConfig: takes every bind to succeed; a listener that cannot bind never registers.
- Streambuf.ConsumeDrops: counts so large that the sum of the get pointer and the count, on which the comparison in consume is made, leaves the address space; that sum is undefined and need not saturate.
- Streambuf.NewBufferRefines: takes steps of 2^31 bytes and more, and such counts of consume, as exact; Streambuf.BumpIsExactIff says from where the casts are not.
- Streambuf.BasicStreambuf.CommitRoom: steps of 2^31 bytes and more, for which the cast to int is not exact (Streambuf.BumpIsExactIff) and the position is moved wrongly; consume likewise.
- Retaining towards the client (response_bypass = false): whole runs are not modelled; the split, deque and counter lemmas are stated for either direction. Order towards the client depends there on when bypass is set by the other loop, which flushes the other deque only.
- Two writes interleaving on one socket: writes go out whole in the order they start.
- A failure between the head and the new data of an answer: it is a failure before the head.
- A failing read or write of the handler other than the end of its stream: it ends the handler's session.
- Heartbeat and ten-second timers: a heartbeat is a message without effect and the connection may fail at any time.
- Sockets, resolving, the executor, JSON, files, signals and logging: library or I/O plumbing.
- The contents of the four-tuple greeting, handle_request and handle_response: opaque or empty in the source.
- The lifetime of blocks: a packet keeps its buffer alive, as its shared pointer does; the count of freed bytes is not modelled.
- The beginnings of the get and put areas of the stream buffer and the capacity of its vector: never read by the operations, except that the capacity is a parameter of read_size_helper.
- Reload while parsing: reading the file and the lock around the entities.
- Load balancing and the executor pool: a round robin and an empty class.
