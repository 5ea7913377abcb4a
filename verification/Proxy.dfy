/** The proxy half of a session as a step machine, for the request direction under the default
    configuration (response_bypass_ is true, so nothing is retained towards the client).

    A session runs several coroutines on one executor: the client loop, the server loop, connecting to
    the handler, and a reader of the handler's answers for every connection. They interleave only where
    they suspend, so a state records where each of them is suspended, and an event is what one of them
    does from one suspension to the next: every write to a peer, and the greeting of the handler, is
    started by one event and completed by another.

    A new connection does not wait for the reader of an earlier one: a reader that is still there then
    goes on, as a further reader of the new connection's socket. */
module ProxyMachine {
  import opened Basics
  import opened Wire
  import opened Retention
  import opened Outputs

  /** Answers about the two directions; any other kind has no effect on the session. */
  predicate Directed(h: Head) {
    h.kind == FROM_CLIENT_TO_SERVER || h.kind == FROM_SERVER_TO_CLIENT
  }

  type DirectedHead = h: Head | Directed(h) witness Head(FROM_CLIENT_TO_SERVER, PASS, [], 0)

  /** Where the client loop is suspended, or about to continue. */
  datatype ClientAt =
    | LoopTop                          // about to look at the flags
    | ReadingDirect                    // reading a run of bytes to relay directly
    | WritingServer(data: seq<Byte>)   // relaying it
    | ReadingRetained                  // reading into the block, to retain and frame
    | WritingProcess(sent: bool)       // framed write under way; `sent` if the socket was usable
    | ClientFlush                      // writing the retained packets after a failed framed write
    | ClientDone

  datatype ServerAt =
    | ServerLoopTop
    | SendingHead                      // writing the empty head to the handler
    | ReadingServer
    | WritingClient(data: seq<Byte>)
    | ServerDone

  /** Where connecting is once the connection is up, then the reader of the handler's answers. */
  datatype ReaderAt =
    | NoReader
    | Greeting                         // writing the four-tuple greeting
    | Reading
    | Injecting(head: DirectedHead)    // writing the new data of this answer
    | Releasing(count: nat, used: nat) // writing acknowledged bytes, deque not yet cleared
    | ReaderFlush                      // writing the retained packets after a failed read

  datatype Proxy = Proxy(
    retained: seq<Packet>,     // data_from_client_to_server_
    handled: nat,              // req_handled_total_pkg_len_
    bypass: bool,
    connecting: bool,          // process_connecting_
    usable: bool,              // the process socket accepts writes
    eof: bool,
    closed: bool,              // has_closed_
    client: ClientAt,
    server: ServerAt,
    reader: ReaderAt,          // the reader whose turn it is
    others: seq<ReaderAt>,     // further readers, left over from earlier connections
    input: seq<Byte>,          // history: read from the client
    toServer: Out,             // history: written to the server
    fromServer: seq<Byte>,     // history: read from the server
    toClient: Out,             // history: written to the client
    released: seq<Byte>        // history: released by acknowledgements since the last reset
  )

  /** A new session: connected to the server, bypassing until the handler is connected. */
  const START := Proxy([], 0, true, true, false, false, false, LoopTop, ServerLoopTop, NoReader, [],
                       [], NO_OUTPUT, [], NO_OUTPUT, [])

  /** How many bytes of the writes under way on the two sockets still get out when they close. */
  datatype Cut = Cut(server: nat, client: nat)

  /** Events that can close the session say what that cuts. */
  datatype Event =
    | ClientTop(cut: Cut)
    | ClientReadFails(cut: Cut)
    | DirectRead(data: seq<Byte>, eof: bool)
    | RetainedRead(data: seq<Byte>, eof: bool)
    | ProcessWrite(ok: bool)
    | ClientWriteDone(ok: bool, cut: Cut)
    | ServerTop(cut: Cut)
    | HeadSent
    | ServerReadFails(cut: Cut)
    | ServerRead(data: seq<Byte>, eof: bool)
    | ServerWriteDone(ok: bool, cut: Cut)
    | Connected
    | Greeted(ok: bool)
    | HeadRead(head: Head, cut: Cut)
    | ReaderWriteDone(ok: bool, cut: Cut)
    | ProcessReadFails
    | Turn(k: nat) // the turn of another reader comes

  // ---------------------------------------------------------------- sockets

  /** grace_close */
  function Close(p: Proxy, cut: Cut): Proxy {
    if p.closed then p
    else p.(closed := true, toServer := Shut(p.toServer, cut.server), toClient := Shut(p.toClient, cut.client))
  }

  /** A write on a closed socket puts out nothing; the loop waits for its error all the same. */
  function WriteToServer(p: Proxy, c: Chunk): Proxy {
    if p.closed then p else p.(toServer := Begin(p.toServer, c))
  }

  function WriteToClient(p: Proxy, c: Chunk): Proxy {
    if p.closed then p else p.(toClient := Begin(p.toClient, c))
  }

  /** Starting connect_process: nothing if one is under way, else counters and socket are reset. */
  function SpawnConnect(p: Proxy): Proxy {
    if p.connecting then p
    else p.(connecting := true, handled := 0, released := [], usable := false)
  }

  /** inner_enable_bypass up to its write: bypass is on, and everything retained is written. */
  function StartFlush(p: Proxy, owner: Owner): Proxy {
    var p1 := p.(bypass := true, usable := false);
    if p.retained == [] then p1 else WriteToServer(p1, Relayed(owner, Concat(p.retained)))
  }

  // ---------------------------------------------------------------- client loop

  function OnClientTop(p: Proxy, cut: Cut): Proxy {
    if p.eof then Close(p, cut).(client := ClientDone)
    else if p.bypass then p.(client := ReadingDirect)
    else p.(client := ReadingRetained)
  }

  function OnDirectRead(p: Proxy, data: seq<Byte>, eof: bool): Proxy {
    var p1 := p.(eof := p.eof || eof, input := p.input + data);
    if data == [] then p1.(client := LoopTop)
    else WriteToServer(p1, Relayed(ClientLoop, data)).(client := WritingServer(data))
  }

  function OnRetainedRead(p: Proxy, data: seq<Byte>, eof: bool): Proxy {
    var p1 := p.(eof := p.eof || eof, input := p.input + data);
    if data == [] then p1.(client := LoopTop)
    else p1.(retained := p.retained + [data], client := WritingProcess(p.usable && !p.closed))
  }

  function OnProcessWrite(p: Proxy, ok: bool): Proxy {
    if ok then p.(client := LoopTop)
    else if p.retained == [] then SpawnConnect(StartFlush(p, ClientLoop)).(client := LoopTop)
    else StartFlush(p, ClientLoop).(client := ClientFlush)
  }

  function OnClientWriteDone(p: Proxy, ok: bool, cut: Cut): Proxy {
    if !ok then Close(p, cut).(client := ClientDone)
    else
      var p1 := p.(toServer := Finish(p.toServer), client := LoopTop);
      if p.client == ClientFlush then SpawnConnect(p1.(retained := [])) else p1
  }

  // ---------------------------------------------------------------- server loop

  function OnServerTop(p: Proxy, cut: Cut): Proxy {
    if p.eof then Close(p, cut).(server := ServerDone)
    else p.(server := if p.bypass then ReadingServer else SendingHead)
  }

  function OnServerRead(p: Proxy, data: seq<Byte>, eof: bool): Proxy {
    var p1 := p.(eof := p.eof || eof, fromServer := p.fromServer + data);
    if data == [] then p1.(server := ServerLoopTop)
    else WriteToClient(p1, Relayed(ServerLoop, data)).(server := WritingClient(data))
  }

  function OnServerWriteDone(p: Proxy, ok: bool, cut: Cut): Proxy {
    if ok then p.(toClient := Finish(p.toClient), server := ServerLoopTop)
    else Close(p, cut).(server := ServerDone)
  }

  // ---------------------------------------------------------------- connection to the handler

  /** A reader that is still there is left to itself. */
  function OnConnected(p: Proxy): Proxy {
    p.(bypass := false, connecting := false, usable := true, reader := Greeting,
       others := if p.reader == NoReader then p.others else p.others + [p.reader])
  }

  function OnTurn(p: Proxy, k: nat): Proxy
    requires k < |p.others|
  {
    p.(reader := p.others[k], others := p.others[k := p.reader])
  }

  /** A framed write started behind a greeting that breaks, breaks as well. */
  function OnGreeted(p: Proxy, ok: bool): Proxy {
    if ok then p.(reader := Reading)
    else p.(reader := NoReader, usable := false,
            client := if p.client == WritingProcess(true) then WritingProcess(false) else p.client)
  }

  // ---------------------------------------------------------------- reader of the handler's answers

  /** The count of a request's pass verdict keeps the split inside the deque. */
  predicate VerdictFits(p: Proxy, h: Head) {
    h.kind == FROM_CLIENT_TO_SERVER && h.act != BLOCK ==> Fits(p.retained, p.handled, h.handled)
  }

  function OnPass(p: Proxy, ack: nat): Proxy
    requires Fits(p.retained, p.handled, ack)
  {
    var r := PrepareWrapping(p.retained, p.handled, ack);
    var out := Concat(Released(p.retained, r.count, r.used));
    WriteToServer(p.(handled := r.handled, released := p.released + out, reader := Releasing(r.count, r.used)),
                  Relayed(Reader, out))
  }

  /** Block or pass. Nothing is retained towards the client, so a pass in that direction writes no
      bytes and clears nothing. */
  function OnVerdict(p: Proxy, h: Head, cut: Cut): Proxy
    requires VerdictFits(p, h)
  {
    if h.act == BLOCK then Close(p, cut).(reader := NoReader)
    else if h.kind == FROM_CLIENT_TO_SERVER then OnPass(p, h.handled)
    else p.(reader := Releasing(0, 0))
  }

  function OnHeadRead(p: Proxy, h: Head, cut: Cut): Proxy
    requires h.newData == [] ==> VerdictFits(p, h)
  {
    if !Directed(h) then p
    else if h.newData == [] then OnVerdict(p, h, cut)
    else if h.kind == FROM_CLIENT_TO_SERVER then WriteToServer(p, Injected(h.newData)).(reader := Injecting(h))
    else WriteToClient(p, Injected(h.newData)).(reader := Injecting(h))
  }

  function InjectionSent(p: Proxy, h: Head): Proxy {
    if h.kind == FROM_CLIENT_TO_SERVER then p.(toServer := Finish(p.toServer))
    else p.(toClient := Finish(p.toClient))
  }

  function OnReleased(p: Proxy, count: nat, used: nat): Proxy
    requires InRange(p.retained, count, used)
  {
    if count == 0 && used == 0 then p.(reader := Reading)
    else p.(toServer := Finish(p.toServer), retained := Clear(p.retained, count, used), reader := Reading)
  }

  function OnReaderWriteDone(p: Proxy, ok: bool, cut: Cut): Proxy
    requires Enabled(p, ReaderWriteDone(ok, cut))
  {
    match p.reader
    case Injecting(h) =>
      if ok then OnVerdict(InjectionSent(p, h), h, cut) else Close(p, cut).(reader := NoReader)
    case Releasing(count, used) =>
      if ok then OnReleased(p, count, used) else Close(p, cut).(reader := NoReader)
    case ReaderFlush =>
      SpawnConnect(if ok then p.(toServer := Finish(p.toServer), retained := [], reader := NoReader)
                   else Close(p, cut).(reader := NoReader))
  }

  function OnProcessReadFails(p: Proxy): Proxy {
    if p.closed then p.(reader := NoReader)
    else if p.retained == [] then SpawnConnect(StartFlush(p, Reader)).(reader := NoReader)
    else StartFlush(p, Reader).(reader := ReaderFlush)
  }

  // ---------------------------------------------------------------- steps and runs

  /** The reader's write can complete: it is the oldest under way on its socket, or it has no bytes. */
  predicate ReaderAtFront(p: Proxy) {
    match p.reader
    case Injecting(h) =>
      InjectionAtFront(if h.kind == FROM_CLIENT_TO_SERVER then p.toServer else p.toClient, h.newData)
    case Releasing(count, used) => (count == 0 && used == 0) || RelayAtFront(p.toServer, Reader)
    case ReaderFlush => RelayAtFront(p.toServer, Reader)
    case _ => false
  }

  predicate ReaderCanFinish(p: Proxy, ok: bool) {
    && (ok ==> p.closed || ReaderAtFront(p))
    && match p.reader
       case Injecting(h) => ok ==> VerdictFits(p, h)
       case Releasing(count, used) => InRange(p.retained, count, used) && (!ok ==> p.closed || count > 0 || used > 0)
       case ReaderFlush => true
       case _ => false
  }

  /** The greeting of the current connection is under way. */
  predicate GreetingUnderWay(p: Proxy) {
    p.reader == Greeting || Greeting in p.others
  }

  /** A read yields bytes, or the end of the stream, or both. After a close, a write may still be
      seen to complete, or to fail. A greeting aborted by a reset ends before the next connection is
      up. */
  predicate Enabled(p: Proxy, e: Event) {
    match e
    case ClientTop(_) => p.client == LoopTop
    case ClientReadFails(_) => p.client == ReadingDirect || p.client == ReadingRetained
    case DirectRead(data, eof) => p.client == ReadingDirect && (eof || data != [])
    case RetainedRead(data, eof) => p.client == ReadingRetained && (eof || data != [])
    case ProcessWrite(ok) => p.client.WritingProcess? && (ok ==> p.client.sent && !GreetingUnderWay(p))
    case ClientWriteDone(ok, _) =>
      (p.client.WritingServer? || p.client == ClientFlush) && (ok ==> p.closed || RelayAtFront(p.toServer, ClientLoop))
    case ServerTop(_) => p.server == ServerLoopTop
    case HeadSent => p.server == SendingHead
    case ServerReadFails(_) => p.server == ReadingServer
    case ServerRead(data, eof) => p.server == ReadingServer && (eof || data != [])
    case ServerWriteDone(ok, _) => p.server.WritingClient? && (ok ==> p.closed || RelayAtFront(p.toClient, ServerLoop))
    case Connected => p.connecting && !p.closed && !GreetingUnderWay(p)
    case Greeted(_) => p.reader == Greeting
    case HeadRead(h, _) => p.reader == Reading && (h.newData == [] ==> VerdictFits(p, h))
    case ReaderWriteDone(ok, _) => ReaderCanFinish(p, ok)
    case ProcessReadFails => p.reader == Reading
    case Turn(k) => k < |p.others|
  }

  function Step(p: Proxy, e: Event): Proxy
    requires Enabled(p, e)
  {
    match e
    case ClientTop(cut) => OnClientTop(p, cut)
    case ClientReadFails(cut) => Close(p, cut).(client := ClientDone)
    case DirectRead(data, eof) => OnDirectRead(p, data, eof)
    case RetainedRead(data, eof) => OnRetainedRead(p, data, eof)
    case ProcessWrite(ok) => OnProcessWrite(p, ok)
    case ClientWriteDone(ok, cut) => OnClientWriteDone(p, ok, cut)
    case ServerTop(cut) => OnServerTop(p, cut)
    case HeadSent => p.(server := ReadingServer)
    case ServerReadFails(cut) => Close(p, cut).(server := ServerDone)
    case ServerRead(data, eof) => OnServerRead(p, data, eof)
    case ServerWriteDone(ok, cut) => OnServerWriteDone(p, ok, cut)
    case Connected => OnConnected(p)
    case Greeted(ok) => OnGreeted(p, ok)
    case HeadRead(h, cut) => OnHeadRead(p, h, cut)
    case ReaderWriteDone(ok, cut) => OnReaderWriteDone(p, ok, cut)
    case ProcessReadFails => OnProcessReadFails(p)
    case Turn(k) => OnTurn(p, k)
  }

  /** What an event makes the proxy write to the handler. */
  function FramesSent(p: Proxy, e: Event): seq<Frame> {
    if p.closed || !p.usable then []
    else match e
      case RetainedRead(data, _) => if data == [] then [] else [Frame(FROM_CLIENT_TO_SERVER, data)]
      case ServerTop(_) => if p.eof || p.bypass then [] else [Frame(FROM_SERVER_TO_CLIENT, [])]
      case _ => []
  }
}
