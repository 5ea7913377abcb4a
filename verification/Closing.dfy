/** What is under way on the two peers' sockets in every reachable state, and so what a close makes
    of it: closing the sockets cuts the writes under way, whoever started them. */
module Closing {
  import opened Wire
  import opened Retention
  import opened Outputs
  import opened ProxyMachine
  import opened Transparency

  // ---------------------------------------------------------------- the writes under way

  /** The client loop's write to the server. */
  function ClientPart(p: Proxy): seq<Chunk> {
    if p.client.WritingServer? then [Relayed(ClientLoop, p.client.data)]
    else if p.client == ClientFlush then [Relayed(ClientLoop, Concat(p.retained))]
    else []
  }

  /** What a reader relays to the server. */
  function RelayOf(ps: seq<Packet>, r: ReaderAt): seq<Chunk> {
    if r == ReaderFlush then [Relayed(Reader, Concat(ps))]
    else if r.Releasing? && r != Releasing(0, 0) && InRange(ps, r.count, r.used)
    then [Relayed(Reader, Concat(Released(ps, r.count, r.used)))]
    else []
  }

  /** The relay of the busy reader. */
  function ReaderPart(p: Proxy): seq<Chunk> {
    RelayOf(p.retained, Busy(p))
  }

  function ServerPart(p: Proxy): seq<Chunk> {
    if p.server.WritingClient? then [Relayed(ServerLoop, p.server.data)] else []
  }

  predicate EitherOrder(queue: seq<Chunk>, a: seq<Chunk>, b: seq<Chunk>) {
    queue == a + b || queue == b + a
  }

  /** Of the peers' own bytes, each loop that waits for a write has exactly that write under way, and a
      relay started during a reader's flush is behind it. */
  predicate UnderWayToServer(p: Proxy) {
    && EitherOrder(OnlyRelayed(p.toServer.queue), ReaderPart(p), ClientPart(p))
    && (Busy(p) == ReaderFlush ==> OnlyRelayed(p.toServer.queue) == ReaderPart(p) + ClientPart(p))
    && (p.client.WritingServer? ==> p.client.data != [])
  }

  predicate UnderWayToClient(p: Proxy) {
    && OnlyRelayed(p.toClient.queue) == ServerPart(p)
    && (p.server.WritingClient? ==> p.server.data != [])
  }

  predicate UnderWay(p: Proxy) {
    if p.closed then p.toServer.queue == [] && p.toClient.queue == []
    else UnderWayToServer(p) && UnderWayToClient(p)
  }

  // ---------------------------------------------------------------- every step keeps track of them

  /** No relay was started or completed. */
  lemma NothingStarted(p: Proxy, q: Proxy)
    requires UnderWay(p) && !p.closed && !q.closed
    requires OnlyRelayed(q.toServer.queue) == OnlyRelayed(p.toServer.queue)
    requires OnlyRelayed(q.toClient.queue) == OnlyRelayed(p.toClient.queue)
    requires ReaderPart(q) == ReaderPart(p) && ClientPart(q) == ClientPart(p) && ServerPart(q) == ServerPart(p)
    requires Busy(q) == ReaderFlush ==> Busy(p) == ReaderFlush
    requires (q.client.WritingServer? ==> q.client == p.client) && (q.server.WritingClient? ==> q.server == p.server)
    ensures UnderWay(q)
  {
  }

  lemma ClientLoopStarts(p: Proxy, q: Proxy, c: Chunk)
    requires UnderWay(p) && !p.closed && c.Relayed? && c.data != [] && ClientPart(p) == [] && ClientPart(q) == [c]
    requires !q.closed && q.toServer == Begin(p.toServer, c) && q.toClient == p.toClient
    requires q.server == p.server && ReaderPart(q) == ReaderPart(p) && Busy(q) == Busy(p)
    ensures UnderWay(q)
  {
    StartRelays(p.toServer, c);
    assert OnlyRelayed(q.toServer.queue) == ReaderPart(q) + ClientPart(q);
  }

  lemma ReaderStarts(p: Proxy, q: Proxy, c: Chunk)
    requires UnderWay(p) && !p.closed && c.Relayed? && c.data != [] && ReaderPart(p) == [] && ReaderPart(q) == [c]
    requires !q.closed && q.toServer == Begin(p.toServer, c) && q.toClient == p.toClient
    requires q.client == p.client && q.server == p.server && ClientPart(q) == ClientPart(p)
    requires Busy(q) == ReaderFlush ==> ClientPart(p) == []
    ensures UnderWay(q)
  {
    StartRelays(p.toServer, c);
    assert OnlyRelayed(q.toServer.queue) == ClientPart(q) + ReaderPart(q);
  }

  /** The front relay is the one that completes. */
  lemma FrontDone(queue: seq<Chunk>, c: Chunk, other: seq<Chunk>)
    requires EitherOrder(queue, other, [c]) && |other| <= 1
    requires other == [] || queue[0] != other[0]
    ensures queue[0] == c && queue[1..] == other
  {
  }

  lemma DirectReadKeepsUnderWay(p: Proxy, data: seq<Byte>, eof: bool)
    requires UnderWay(p) && !p.closed && p.client == ReadingDirect
    ensures UnderWay(OnDirectRead(p, data, eof))
  {
    if data == [] {
      NothingStarted(p, OnDirectRead(p, data, eof));
    } else {
      ClientLoopStarts(p, OnDirectRead(p, data, eof), Relayed(ClientLoop, data));
    }
  }

  lemma RetainedReadKeepsUnderWay(p: Proxy, data: seq<Byte>, eof: bool)
    requires UnderWay(p) && !p.closed && OneRelease(p) && p.client == ReadingRetained
    requires data != [] ==> Busy(p) != ReaderFlush
    ensures UnderWay(OnRetainedRead(p, data, eof))
  {
    var q := OnRetainedRead(p, data, eof);
    if data != [] && Busy(p).Releasing? {
      AppendsCommuteWithClear(p.retained, [data], Busy(p).count, Busy(p).used);
    }
    NothingStarted(p, q);
  }

  lemma ProcessWriteKeepsUnderWay(p: Proxy, ok: bool)
    requires UnderWay(p) && !p.closed && OneRelease(p) && p.client.WritingProcess?
    requires !ok ==> !Releases(p)
    ensures UnderWay(OnProcessWrite(p, ok))
  {
    var q := OnProcessWrite(p, ok);
    if ok || p.retained == [] {
      NothingStarted(p, q);
    } else {
      ConcatNonEmpty(p.retained);
      ClientLoopStarts(p, q, Relayed(ClientLoop, Concat(p.retained)));
    }
  }

  lemma RelayDoneKeepsUnderWay(p: Proxy)
    requires UnderWay(p) && !p.closed && p.client.WritingServer? && RelayAtFront(p.toServer, ClientLoop)
    ensures UnderWay(OnClientWriteDone(p, true, Cut(0, 0)))
  {
    var q := OnClientWriteDone(p, true, Cut(0, 0));
    FinishRelays(p.toServer);
    FrontDone(OnlyRelayed(p.toServer.queue), ClientPart(p)[0], ReaderPart(p));
    assert ReaderPart(q) == ReaderPart(p) && ClientPart(q) == [];
  }

  lemma ClientFlushedKeepsUnderWay(p: Proxy)
    requires UnderWay(p) && !p.closed && OneRelease(p) && p.client == ClientFlush && RelayAtFront(p.toServer, ClientLoop)
    ensures UnderWay(OnClientWriteDone(p, true, Cut(0, 0)))
  {
    var q := OnClientWriteDone(p, true, Cut(0, 0));
    FinishRelays(p.toServer);
    FrontDone(OnlyRelayed(p.toServer.queue), ClientPart(p)[0], ReaderPart(p));
    assert ReaderPart(q) == ReaderPart(p) == [] && ClientPart(q) == [];
  }

  lemma ServerReadKeepsUnderWay(p: Proxy, data: seq<Byte>, eof: bool)
    requires UnderWay(p) && !p.closed && p.server == ReadingServer
    ensures UnderWay(OnServerRead(p, data, eof))
  {
    var q := OnServerRead(p, data, eof);
    if data == [] {
      NothingStarted(p, q);
    } else {
      StartRelays(p.toClient, Relayed(ServerLoop, data));
      assert UnderWayToServer(q);
    }
  }

  lemma ServerWriteDoneKeepsUnderWay(p: Proxy)
    requires UnderWay(p) && !p.closed && p.server.WritingClient? && RelayAtFront(p.toClient, ServerLoop)
    ensures UnderWay(OnServerWriteDone(p, true, Cut(0, 0)))
  {
    FinishRelays(p.toClient);
    assert UnderWayToServer(OnServerWriteDone(p, true, Cut(0, 0)));
  }

  lemma VerdictKeepsUnderWay(p: Proxy, h: Head, cut: Cut)
    requires UnderWay(p) && !p.closed && OneRelease(p) && (p.reader == Reading || p.reader.Injecting?)
    requires VerdictFits(p, h) && PassIsExclusive(p, h)
    ensures UnderWay(OnVerdict(p, h, cut))
  {
    if h.act != BLOCK {
      if h.kind == FROM_CLIENT_TO_SERVER {
        PassKeepsUnderWay(p, h);
      } else {
        NothingStarted(p, OnVerdict(p, h, cut));
      }
    }
  }

  lemma EmptyPassKeepsUnderWay(p: Proxy, q: Proxy)
    requires UnderWay(p) && !p.closed && (p.reader == Reading || p.reader.Injecting?)
    requires q == p.(handled := q.handled, released := q.released, reader := Releasing(0, 0))
    ensures UnderWay(q)
  {
    NothingStarted(p, q);
  }

  lemma ReleaseKeepsUnderWay(p: Proxy, q: Proxy, count: nat, used: nat)
    requires UnderWay(p) && !p.closed && OneRelease(p) && !Releases(p) && InRange(p.retained, count, used) && (count > 0 || used > 0)
    requires q == p.(handled := q.handled, released := q.released, toServer := q.toServer, reader := Releasing(count, used))
    requires q.toServer == Begin(p.toServer, Relayed(Reader, Concat(Released(p.retained, count, used))))
    ensures UnderWay(q)
  {
    ReleasedSome(p.retained, count, used);
    ReaderStarts(p, q, Relayed(Reader, Concat(Released(p.retained, count, used))));
  }

  lemma PassKeepsUnderWay(p: Proxy, h: Head)
    requires UnderWay(p) && !p.closed && OneRelease(p) && (p.reader == Reading || p.reader.Injecting?)
    requires Fits(p.retained, p.handled, h.handled) && (Releases(p) ==> ReleasesNothing(p, h))
    ensures UnderWay(OnPass(p, h.handled))
  {
    var q, r := OnPass(p, h.handled), PrepareWrapping(p.retained, p.handled, h.handled);
    if r.count == 0 && r.used == 0 {
      assert Concat(Released(p.retained, 0, 0)) == [];
      EmptyPassKeepsUnderWay(p, q);
    } else {
      ReleaseKeepsUnderWay(p, q, r.count, r.used);
    }
  }

  /** New data is not a relay. */
  lemma InjectionStarts(p: Proxy, q: Proxy, h: DirectedHead)
    requires UnderWay(p) && !p.closed && p.reader == Reading
    requires q == p.(toServer := q.toServer, toClient := q.toClient, reader := Injecting(h))
    requires OnlyRelayed(q.toServer.queue) == OnlyRelayed(p.toServer.queue)
    requires OnlyRelayed(q.toClient.queue) == OnlyRelayed(p.toClient.queue)
    ensures UnderWay(q)
  {
    NothingStarted(p, q);
  }

  lemma InjectingKeepsUnderWay(p: Proxy, h: Head, cut: Cut)
    requires UnderWay(p) && !p.closed && p.reader == Reading && h.newData != [] && Directed(h)
    ensures UnderWay(OnHeadRead(p, h, cut))
  {
    if h.kind == FROM_CLIENT_TO_SERVER {
      StartRelays(p.toServer, Injected(h.newData));
    } else {
      StartRelays(p.toClient, Injected(h.newData));
    }
    InjectionStarts(p, OnHeadRead(p, h, cut), h);
  }

  lemma HeadReadKeepsUnderWay(p: Proxy, h: Head, cut: Cut)
    requires UnderWay(p) && !p.closed && OneRelease(p) && p.reader == Reading
    requires h.newData == [] ==> VerdictFits(p, h) && PassIsExclusive(p, h)
    ensures UnderWay(OnHeadRead(p, h, cut))
  {
    if Directed(h) {
      if h.newData == [] { VerdictKeepsUnderWay(p, h, cut); } else { InjectingKeepsUnderWay(p, h, cut); }
    }
  }

  lemma InjectionSentKeepsUnderWay(p: Proxy, h: DirectedHead)
    requires UnderWay(p) && !p.closed && p.reader == Injecting(h) && ReaderAtFront(p)
    ensures UnderWay(InjectionSent(p, h))
  {
    if h.kind == FROM_CLIENT_TO_SERVER { FinishRelays(p.toServer); } else { FinishRelays(p.toClient); }
    NothingStarted(p, InjectionSent(p, h));
  }

  lemma InjectionSentKeepsRest(p: Proxy, h: DirectedHead)
    requires OneRelease(p) && VerdictFits(p, h) && PassIsExclusive(p, h)
    ensures var q := InjectionSent(p, h);
            OneRelease(q) && q.closed == p.closed && q.reader == p.reader && VerdictFits(q, h) && PassIsExclusive(q, h)
  {
  }

  lemma InjectedKeepsUnderWay(p: Proxy, h: DirectedHead, cut: Cut)
    requires UnderWay(p) && !p.closed && OneRelease(p) && p.reader == Injecting(h) && ReaderAtFront(p)
    requires VerdictFits(p, h) && PassIsExclusive(p, h)
    ensures UnderWay(OnVerdict(InjectionSent(p, h), h, cut))
  {
    InjectionSentKeepsUnderWay(p, h);
    InjectionSentKeepsRest(p, h);
    VerdictKeepsUnderWay(InjectionSent(p, h), h, cut);
  }

  lemma ReleasedKeepsUnderWay(p: Proxy, count: nat, used: nat)
    requires UnderWay(p) && !p.closed && OneRelease(p) && p.reader == Releasing(count, used) && ReaderAtFront(p)
    requires InRange(p.retained, count, used)
    ensures UnderWay(OnReleased(p, count, used))
  {
    var q := OnReleased(p, count, used);
    if count == 0 && used == 0 {
      NothingStarted(p, q);
    } else {
      FinishRelays(p.toServer);
      FrontDone(OnlyRelayed(p.toServer.queue), ReaderPart(p)[0], ClientPart(p));
      assert ReaderPart(q) == [] && ClientPart(q) == ClientPart(p);
    }
  }

  lemma ReaderFlushDoneKeepsUnderWay(p: Proxy)
    requires UnderWay(p) && !p.closed && OneRelease(p) && p.reader == ReaderFlush && ReaderAtFront(p)
    ensures UnderWay(SpawnConnect(p.(toServer := Finish(p.toServer), retained := [], reader := NoReader)))
  {
    FinishRelays(p.toServer);
    assert OnlyRelayed(p.toServer.queue)[1..] == ClientPart(p);
  }

  lemma ReaderWriteDoneKeepsUnderWay(p: Proxy, cut: Cut)
    requires UnderWay(p) && !p.closed && OneRelease(p) && ReaderCanFinish(p, true)
    requires p.reader.Injecting? ==> PassIsExclusive(p, p.reader.head)
    ensures UnderWay(OnReaderWriteDone(p, true, cut))
  {
    match p.reader {
      case Injecting(h) => InjectedKeepsUnderWay(p, h, cut);
      case Releasing(count, used) => ReleasedKeepsUnderWay(p, count, used);
      case ReaderFlush => ReaderFlushDoneKeepsUnderWay(p);
    }
  }

  lemma ProcessReadFailsKeepsUnderWay(p: Proxy)
    requires UnderWay(p) && !p.closed && OneRelease(p) && NoOvertaking(p) && p.reader == Reading
    requires !Releases(p)
    ensures UnderWay(OnProcessReadFails(p))
  {
    var q := OnProcessReadFails(p);
    if p.retained == [] {
      NothingStarted(p, q);
    } else {
      ConcatNonEmpty(p.retained);
      ReaderStarts(p, q, Relayed(Reader, Concat(p.retained)));
    }
  }

  lemma QuietKeepsUnderWay(p: Proxy)
    requires UnderWay(p) && !p.closed
    ensures p.client == LoopTop && !p.eof ==> UnderWay(OnClientTop(p, Cut(0, 0)))
    ensures p.server == ServerLoopTop && !p.eof ==> UnderWay(OnServerTop(p, Cut(0, 0)))
    ensures p.server == SendingHead ==> UnderWay(p.(server := ReadingServer))
  {
  }

  lemma ConnectedKeepsUnderWay(p: Proxy)
    requires UnderWay(p) && !p.closed && OneRelease(p)
    ensures UnderWay(OnConnected(p))
  {
    ConnectedKeepsBusy(p);
    NothingStarted(p, OnConnected(p));
  }

  lemma GreetedKeepsUnderWay(p: Proxy, ok: bool)
    requires UnderWay(p) && !p.closed && p.reader == Greeting
    ensures UnderWay(OnGreeted(p, ok))
  {
    NothingStarted(p, OnGreeted(p, ok));
  }

  lemma TurnKeepsUnderWay(p: Proxy, k: nat)
    requires UnderWay(p) && !p.closed && OneRelease(p) && k < |p.others|
    ensures UnderWay(OnTurn(p, k))
  {
    TurnKeepsBusy(p, k);
    NothingStarted(p, OnTurn(p, k));
  }

  lemma OpenReaderKeepsUnderWay(p: Proxy, e: Event)
    requires Inv(p) && UnderWay(p) && !p.closed && Enabled(p, e) && Exclusive(p, e) && !Closes(p, e)
    requires e.Connected? || e.Greeted? || e.HeadRead? || e.ReaderWriteDone? || e.ProcessReadFails? || e.Turn?
    ensures UnderWay(Step(p, e))
  {
    match e {
      case Connected => ConnectedKeepsUnderWay(p);
      case Greeted(ok) => GreetedKeepsUnderWay(p, ok);
      case HeadRead(h, cut) => HeadReadKeepsUnderWay(p, h, cut);
      case ReaderWriteDone(ok, cut) => ReaderWriteDoneKeepsUnderWay(p, cut);
      case ProcessReadFails => ProcessReadFailsKeepsUnderWay(p);
      case Turn(k) => TurnKeepsUnderWay(p, k);
    }
  }

  lemma OpenLoopKeepsUnderWay(p: Proxy, e: Event)
    requires Inv(p) && UnderWay(p) && !p.closed && Enabled(p, e) && Exclusive(p, e) && !Closes(p, e)
    requires !e.Connected? && !e.Greeted? && !e.HeadRead? && !e.ReaderWriteDone? && !e.ProcessReadFails? && !e.Turn?
    ensures UnderWay(Step(p, e))
  {
    match e {
      case ClientTop(cut) => QuietKeepsUnderWay(p);
      case DirectRead(data, eof) => DirectReadKeepsUnderWay(p, data, eof);
      case RetainedRead(data, eof) => RetainedReadKeepsUnderWay(p, data, eof);
      case ProcessWrite(ok) => ProcessWriteKeepsUnderWay(p, ok);
      case ClientWriteDone(ok, cut) =>
        if p.client == ClientFlush { ClientFlushedKeepsUnderWay(p); } else { RelayDoneKeepsUnderWay(p); }
      case ServerTop(cut) => QuietKeepsUnderWay(p);
      case HeadSent => QuietKeepsUnderWay(p);
      case ServerRead(data, eof) => ServerReadKeepsUnderWay(p, data, eof);
      case ServerWriteDone(ok, cut) => ServerWriteDoneKeepsUnderWay(p);
    }
  }

  /** The cut of an event that can close the session. */
  function CutOf(e: Event): Cut {
    match e
    case ClientTop(cut) => cut
    case ClientReadFails(cut) => cut
    case ClientWriteDone(_, cut) => cut
    case ServerTop(cut) => cut
    case ServerReadFails(cut) => cut
    case ServerWriteDone(_, cut) => cut
    case HeadRead(_, cut) => cut
    case ReaderWriteDone(_, cut) => cut
    case _ => Cut(0, 0)
  }

  /** The session as the close finds it: new data announced with a block verdict is out by then. */
  function AtClose(p: Proxy, e: Event): Proxy {
    if e.ReaderWriteDone? && e.ok && p.reader.Injecting? then InjectionSent(p, p.reader.head) else p
  }

  /** The sockets of `q` are those of `p`, shut. */
  predicate ShutAs(p: Proxy, q: Proxy, cut: Cut) {
    && q.toServer == Shut(p.toServer, cut.server) && q.toClient == Shut(p.toClient, cut.client)
    && q.input == p.input && q.fromServer == p.fromServer
  }

  lemma VerdictShuts(p: Proxy, h: Head, cut: Cut)
    requires !p.closed && VerdictFits(p, h) && h.act == BLOCK
    ensures OnVerdict(p, h, cut).closed && ShutAs(p, OnVerdict(p, h, cut), cut)
  {
  }

  lemma ReaderWriteShuts(p: Proxy, ok: bool, cut: Cut)
    requires !p.closed && ReaderCanFinish(p, ok)
    requires !ok || (p.reader.Injecting? && p.reader.head.act == BLOCK)
    ensures var q := OnReaderWriteDone(p, ok, cut);
            q.closed && ShutAs(AtClose(p, ReaderWriteDone(ok, cut)), q, cut)
  {
    if !ok {
      assert ShutAs(p, Close(p, cut), cut);
    } else {
      VerdictShuts(InjectionSent(p, p.reader.head), p.reader.head, cut);
    }
  }

  /** The events that close the session: the end of a stream seen at the top of a loop, a failed read
      or write of a peer, and a block verdict, acted on once its new data is out. */
  predicate Closes(p: Proxy, e: Event) {
    match e
    case ClientTop(_) => p.eof
    case ClientReadFails(_) => true
    case ClientWriteDone(ok, _) => !ok
    case ServerTop(_) => p.eof
    case ServerReadFails(_) => true
    case ServerWriteDone(ok, _) => !ok
    case HeadRead(h, _) => Directed(h) && h.newData == [] && h.act == BLOCK
    case ReaderWriteDone(ok, _) => !ok || (p.reader.Injecting? && p.reader.head.act == BLOCK)
    case _ => false
  }

  lemma CloseShuts(p: Proxy, cut: Cut)
    requires !p.closed
    ensures Close(p, cut).closed && ShutAs(p, Close(p, cut), cut)
  {
  }

  /** Whatever closes the session shuts both sockets. */
  lemma ClosingShuts(p: Proxy, e: Event)
    requires !p.closed && Enabled(p, e) && Closes(p, e)
    ensures Step(p, e).closed && ShutAs(AtClose(p, e), Step(p, e), CutOf(e))
  {
    CloseShuts(p, CutOf(e));
    match e {
      case HeadRead(h, cut) => VerdictShuts(p, h, cut);
      case ReaderWriteDone(ok, cut) => ReaderWriteShuts(p, ok, cut);
      case ClientTop(_) =>
      case ClientReadFails(_) =>
      case ClientWriteDone(_, _) =>
      case ServerTop(_) =>
      case ServerReadFails(_) =>
      case ServerWriteDone(_, _) =>
    }
  }

  lemma HeadStaysOpen(p: Proxy, h: Head, cut: Cut)
    requires !p.closed && (h.newData == [] ==> VerdictFits(p, h)) && !Closes(p, HeadRead(h, cut))
    ensures !OnHeadRead(p, h, cut).closed
  {
    if Directed(h) && h.newData == [] { VerdictStaysOpen(p, h, cut); }
  }

  lemma VerdictStaysOpen(p: Proxy, h: Head, cut: Cut)
    requires !p.closed && VerdictFits(p, h) && h.act != BLOCK
    ensures !OnVerdict(p, h, cut).closed
  {
  }

  lemma ReaderWriteStaysOpen(p: Proxy, cut: Cut)
    requires !p.closed && ReaderCanFinish(p, true) && !Closes(p, ReaderWriteDone(true, cut))
    ensures !OnReaderWriteDone(p, true, cut).closed
  {
    if p.reader.Injecting? { VerdictStaysOpen(InjectionSent(p, p.reader.head), p.reader.head, cut); }
  }

  /** Nothing else closes it. */
  lemma ClosesIff(p: Proxy, e: Event)
    requires !p.closed && Enabled(p, e)
    ensures Step(p, e).closed <==> Closes(p, e)
  {
    if Closes(p, e) {
      ClosingShuts(p, e);
    } else {
      match e {
        case HeadRead(h, cut) => HeadStaysOpen(p, h, cut);
        case ReaderWriteDone(ok, cut) => ReaderWriteStaysOpen(p, cut);
        case _ =>
      }
    }
  }

  /** Every event keeps track of what is under way; on a closed session nothing is. */
  lemma StepKeepsUnderWay(p: Proxy, e: Event)
    requires Inv(p) && UnderWay(p) && Enabled(p, e)
    requires !p.closed ==> Exclusive(p, e)
    ensures UnderWay(Step(p, e))
  {
    if p.closed {
      ClosedStep(p, e);
    } else if Closes(p, e) {
      ClosingShuts(p, e);
    } else if e.Connected? || e.Greeted? || e.HeadRead? || e.ReaderWriteDone? || e.ProcessReadFails? || e.Turn? {
      OpenReaderKeepsUnderWay(p, e);
    } else {
      OpenLoopKeepsUnderWay(p, e);
    }
  }

  // ---------------------------------------------------------------- what a close delivers

  /** The direct relay under way. */
  function DirectData(p: Proxy): seq<Byte> {
    if p.client.WritingServer? then p.client.data else []
  }

  /** The relay to the client under way. */
  function ResponseData(p: Proxy): seq<Byte> {
    if p.server.WritingClient? then p.server.data else []
  }

  lemma QueueErases(queue: seq<Chunk>, a: seq<Chunk>, b: seq<Chunk>)
    requires EitherOrder(OnlyRelayed(queue), a, b)
    ensures Erase(queue) == Erase(a) + Erase(b) || Erase(queue) == Erase(b) + Erase(a)
    ensures OnlyRelayed(queue) == a + b ==> Erase(queue) == Erase(a) + Erase(b)
  {
    ErasedIsRelayed(queue);
    EraseAppend(a, b);
    EraseAppend(b, a);
  }

  lemma PartsErase(p: Proxy)
    ensures Erase(ClientPart(p)) == if p.client == ClientFlush then Concat(p.retained) else DirectData(p)
    ensures Busy(p) == ReaderFlush ==> Erase(ReaderPart(p)) == Concat(p.retained)
    ensures Busy(p).Releasing? && InRange(p.retained, Busy(p).count, Busy(p).used) ==>
      Erase(ReaderPart(p)) == Concat(Released(p.retained, Busy(p).count, Busy(p).used))
    ensures Busy(p) == NoReader ==> Erase(ReaderPart(p)) == []
  {
    if ClientPart(p) != [] { EraseOne(ClientPart(p)[0]); }
    if ReaderPart(p) != [] { EraseOne(ReaderPart(p)[0]); }
  }

  /** Writes `a` and `b` and the `rest` that no write covers: `b` is a direct relay, or a flush of
      everything. */
  lemma SumOfWrites(queue: seq<Byte>, a: seq<Byte>, b: seq<Byte>, rest: seq<Byte>, all: seq<Byte>, direct: seq<Byte>)
    requires queue == a + b || queue == b + a
    requires (b == direct && a + rest == all) || (direct == [] && a == [] && b == all && rest == [])
    requires direct != [] ==> all == [] || (rest == [] && queue == a + b)
    ensures queue + rest == all + direct
  {
    if direct != [] && all == [] { assert a == [] && rest == []; }
  }

  /** What the reader's write covers and what none covers. */
  lemma ReaderPartErases(p: Proxy)
    requires OneRelease(p)
    ensures p.client != ClientFlush ==> Erase(ReaderPart(p)) + Concat(Unsent(p)) == Concat(p.retained)
    ensures p.client == ClientFlush ==> Erase(ReaderPart(p)) == Concat(Unsent(p)) == []
  {
    PartsErase(p);
    if Busy(p).Releasing? { SplitConserves(p.retained, Busy(p).count, Busy(p).used); }
  }

  /** In bytes: what a write covers and what is still to be written make up the deque and the relay. */
  lemma OutstandingErases(p: Proxy)
    requires OneRelease(p) && NoOvertaking(p) && UnderWay(p) && !p.closed
    ensures Erase(p.toServer.queue) + Concat(Unsent(p)) == Concat(p.retained) + DirectData(p)
  {
    QueueErases(p.toServer.queue, ReaderPart(p), ClientPart(p));
    PartsErase(p);
    ReaderPartErases(p);
    SumOfWrites(Erase(p.toServer.queue), Erase(ReaderPart(p)), Erase(ClientPart(p)),
                Concat(Unsent(p)), Concat(p.retained), DirectData(p));
  }

  /** In every open state of a guarded run, what has reached the server, then the deque, then a direct
      relay under way, are the bytes read from the client. */
  lemma ArrivedThenRetained(p: Proxy)
    requires Inv(p) && UnderWay(p) && !p.closed
    ensures Arrived(p.toServer) + (Concat(p.retained) + DirectData(p)) == p.input
  {
    OutstandingErases(p);
    Assoc(Arrived(p.toServer), Erase(p.toServer.queue), Concat(Unsent(p)));
  }

  lemma ArrivedAtClient(p: Proxy)
    requires Inv(p) && UnderWay(p) && !p.closed
    ensures Erase(p.toClient.queue) == ResponseData(p)
    ensures Arrived(p.toClient) + ResponseData(p) == p.fromServer
  {
    ErasedIsRelayed(p.toClient.queue);
    if ServerPart(p) != [] { EraseOne(ServerPart(p)[0]); }
  }

  /** New data that went out takes nothing of the peers' bytes with it. */
  lemma InjectionAtClose(p: Proxy, e: Event)
    requires UnderWay(p) && !p.closed && Enabled(p, e)
    ensures var s := AtClose(p, e);
            && Arrived(s.toServer) == Arrived(p.toServer) && Erase(s.toServer.queue) == Erase(p.toServer.queue)
            && Arrived(s.toClient) == Arrived(p.toClient) && Erase(s.toClient.queue) == Erase(p.toClient.queue)
  {
    if e.ReaderWriteDone? && e.ok && p.reader.Injecting? {
      var h := p.reader.head;
      if h.kind == FROM_CLIENT_TO_SERVER { InjectionErasesNothing(p.toServer); } else { InjectionErasesNothing(p.toClient); }
    }
  }

  lemma InjectionErasesNothing(o: Out)
    requires o.queue != [] && o.queue[0].Injected?
    ensures Arrived(Finish(o)) == Arrived(o) && Erase(Finish(o).queue) == Erase(o.queue)
  {
    EraseAppend(o.sent, [o.queue[0]]);
    EraseOne(o.queue[0]);
  }

  /** What a close leaves is what had arrived, and some of what was under way. */
  lemma ClosingOutcome(p: Proxy, e: Event)
    requires UnderWay(p) && !p.closed && Enabled(p, e) && Closes(p, e)
    ensures Erase(p.toServer.queue) == [] || CutOf(e) == Cut(0, 0) ==> Arrived(Step(p, e).toServer) == Arrived(p.toServer)
    ensures Erase(p.toClient.queue) == [] || CutOf(e) == Cut(0, 0) ==> Arrived(Step(p, e).toClient) == Arrived(p.toClient)
  {
    var s := AtClose(p, e);
    InjectionAtClose(p, e);
    ClosingShuts(p, e);
    ShutErases(s.toServer, CutOf(e).server);
    ShutErases(s.toClient, CutOf(e).client);
  }

  /** The same event with another cut. */
  function WithCut(e: Event, cut: Cut): Event {
    match e
    case ClientTop(_) => ClientTop(cut)
    case ClientReadFails(_) => ClientReadFails(cut)
    case ClientWriteDone(ok, _) => ClientWriteDone(ok, cut)
    case ServerTop(_) => ServerTop(cut)
    case ServerReadFails(_) => ServerReadFails(cut)
    case ServerWriteDone(ok, _) => ServerWriteDone(ok, cut)
    case HeadRead(h, _) => HeadRead(h, cut)
    case ReaderWriteDone(ok, _) => ReaderWriteDone(ok, cut)
    case _ => e
  }

  lemma AnyCut(p: Proxy, e: Event, cut: Cut)
    requires Enabled(p, e) && Closes(p, e)
    ensures Enabled(p, WithCut(e, cut)) && Closes(p, WithCut(e, cut)) && CutOf(WithCut(e, cut)) == cut
  {
  }

  /** The exact condition for a close to lose nothing, whatever closes the session: however much of
      the writes under way gets out, the server ends up with everything the client sent if and only
      if the deque is empty and no direct relay is under way; and the client ends up with everything
      the server sent if and only if no relay to it is under way. */
  lemma CloseDeliversIffNothingHeld(p: Proxy, e: Event)
    requires Inv(p) && UnderWay(p) && !p.closed && Enabled(p, e) && Closes(p, e)
    ensures forall cut :: Enabled(p, WithCut(e, cut)) && Step(p, WithCut(e, cut)).closed
    ensures (forall cut :: Arrived(Step(p, WithCut(e, cut)).toServer) == p.input)
            <==> p.retained == [] && !p.client.WritingServer?
    ensures (forall cut :: Arrived(Step(p, WithCut(e, cut)).toClient) == p.fromServer)
            <==> !p.server.WritingClient?
  {
    forall cut
      ensures Enabled(p, WithCut(e, cut)) && Step(p, WithCut(e, cut)).closed
      ensures Erase(p.toServer.queue) == [] ==> Arrived(Step(p, WithCut(e, cut)).toServer) == Arrived(p.toServer)
      ensures Erase(p.toClient.queue) == [] ==> Arrived(Step(p, WithCut(e, cut)).toClient) == Arrived(p.toClient)
    {
      AnyCut(p, e, cut);
      ClosesIff(p, WithCut(e, cut));
      ClosingOutcome(p, WithCut(e, cut));
    }
    var none := WithCut(e, Cut(0, 0));
    AnyCut(p, e, Cut(0, 0));
    ClosingOutcome(p, none);
    HeldBytes(p);
    ArrivedAtClient(p);
    assert Arrived(Step(p, none).toServer) == Arrived(p.toServer);
    assert Arrived(Step(p, none).toClient) == Arrived(p.toClient);
  }

  /** What is held is empty exactly if everything has arrived. */
  lemma HeldBytes(p: Proxy)
    requires Inv(p) && UnderWay(p) && !p.closed
    ensures Arrived(p.toServer) == p.input <==> p.retained == [] && !p.client.WritingServer?
    ensures p.retained == [] && !p.client.WritingServer? ==> Erase(p.toServer.queue) == []
  {
    ArrivedThenRetained(p);
    OutstandingErases(p);
    ConcatNonEmpty(p.retained);
  }

  /** The client loop closes the session as soon as it sees the end of a stream: nothing is lost in
      any case if and only if nothing was waiting for an acknowledgement or being released. */
  lemma EofDeliversIffNothingRetained(p: Proxy)
    requires Inv(p) && UnderWay(p) && !p.closed && p.client == LoopTop && p.eof
    ensures forall cut :: Step(p, ClientTop(cut)).closed
    ensures (forall cut :: Arrived(Step(p, ClientTop(cut)).toServer) == p.input) <==> p.retained == []
  {
    CloseDeliversIffNothingHeld(p, ClientTop(Cut(0, 0)));
    forall cut
      ensures ClientTop(cut) == WithCut(ClientTop(Cut(0, 0)), cut)
    {
    }
  }

  // ---------------------------------------------------------------- whole runs

  lemma {:induction false} RunKeepsUnderWay(p: Proxy, es: seq<Event>)
    requires Inv(p) && UnderWay(p) && EnabledRun(p, es) && GuardedRun(p, es)
    ensures Inv(RunEvents(p, es)) && UnderWay(RunEvents(p, es))
    decreases |es|
  {
    if es != [] {
      StepKeepsInv(p, es[0]);
      StepKeepsUnderWay(p, es[0]);
      RunKeepsUnderWay(Step(p, es[0]), es[1..]);
    }
  }

  /** Transparency over whole guarded runs, with any handler, any failures and any schedule: while the
      session is open, what has reached the server, then the retained packets, then a direct relay
      under way, are exactly the bytes read from the client; a direct relay finds the deque empty or
      being flushed ahead of it; and even after a close both outputs are prefixes of the inputs. */
  lemma ServerSeesClientBytes(es: seq<Event>)
    requires EnabledRun(START, es) && GuardedRun(START, es)
    ensures var p := RunEvents(START, es);
            && Arrived(p.toServer) <= p.input && Arrived(p.toClient) <= p.fromServer
            && (!p.closed ==>
                  && Arrived(p.toServer) + (Concat(p.retained) + DirectData(p)) == p.input
                  && Arrived(p.toClient) + ResponseData(p) == p.fromServer
                  && (RelayingDirectly(p) ==> p.retained == [] || Busy(p) == ReaderFlush)
                  && (p.bypass ==> p.retained == [] || Flushing(p) || p.client == WritingProcess(false)))
  {
    StartHolds();
    RunKeepsUnderWay(START, es);
    var p := RunEvents(START, es);
    if !p.closed {
      ArrivedThenRetained(p);
      ArrivedAtClient(p);
    }
  }

  /** And so over whole runs: of the events that can end a run, none loses anything of what the client
      sent, whatever it cuts, if and only if the deque is empty and no direct relay is under way; and
      nothing of what the server sent if and only if no relay to the client is. */
  lemma RunDeliversIffNothingHeld(es: seq<Event>, e: Event)
    requires EnabledRun(START, es) && GuardedRun(START, es)
    requires var p := RunEvents(START, es); !p.closed && Enabled(p, e) && Closes(p, e)
    ensures var p := RunEvents(START, es);
            && (forall cut :: Enabled(p, WithCut(e, cut)) && Step(p, WithCut(e, cut)).closed)
            && ((forall cut :: Arrived(Step(p, WithCut(e, cut)).toServer) == p.input)
                <==> p.retained == [] && !p.client.WritingServer?)
            && ((forall cut :: Arrived(Step(p, WithCut(e, cut)).toClient) == p.fromServer)
                <==> !p.server.WritingClient?)
  {
    StartHolds();
    RunKeepsUnderWay(START, es);
    CloseDeliversIffNothingHeld(RunEvents(START, es), e);
  }
}
