/** What the state of a session owes to the events so far: that the ends of streams and the bytes read
    are recorded, when the session is connected to its handler, reconnecting or bypassing it, and what
    each loop waits for next. The histories are functions of the events, not of the steps' bodies. */
module History {
  import opened Wire
  import opened Retention
  import opened Outputs
  import opened ProxyMachine
  import opened Transparency
  import opened Closing
  import opened Readers

  // ---------------------------------------------------------------- reads

  /** A read that saw the end of a peer's stream. */
  predicate CarriesEnd(e: Event) {
    (e.DirectRead? || e.RetainedRead? || e.ServerRead?) && e.eof
  }

  /** Bytes that a read of the client, or of the server, yielded. */
  function FromClient(e: Event): seq<Byte> {
    if e.DirectRead? || e.RetainedRead? then e.data else []
  }

  function FromServer(e: Event): seq<Byte> {
    if e.ServerRead? then e.data else []
  }

  function ClientBytes(es: seq<Event>): seq<Byte> {
    if es == [] then [] else ClientBytes(Front(es)) + FromClient(Last(es))
  }

  function ServerBytes(es: seq<Event>): seq<Byte> {
    if es == [] then [] else ServerBytes(Front(es)) + FromServer(Last(es))
  }

  /** The three fields that record reads. */
  predicate Records(p: Proxy, q: Proxy, e: Event) {
    && (q.eof <==> p.eof || CarriesEnd(e))
    && q.input == p.input + FromClient(e) && q.fromServer == p.fromServer + FromServer(e)
  }

  /** Nothing was read. */
  predicate SameReads(p: Proxy, q: Proxy) {
    q.eof == p.eof && q.input == p.input && q.fromServer == p.fromServer
  }

  lemma VerdictReadsNothing(p: Proxy, h: Head, cut: Cut)
    requires VerdictFits(p, h)
    ensures SameReads(p, OnVerdict(p, h, cut))
  {
  }

  lemma ReaderWriteReadsNothing(p: Proxy, ok: bool, cut: Cut)
    requires ReaderCanFinish(p, ok)
    ensures SameReads(p, OnReaderWriteDone(p, ok, cut))
  {
    if ok && p.reader.Injecting? { VerdictReadsNothing(InjectionSent(p, p.reader.head), p.reader.head, cut); }
  }

  lemma DirectReadIsRecorded(p: Proxy, data: seq<Byte>, eof: bool)
    ensures Records(p, OnDirectRead(p, data, eof), DirectRead(data, eof))
  {
  }

  lemma RetainedReadIsRecorded(p: Proxy, data: seq<Byte>, eof: bool)
    ensures Records(p, OnRetainedRead(p, data, eof), RetainedRead(data, eof))
  {
  }

  lemma ServerReadIsRecorded(p: Proxy, data: seq<Byte>, eof: bool)
    ensures Records(p, OnServerRead(p, data, eof), ServerRead(data, eof))
  {
  }

  lemma ProcessWriteReadsNothing(p: Proxy, ok: bool)
    ensures SameReads(p, OnProcessWrite(p, ok))
  {
  }

  lemma ReadFailsReadsNothing(p: Proxy)
    ensures SameReads(p, OnProcessReadFails(p))
  {
  }

  lemma ClientWriteReadsNothing(p: Proxy, ok: bool, cut: Cut)
    ensures SameReads(p, OnClientWriteDone(p, ok, cut))
  {
  }

  lemma ServerWriteReadsNothing(p: Proxy, ok: bool, cut: Cut)
    ensures SameReads(p, OnServerWriteDone(p, ok, cut))
  {
  }

  lemma HeadReadsNothing(p: Proxy, h: Head, cut: Cut)
    requires h.newData == [] ==> VerdictFits(p, h)
    ensures SameReads(p, OnHeadRead(p, h, cut))
  {
    if h.newData == [] { VerdictReadsNothing(p, h, cut); }
  }

  lemma StepRecords(p: Proxy, e: Event)
    requires Enabled(p, e)
    ensures Records(p, Step(p, e), e)
  {
    match e {
      case DirectRead(data, eof) => DirectReadIsRecorded(p, data, eof);
      case RetainedRead(data, eof) => RetainedReadIsRecorded(p, data, eof);
      case ServerRead(data, eof) => ServerReadIsRecorded(p, data, eof);
      case ProcessWrite(ok) => ProcessWriteReadsNothing(p, ok);
      case ClientWriteDone(ok, cut) => ClientWriteReadsNothing(p, ok, cut);
      case ServerWriteDone(ok, cut) => ServerWriteReadsNothing(p, ok, cut);
      case ProcessReadFails => ReadFailsReadsNothing(p);
      case HeadRead(h, cut) => HeadReadsNothing(p, h, cut);
      case ReaderWriteDone(ok, cut) => ReaderWriteReadsNothing(p, ok, cut);
      case _ =>
    }
  }

  /** Some read of the run saw the end. */
  predicate EndSeen(es: seq<Event>) {
    exists i :: 0 <= i < |es| && CarriesEnd(es[i])
  }

  lemma EndSeenFromFront(es: seq<Event>)
    requires es != []
    ensures EndSeen(es) <==> EndSeen(Front(es)) || CarriesEnd(Last(es))
  {
    if EndSeen(Front(es)) {
      var i :| 0 <= i < |es| - 1 && CarriesEnd(Front(es)[i]);
      assert CarriesEnd(es[i]);
    }
    if EndSeen(es) {
      var i :| 0 <= i < |es| && CarriesEnd(es[i]);
      assert i < |es| - 1 ==> CarriesEnd(Front(es)[i]);
    }
  }

  /** Reads are recorded over every run: the inputs are exactly the bytes that the reads yielded, and the
      end is noted exactly if some read of either peer saw it. */
  lemma {:induction false} ReadsAreRecorded(es: seq<Event>)
    requires EnabledRun(START, es)
    ensures var p := RunEvents(START, es);
            && p.input == ClientBytes(es) && p.fromServer == ServerBytes(es)
            && (p.eof <==> EndSeen(es))
    decreases |es|
  {
    if es != [] {
      RunIsFrontThenLast(START, es);
      ReadsAreRecorded(Front(es));
      EndSeenFromFront(es);
      StepRecords(RunEvents(START, Front(es)), Last(es));
    }
  }

  /** So from then on the next loop that comes to its top closes the session, and before that neither
      loop does there. */
  lemma TopClosesIffEndWasSeen(es: seq<Event>, e: Event)
    requires EnabledRun(START, es) && Enabled(RunEvents(START, es), e) && !RunEvents(START, es).closed
    requires e.ClientTop? || e.ServerTop?
    ensures Step(RunEvents(START, es), e).closed <==> EndSeen(es)
  {
    ReadsAreRecorded(es);
    ClosesIff(RunEvents(START, es), e);
  }

  // ---------------------------------------------------------------- the connection to the handler

  /** A reader starts to reconnect: its read fails and nothing is retained, or its flush is over, well
      or badly. */
  predicate ReaderReconnects(p: Proxy, e: Event) {
    (e == ProcessReadFails && !p.closed && p.retained == []) || (p.reader == ReaderFlush && e.ReaderWriteDone?)
  }

  predicate Reconnects(p: Proxy, e: Event) {
    ClientLoopReconnects(p, e) || ReaderReconnects(p, e)
  }

  /** A loop finds out that the handler is lost. */
  predicate FindsLoss(p: Proxy, e: Event) {
    e == ProcessWrite(false) || (e == ProcessReadFails && !p.closed)
  }

  /** A verdict to pass a request is acted on: read without new data, or its new data is out. */
  predicate TakesPass(p: Proxy, e: Event) {
    || (e.HeadRead? && e.head.newData == [] && IsRequestPass(e.head))
    || (e.ReaderWriteDone? && e.ok && p.reader.Injecting? && IsRequestPass(p.reader.head))
  }

  predicate IsRequestPass(h: Head) {
    h.kind == FROM_CLIENT_TO_SERVER && h.act != BLOCK
  }

  /** What an event does to the connection: nothing but a new connection ends reconnecting and bypass;
      a loss found starts bypass and ends the use of the socket. */
  predicate ConnectionFollows(p: Proxy, q: Proxy, e: Event) {
    && (q.connecting <==> e != Connected && (p.connecting || Reconnects(p, e)))
    && (q.bypass <==> e != Connected && (p.bypass || FindsLoss(p, e)))
    && (q.usable <==> e == Connected
                      || (p.usable && !FindsLoss(p, e) && e != Greeted(false) && (Reconnects(p, e) ==> p.connecting)))
  }

  /** And to the counter: starting to reconnect resets it, once; only a pass moves it. */
  predicate CounterFollows(p: Proxy, q: Proxy, e: Event) {
    if Reconnects(p, e) && !p.connecting then q.handled == 0 && q.released == []
    else TakesPass(p, e) || (q.handled == p.handled && q.released == p.released)
  }

  predicate HandlerFollows(p: Proxy, q: Proxy, e: Event) {
    ConnectionFollows(p, q, e) && CounterFollows(p, q, e)
  }

  /** Neither connection nor counter changed. */
  predicate SameConnection(p: Proxy, q: Proxy) {
    && q.connecting == p.connecting && q.bypass == p.bypass && q.usable == p.usable
    && q.handled == p.handled && q.released == p.released
  }

  lemma VerdictFollows(p: Proxy, h: Head, cut: Cut)
    requires VerdictFits(p, h)
    ensures var q := OnVerdict(p, h, cut);
            && q.connecting == p.connecting && q.bypass == p.bypass && q.usable == p.usable
            && (!IsRequestPass(h) ==> SameConnection(p, q))
  {
  }

  lemma HeadFollows(p: Proxy, h: Head, cut: Cut)
    requires Enabled(p, HeadRead(h, cut))
    ensures HandlerFollows(p, OnHeadRead(p, h, cut), HeadRead(h, cut))
  {
    if h.newData == [] { VerdictFollows(p, h, cut); }
  }

  lemma InjectionFollows(p: Proxy, h: DirectedHead, cut: Cut)
    requires Enabled(p, ReaderWriteDone(true, cut)) && p.reader == Injecting(h)
    ensures HandlerFollows(p, OnReaderWriteDone(p, true, cut), ReaderWriteDone(true, cut))
  {
    VerdictFollows(InjectionSent(p, h), h, cut);
  }

  lemma ReaderFlushFollows(p: Proxy, ok: bool, cut: Cut)
    requires Enabled(p, ReaderWriteDone(ok, cut)) && p.reader == ReaderFlush
    ensures HandlerFollows(p, OnReaderWriteDone(p, ok, cut), ReaderWriteDone(ok, cut))
  {
  }

  lemma ReleaseKeepsConnection(p: Proxy, ok: bool, cut: Cut)
    requires Enabled(p, ReaderWriteDone(ok, cut)) && p.reader != ReaderFlush && (ok ==> !p.reader.Injecting?)
    ensures SameConnection(p, OnReaderWriteDone(p, ok, cut))
  {
  }

  lemma NoPassFollows(p: Proxy, q: Proxy, ok: bool, cut: Cut)
    requires SameConnection(p, q) && p.reader != ReaderFlush
    ensures HandlerFollows(p, q, ReaderWriteDone(ok, cut))
  {
  }

  lemma ReadFailsFollows(p: Proxy)
    requires p.reader == Reading
    ensures HandlerFollows(p, OnProcessReadFails(p), ProcessReadFails)
  {
  }

  lemma ProcessWriteFollows(p: Proxy, ok: bool)
    requires p.client.WritingProcess?
    ensures HandlerFollows(p, OnProcessWrite(p, ok), ProcessWrite(ok))
  {
  }

  lemma ClientWriteFollows(p: Proxy, ok: bool, cut: Cut)
    requires p.client.WritingServer? || p.client == ClientFlush
    ensures HandlerFollows(p, OnClientWriteDone(p, ok, cut), ClientWriteDone(ok, cut))
  {
  }

  lemma DirectReadKeepsConnection(p: Proxy, data: seq<Byte>, eof: bool)
    ensures SameConnection(p, OnDirectRead(p, data, eof))
  {
  }

  lemma RetainedReadKeepsConnection(p: Proxy, data: seq<Byte>, eof: bool)
    ensures SameConnection(p, OnRetainedRead(p, data, eof))
  {
  }

  lemma ServerReadKeepsConnection(p: Proxy, data: seq<Byte>, eof: bool)
    ensures SameConnection(p, OnServerRead(p, data, eof))
  {
  }

  lemma ServerWriteKeepsConnection(p: Proxy, ok: bool, cut: Cut)
    ensures SameConnection(p, OnServerWriteDone(p, ok, cut))
  {
  }

  /** The events of the server loop, the reads of the client loop, and its top. */
  predicate IsQuiet(e: Event) {
    e.ClientTop? || e.ClientReadFails? || e.DirectRead? || e.RetainedRead? || e.ServerTop? || e.HeadSent?
    || e.ServerReadFails? || e.ServerRead? || e.ServerWriteDone? || e.Turn? || e == Greeted(true)
  }

  lemma QuietStep(p: Proxy, e: Event)
    requires Enabled(p, e) && IsQuiet(e)
    ensures SameConnection(p, Step(p, e))
  {
    match e {
      case DirectRead(data, eof) => DirectReadKeepsConnection(p, data, eof);
      case RetainedRead(data, eof) => RetainedReadKeepsConnection(p, data, eof);
      case ServerRead(data, eof) => ServerReadKeepsConnection(p, data, eof);
      case ServerWriteDone(ok, cut) => ServerWriteKeepsConnection(p, ok, cut);
      case _ =>
    }
  }

  lemma QuietFollows(p: Proxy, q: Proxy, e: Event)
    requires SameConnection(p, q) && IsQuiet(e)
    ensures HandlerFollows(p, q, e)
  {
  }

  lemma ReaderWriteFollows(p: Proxy, ok: bool, cut: Cut)
    requires Enabled(p, ReaderWriteDone(ok, cut))
    ensures HandlerFollows(p, OnReaderWriteDone(p, ok, cut), ReaderWriteDone(ok, cut))
  {
    if p.reader == ReaderFlush {
      ReaderFlushFollows(p, ok, cut);
    } else if ok && p.reader.Injecting? {
      InjectionFollows(p, p.reader.head, cut);
    } else {
      ReleaseKeepsConnection(p, ok, cut);
      NoPassFollows(p, OnReaderWriteDone(p, ok, cut), ok, cut);
    }
  }

  /** One event, in any state: reconnecting starts exactly when a loop that found the handler lost has
      nothing, or nothing more, to flush; bypass, the use of the socket and the counter follow. */
  lemma StepFollows(p: Proxy, e: Event)
    requires Enabled(p, e)
    ensures HandlerFollows(p, Step(p, e), e)
  {
    if IsQuiet(e) {
      QuietStep(p, e);
      QuietFollows(p, Step(p, e), e);
    } else {
      match e {
        case ProcessWrite(ok) => ProcessWriteFollows(p, ok);
        case ClientWriteDone(ok, cut) => ClientWriteFollows(p, ok, cut);
        case ProcessReadFails => ReadFailsFollows(p);
        case HeadRead(h, cut) => HeadFollows(p, h, cut);
        case ReaderWriteDone(ok, cut) => ReaderWriteFollows(p, ok, cut);
        case _ =>
      }
    }
  }

  // ---------------------------------------------------------------- bypass and connection over whole runs

  /** Since the last connection, or the beginning if there was none, the handler was missing or found
      lost. */
  predicate Bypassing(es: seq<Event>) {
    if es == [] then true
    else if Last(es) == Connected then false
    else Last(es) == ProcessWrite(false) || Last(es) == ProcessReadFails || Bypassing(Front(es))
  }

  lemma OpenBefore(es: seq<Event>)
    requires es != [] && EnabledRun(START, es) && !RunEvents(START, es).closed
    ensures EnabledRun(START, Front(es)) && !RunEvents(START, Front(es)).closed
  {
    RunIsFrontThenLast(START, es);
    if RunEvents(START, Front(es)).closed { ClosedStep(RunEvents(START, Front(es)), Last(es)); }
  }

  /** Of every run that leaves the session open: it bypasses the handler exactly if that was not
      connected yet, or was found lost after the last connection. */
  lemma {:induction false} BypassesExactlyWithoutHandler(es: seq<Event>)
    requires EnabledRun(START, es) && !RunEvents(START, es).closed
    ensures RunEvents(START, es).bypass <==> Bypassing(es)
    decreases |es|
  {
    if es != [] {
      OpenBefore(es);
      RunIsFrontThenLast(START, es);
      BypassesExactlyWithoutHandler(Front(es));
      StepFollows(RunEvents(START, Front(es)), Last(es));
    }
  }

  predicate FlushUnderWay(p: Proxy) {
    p.client == ClientFlush || p.reader == ReaderFlush || ReaderFlush in p.others
  }

  /** The greeting of the last connection failed. */
  predicate GreetingFailed(es: seq<Event>) {
    es != [] && Last(es) != Connected && (Last(es) == Greeted(false) || GreetingFailed(Front(es)))
  }

  lemma LossIsFlushed(p: Proxy, e: Event)
    requires Enabled(p, e) && FindsLoss(p, e) && !Reconnects(p, e)
    ensures FlushUnderWay(Step(p, e))
  {
  }

  lemma ClientFlushStays(p: Proxy, e: Event)
    requires Enabled(p, e) && p.client == ClientFlush && !e.ClientWriteDone?
    ensures Step(p, e).client == ClientFlush
  {
    match e {
      case HeadRead(h, cut) => HeadKeepsLoops(p, h, cut);
      case ReaderWriteDone(ok, cut) => ReaderWriteKeepsLoops(p, ok, cut);
      case _ =>
    }
  }

  /** The reader leaves both loops where they are. */
  predicate SameLoops(p: Proxy, q: Proxy) {
    q.client == p.client && q.server == p.server
  }

  lemma VerdictKeepsLoops(p: Proxy, h: Head, cut: Cut)
    requires VerdictFits(p, h)
    ensures SameLoops(p, OnVerdict(p, h, cut))
  {
  }

  lemma HeadKeepsLoops(p: Proxy, h: Head, cut: Cut)
    requires h.newData == [] ==> VerdictFits(p, h)
    ensures SameLoops(p, OnHeadRead(p, h, cut))
  {
    if h.newData == [] { VerdictKeepsLoops(p, h, cut); }
  }

  lemma ReaderWriteKeepsLoops(p: Proxy, ok: bool, cut: Cut)
    requires ReaderCanFinish(p, ok)
    ensures SameLoops(p, OnReaderWriteDone(p, ok, cut))
  {
    if ok && p.reader.Injecting? { VerdictKeepsLoops(InjectionSent(p, p.reader.head), p.reader.head, cut); }
  }

  lemma ReaderFlushStays(p: Proxy, e: Event)
    requires Enabled(p, e) && (p.reader == ReaderFlush || ReaderFlush in p.others)
    requires !e.ReaderWriteDone? || p.reader != ReaderFlush
    ensures Step(p, e).reader == ReaderFlush || ReaderFlush in Step(p, e).others
  {
    if e.Turn? {
      TurnKeepsReader(p, e.k, ReaderFlush);
    } else if e.HeadRead? {
      if e.head.newData == [] { VerdictStartsNone(p, e.head, e.cut); }
    } else if e.ReaderWriteDone? {
      ReaderWriteStartsNone(p, e.ok, e.cut);
    } else if e.ProcessReadFails? {
      ReadFailsStartsNone(p);
    } else if !e.Connected? && !e.Greeted? {
      LoopsStartNone(p, e);
    }
  }

  lemma TurnKeepsReader(p: Proxy, k: nat, r: ReaderAt)
    requires k < |p.others| && (p.reader == r || r in p.others)
    ensures OnTurn(p, k).reader == r || r in OnTurn(p, k).others
  {
    if p.reader == r {
      assert p.others[k := p.reader][k] == r;
    } else {
      var i :| 0 <= i < |p.others| && p.others[i] == r;
      if i != k { assert p.others[k := p.reader][i] == r; }
    }
  }

  /** Attended: with the handler, or about to be. */
  predicate Attended(p: Proxy) {
    p.usable || p.connecting || FlushUnderWay(p)
  }

  lemma FlushStays(p: Proxy, e: Event)
    requires Enabled(p, e) && FlushUnderWay(p) && !Reconnects(p, e) && !Step(p, e).closed
    ensures FlushUnderWay(Step(p, e))
  {
    if p.client == ClientFlush {
      ClientFlushStays(p, e);
    } else {
      ReaderFlushStays(p, e);
    }
  }

  lemma StaysAttended(p: Proxy, e: Event)
    requires Enabled(p, e) && Attended(p) && !Step(p, e).closed
    ensures Attended(Step(p, e)) || e == Greeted(false)
  {
    StepFollows(p, e);
    if !Reconnects(p, e) {
      if FindsLoss(p, e) {
        LossIsFlushed(p, e);
      } else if FlushUnderWay(p) {
        FlushStays(p, e);
      }
    }
  }

  lemma BecomesAttended(p: Proxy, e: Event)
    requires Enabled(p, e) && e == Connected
    ensures Attended(Step(p, e))
  {
  }

  /** The handler is never given up: in every open state of every run, the session is connected to it,
      or reconnecting, or flushing on the way to that, unless the last thing it did for it was a
      greeting that failed. */
  lemma {:induction false} HandlerIsNeverGivenUp(es: seq<Event>)
    requires EnabledRun(START, es) && !RunEvents(START, es).closed
    ensures Attended(RunEvents(START, es)) || GreetingFailed(es)
    decreases |es|
  {
    if es != [] {
      OpenBefore(es);
      RunIsFrontThenLast(START, es);
      HandlerIsNeverGivenUp(Front(es));
      var p, e := RunEvents(START, Front(es)), Last(es);
      if e == Connected {
        BecomesAttended(p, e);
      } else if Attended(p) {
        StaysAttended(p, e);
      }
    }
  }

  /** And after such a greeting it is the client loop that finds out: its next framed write cannot
      succeed. A framed write can succeed exactly if it starts on a socket in use and no greeting is
      in front of it. */
  lemma FramedWriteCanSucceedIff(p: Proxy, data: seq<Byte>, eof: bool)
    requires Enabled(p, RetainedRead(data, eof)) && data != []
    ensures Enabled(Step(p, RetainedRead(data, eof)), ProcessWrite(false))
    ensures Enabled(Step(p, RetainedRead(data, eof)), ProcessWrite(true)) <==> p.usable && !p.closed && !GreetingUnderWay(p)
  {
  }

  // ---------------------------------------------------------------- what each loop does next

  /** What a loop can be waiting for. */
  datatype Wait =
    | Flags        // nothing: it is about to look at the flags
    | PeerRead     // a read to relay directly
    | BlockRead    // a read to retain
    | HandlerWrite // its write to the handler
    | PeerWrite    // its write to a peer

  /** The client loop waits for this, as its events show. */
  predicate ClientWaits(p: Proxy, w: Wait) {
    match w
    case Flags => Enabled(p, ClientTop(Cut(0, 0)))
    case PeerRead => Enabled(p, DirectRead([], true))
    case BlockRead => Enabled(p, RetainedRead([], true))
    case HandlerWrite => Enabled(p, ProcessWrite(false))
    case PeerWrite => Enabled(p, ClientWriteDone(false, Cut(0, 0)))
  }

  predicate ServerWaits(p: Proxy, w: Wait) {
    match w
    case Flags => Enabled(p, ServerTop(Cut(0, 0)))
    case PeerRead => Enabled(p, ServerRead([], true))
    case BlockRead => false
    case HandlerWrite => Enabled(p, HeadSent)
    case PeerWrite => Enabled(p, ServerWriteDone(false, Cut(0, 0)))
  }

  predicate OfClientLoop(e: Event) {
    e.ClientTop? || e.ClientReadFails? || e.DirectRead? || e.RetainedRead? || e.ProcessWrite? || e.ClientWriteDone?
  }

  predicate OfServerLoop(e: Event) {
    e.ServerTop? || e.HeadSent? || e.ServerReadFails? || e.ServerRead? || e.ServerWriteDone?
  }

  /** What the loop waits for after one of its own events. */
  predicate ClientGoesOn(p: Proxy, e: Event, w: Wait)
    requires OfClientLoop(e)
  {
    match e
    case ClientTop(_) => !p.eof && w == if p.bypass then PeerRead else BlockRead
    case ClientReadFails(_) => false
    case DirectRead(data, _) => w == if data == [] then Flags else PeerWrite
    case RetainedRead(data, _) => w == if data == [] then Flags else HandlerWrite
    case ProcessWrite(ok) => w == if ok || p.retained == [] then Flags else PeerWrite
    case ClientWriteDone(ok, _) => ok && w == Flags
  }

  predicate ServerGoesOn(p: Proxy, e: Event, w: Wait)
    requires OfServerLoop(e)
  {
    match e
    case ServerTop(_) => !p.eof && w == if p.bypass then PeerRead else HandlerWrite
    case HeadSent => w == PeerRead
    case ServerReadFails(_) => false
    case ServerRead(data, _) => w == if data == [] then Flags else PeerWrite
    case ServerWriteDone(ok, _) => ok && w == Flags
  }

  lemma OthersKeepClient(p: Proxy, e: Event)
    requires Enabled(p, e) && !OfClientLoop(e)
    ensures Step(p, e).client == p.client || (p.client.WritingProcess? && Step(p, e).client.WritingProcess?)
  {
    match e {
      case HeadRead(h, cut) => HeadKeepsLoops(p, h, cut);
      case ReaderWriteDone(ok, cut) => ReaderWriteKeepsLoops(p, ok, cut);
      case _ =>
    }
  }

  /** The wait that a place of the client loop stands for. */
  predicate ClientPlaceWaits(c: ClientAt, w: Wait) {
    match c
    case LoopTop => w == Flags
    case ReadingDirect => w == PeerRead
    case ReadingRetained => w == BlockRead
    case WritingProcess(_) => w == HandlerWrite
    case ClientDone => false
    case _ => w == PeerWrite
  }

  lemma ClientWaitsByPlace(p: Proxy, w: Wait)
    ensures ClientWaits(p, w) <==> ClientPlaceWaits(p.client, w)
  {
  }

  lemma ClientTopOrder(p: Proxy, cut: Cut, w: Wait)
    ensures ClientPlaceWaits(OnClientTop(p, cut).client, w) <==> ClientGoesOn(p, ClientTop(cut), w)
  {
  }

  lemma DirectReadOrder(p: Proxy, data: seq<Byte>, eof: bool, w: Wait)
    ensures ClientPlaceWaits(OnDirectRead(p, data, eof).client, w) <==> ClientGoesOn(p, DirectRead(data, eof), w)
  {
  }

  lemma RetainedReadOrder(p: Proxy, data: seq<Byte>, eof: bool, w: Wait)
    ensures ClientPlaceWaits(OnRetainedRead(p, data, eof).client, w) <==> ClientGoesOn(p, RetainedRead(data, eof), w)
  {
  }

  lemma ProcessWriteOrder(p: Proxy, ok: bool, w: Wait)
    ensures ClientPlaceWaits(OnProcessWrite(p, ok).client, w) <==> ClientGoesOn(p, ProcessWrite(ok), w)
  {
  }

  lemma ClientWriteOrder(p: Proxy, ok: bool, cut: Cut, w: Wait)
    ensures ClientPlaceWaits(OnClientWriteDone(p, ok, cut).client, w) <==> ClientGoesOn(p, ClientWriteDone(ok, cut), w)
  {
  }

  lemma ClientOwnOrder(p: Proxy, e: Event, w: Wait)
    requires Enabled(p, e) && OfClientLoop(e)
    ensures ClientPlaceWaits(Step(p, e).client, w) <==> ClientGoesOn(p, e, w)
  {
    match e {
      case ClientTop(cut) => ClientTopOrder(p, cut, w);
      case ClientReadFails(_) =>
      case DirectRead(data, eof) => DirectReadOrder(p, data, eof, w);
      case RetainedRead(data, eof) => RetainedReadOrder(p, data, eof, w);
      case ProcessWrite(ok) => ProcessWriteOrder(p, ok, w);
      case ClientWriteDone(ok, cut) => ClientWriteOrder(p, ok, cut, w);
    }
  }

  lemma SamePlaceWaits(c: ClientAt, d: ClientAt, w: Wait)
    requires d == c || (c.WritingProcess? && d.WritingProcess?)
    ensures ClientPlaceWaits(d, w) <==> ClientPlaceWaits(c, w)
  {
  }

  lemma OthersKeepClientWaits(p: Proxy, e: Event, w: Wait)
    requires Enabled(p, e) && !OfClientLoop(e)
    ensures ClientPlaceWaits(Step(p, e).client, w) <==> ClientPlaceWaits(p.client, w)
  {
    OthersKeepClient(p, e);
    SamePlaceWaits(p.client, Step(p, e).client, w);
  }

  lemma ClientOrder(p: Proxy, e: Event, w: Wait)
    requires Enabled(p, e)
    ensures ClientWaits(Step(p, e), w) <==> if OfClientLoop(e) then ClientGoesOn(p, e, w) else ClientWaits(p, w)
  {
    ClientWaitsByPlace(Step(p, e), w);
    ClientWaitsByPlace(p, w);
    if OfClientLoop(e) { ClientOwnOrder(p, e, w); } else { OthersKeepClientWaits(p, e, w); }
  }

  lemma OthersKeepServer(p: Proxy, e: Event)
    requires Enabled(p, e) && !OfServerLoop(e)
    ensures Step(p, e).server == p.server
  {
    match e {
      case HeadRead(h, cut) => HeadKeepsLoops(p, h, cut);
      case ReaderWriteDone(ok, cut) => ReaderWriteKeepsLoops(p, ok, cut);
      case _ =>
    }
  }

  predicate ServerPlaceWaits(c: ServerAt, w: Wait) {
    match c
    case ServerLoopTop => w == Flags
    case SendingHead => w == HandlerWrite
    case ReadingServer => w == PeerRead
    case WritingClient(_) => w == PeerWrite
    case ServerDone => false
  }

  lemma ServerWaitsByPlace(p: Proxy, w: Wait)
    ensures ServerWaits(p, w) <==> ServerPlaceWaits(p.server, w)
  {
  }

  lemma ServerReadOrder(p: Proxy, data: seq<Byte>, eof: bool, w: Wait)
    ensures ServerPlaceWaits(OnServerRead(p, data, eof).server, w) <==> ServerGoesOn(p, ServerRead(data, eof), w)
  {
  }

  lemma ServerOwnOrder(p: Proxy, e: Event, w: Wait)
    requires Enabled(p, e) && OfServerLoop(e)
    ensures ServerPlaceWaits(Step(p, e).server, w) <==> ServerGoesOn(p, e, w)
  {
    if e.ServerRead? { ServerReadOrder(p, e.data, e.eof, w); }
  }

  lemma ServerOrder(p: Proxy, e: Event, w: Wait)
    requires Enabled(p, e)
    ensures ServerWaits(Step(p, e), w) <==> if OfServerLoop(e) then ServerGoesOn(p, e, w) else ServerWaits(p, w)
  {
    ServerWaitsByPlace(Step(p, e), w);
    ServerWaitsByPlace(p, w);
    if OfServerLoop(e) { ServerOwnOrder(p, e, w); } else { OthersKeepServer(p, e); }
  }

  /** What the last event of a loop in a run lets it wait for; at first, both look at the flags. */
  predicate ClientIsDue(es: seq<Event>, w: Wait)
    requires EnabledRun(START, es)
    decreases |es|
  {
    if es == [] then w == Flags
    else
      RunIsFrontThenLast(START, es);
      if OfClientLoop(Last(es)) then ClientGoesOn(RunEvents(START, Front(es)), Last(es), w) else ClientIsDue(Front(es), w)
  }

  predicate ServerIsDue(es: seq<Event>, w: Wait)
    requires EnabledRun(START, es)
    decreases |es|
  {
    if es == [] then w == Flags
    else
      RunIsFrontThenLast(START, es);
      if OfServerLoop(Last(es)) then ServerGoesOn(RunEvents(START, Front(es)), Last(es), w) else ServerIsDue(Front(es), w)
  }

  /** Program order over every run: whatever the other coroutines do in between, each loop is ready for
      exactly what its own last event leads to. */
  lemma {:induction false} LoopsGoInOrder(es: seq<Event>, w: Wait)
    requires EnabledRun(START, es)
    ensures ClientWaits(RunEvents(START, es), w) <==> ClientIsDue(es, w)
    ensures ServerWaits(RunEvents(START, es), w) <==> ServerIsDue(es, w)
    decreases |es|
  {
    if es != [] {
      RunIsFrontThenLast(START, es);
      LoopsGoInOrder(Front(es), w);
      ClientOrder(RunEvents(START, Front(es)), Last(es), w);
      ServerOrder(RunEvents(START, Front(es)), Last(es), w);
    }
  }

  /** A wait ends with whatever the awaited read or write yields: any bytes, with or without the end of
      the stream, and a write that is the oldest under way can succeed. */
  lemma WaitsTakeAnything(p: Proxy, data: seq<Byte>, eof: bool, cut: Cut)
    requires eof || data != []
    ensures Enabled(p, DirectRead(data, eof)) <==> ClientWaits(p, PeerRead)
    ensures Enabled(p, RetainedRead(data, eof)) <==> ClientWaits(p, BlockRead)
    ensures Enabled(p, ServerRead(data, eof)) <==> ServerWaits(p, PeerRead)
    ensures Enabled(p, ClientReadFails(cut)) <==> ClientWaits(p, PeerRead) || ClientWaits(p, BlockRead)
    ensures Enabled(p, ServerReadFails(cut)) <==> ServerWaits(p, PeerRead)
    ensures Enabled(p, ClientWriteDone(true, cut))
            <==> ClientWaits(p, PeerWrite) && (p.closed || RelayAtFront(p.toServer, ClientLoop))
    ensures Enabled(p, ServerWriteDone(true, cut))
            <==> ServerWaits(p, PeerWrite) && (p.closed || RelayAtFront(p.toClient, ServerLoop))
  {
  }

  /** A frame goes to the handler exactly where a loop then waits for that write, on a socket in use:
      the packet just read, or the empty head before a read of the server. */
  lemma FramesAreSentIff(p: Proxy, e: Event)
    requires Enabled(p, e) && !p.closed && p.usable
    ensures OfClientLoop(e) ==>
      FramesSent(p, e) == (if ClientWaits(Step(p, e), HandlerWrite) then [Frame(FROM_CLIENT_TO_SERVER, FromClient(e))] else [])
    ensures OfServerLoop(e) ==>
      FramesSent(p, e) == (if ServerWaits(Step(p, e), HandlerWrite) then [Frame(FROM_SERVER_TO_CLIENT, [])] else [])
    ensures !OfClientLoop(e) && !OfServerLoop(e) ==> FramesSent(p, e) == []
  {
    if OfClientLoop(e) {
      ClientOrder(p, e, HandlerWrite);
    } else if OfServerLoop(e) {
      ServerOrder(p, e, HandlerWrite);
    }
  }
}
