/** Whole runs of the two processes: what holds in every reachable state, and that a connection
    left alone delivers everything. */
module Delivery {
  import opened Wire
  import opened Retention
  import opened Outputs
  import opened ProxyMachine
  import opened Transparency
  import opened Closing
  import opened Verdicts
  import opened Handler
  import opened Protocol

  predicate PossibleMoves(s: System, ms: seq<Move>)
    decreases |ms|
  {
    ms == [] || (CanMove(s, ms[0]) && PossibleMoves(Next(s, ms[0]), ms[1..]))
  }

  function RunMoves(s: System, ms: seq<Move>): System
    requires PossibleMoves(s, ms)
    decreases |ms|
  {
    if ms == [] then s else RunMoves(Next(s, ms[0]), ms[1..])
  }

  /** Moves among which no two writes that release the deque overlap. */
  predicate GuardedMoves(s: System, ms: seq<Move>)
    requires PossibleMoves(s, ms)
    decreases |ms|
  {
    ms == [] || (ExclusiveMove(s, ms[0]) && GuardedMoves(Next(s, ms[0]), ms[1..]))
  }

  lemma VerdictKeepsInput(p: Proxy, h: Head, cut: Cut)
    requires VerdictFits(p, h)
    ensures OnVerdict(p, h, cut).input == p.input
  {
  }

  lemma ReaderWriteKeepsInput(p: Proxy, ok: bool, cut: Cut)
    requires ReaderCanFinish(p, ok)
    ensures OnReaderWriteDone(p, ok, cut).input == p.input
  {
    if ok && p.reader.Injecting? { VerdictKeepsInput(InjectionSent(p, p.reader.head), p.reader.head, cut); }
  }

  lemma ProcessWriteKeepsInput(p: Proxy, ok: bool)
    ensures OnProcessWrite(p, ok).input == p.input
  {
  }

  lemma ClientWriteKeepsInput(p: Proxy, ok: bool, cut: Cut)
    ensures OnClientWriteDone(p, ok, cut).input == p.input
  {
  }

  lemma ReadFailsKeepsInput(p: Proxy)
    ensures OnProcessReadFails(p).input == p.input
  {
  }

  lemma ServerReadKeepsInput(p: Proxy, data: seq<Byte>, eof: bool)
    ensures OnServerRead(p, data, eof).input == p.input
  {
  }

  lemma ServerWriteKeepsInput(p: Proxy, ok: bool, cut: Cut)
    ensures OnServerWriteDone(p, ok, cut).input == p.input
  {
  }

  lemma InputGrows(p: Proxy, e: Event)
    requires Enabled(p, e)
    ensures |p.input| <= |Step(p, e).input|
  {
    match e {
      case HeadRead(h, cut) => if h.newData == [] { VerdictKeepsInput(p, h, cut); }
      case ReaderWriteDone(ok, cut) => ReaderWriteKeepsInput(p, ok, cut);
      case ProcessWrite(ok) => ProcessWriteKeepsInput(p, ok);
      case ClientWriteDone(ok, cut) => ClientWriteKeepsInput(p, ok, cut);
      case ServerRead(data, eof) => ServerReadKeepsInput(p, data, eof);
      case ServerWriteDone(ok, cut) => ServerWriteKeepsInput(p, ok, cut);
      case ProcessReadFails => ReadFailsKeepsInput(p);
      case _ =>
    }
  }

  lemma {:induction false} RunInputGrows(s: System, ms: seq<Move>)
    requires PossibleMoves(s, ms)
    ensures |s.proxy.input| <= |RunMoves(s, ms).proxy.input|
    decreases |ms|
  {
    if ms != [] {
      var m := ms[0];
      if m.Local? || m.Deliver? { InputGrows(s.proxy, EventOf(s, m)); }
      RunInputGrows(Next(s, m), ms[1..]);
    }
  }

  lemma {:induction false} RunKeepsSystemInv(s: System, ms: seq<Move>)
    requires SystemInv(s) && PossibleMoves(s, ms) && GuardedMoves(s, ms) && |RunMoves(s, ms).proxy.input| < TWO64
    ensures SystemInv(RunMoves(s, ms))
    decreases |ms|
  {
    RunInputGrows(s, ms);
    if ms != [] {
      MoveKeepsInv(s, ms[0]);
      RunKeepsSystemInv(Next(s, ms[0]), ms[1..]);
    }
  }

  /** The client's packets are really on this connection: it is up, and the packet being written,
      if any, went to it. */
  predicate OnConnection(s: System) {
    !s.proxy.closed && s.proxy.usable && s.proxy.client != WritingProcess(false)
  }

  /** The counters and what is between the two processes add up. */
  predicate AccountsAgree(s: System) {
    var u, acks := Unsent(s.proxy), Acks(s.backward);
    && s.proxy.released + Concat(u) == s.peer.seen + Concat(Bodies(s.forward))
    && s.proxy.handled + |Concat(u)| == s.peer.req + |Concat(Bodies(s.forward))|
    && s.proxy.released <= s.peer.seen
    && |acks| <= |u|
    && (forall i :: 0 <= i < |acks| ==> acks[i] == s.proxy.handled + |Concat(u[..i + 1])|)
    && (forall i :: 0 <= i < |acks| ==> s.proxy.handled < acks[i] <= s.peer.req)
    && (forall i, j :: 0 <= i < j < |acks| ==> acks[i] < acks[j])
    && s.peer.req == if acks == [] then s.proxy.handled else acks[|acks| - 1]
  }

  /** Two-process accounting in every reachable connected state: the counters and what is between
      them add up, byte for byte; each pending acknowledgement is the proxy's counter plus the retained
      packets up to its own, so they rise strictly above that counter up to the handler's; and the
      proxy has released nothing that the handler has not seen. Where the connection is up but the
      packet being written went to the old socket, both counters are zero and no packet and no
      acknowledgement is between them. */
  lemma ConnectedAccounts(greeting: seq<Byte>, ms: seq<Move>)
    requires PossibleMoves(Start(greeting), ms) && GuardedMoves(Start(greeting), ms)
    requires |RunMoves(Start(greeting), ms).proxy.input| < TWO64
    ensures var s := RunMoves(Start(greeting), ms);
            && (OnConnection(s) ==> AccountsAgree(s))
            && (!s.proxy.closed && s.proxy.usable && !OnConnection(s) ==> NothingFramed(s))
  {
    StartsInOrder(greeting);
    RunKeepsSystemInv(Start(greeting), ms);
    InvMeansAccounts(RunMoves(Start(greeting), ms));
  }

  lemma StartsInOrder(greeting: seq<Byte>)
    ensures SystemInv(Start(greeting))
  {
    StartHolds();
  }

  lemma InvMeansAccounts(s: System)
    requires SystemInv(s)
    ensures OnConnection(s) ==> AccountsAgree(s)
    ensures !s.proxy.closed && s.proxy.usable && !OnConnection(s) ==> NothingFramed(s)
  {
    if OnConnection(s) { BooksAgree(s); }
  }

  lemma BooksAgree(s: System)
    requires Books(s) && OneRelease(s.proxy)
    ensures AccountsAgree(s)
  {
    UnsentNonEmpty(s.proxy);
    BooksMean(Unsent(s.proxy), s.proxy.handled, s.proxy.released,
              Bodies(s.forward), Acks(s.backward), s.peer.seen, s.peer.req);
  }

  lemma UnsentNonEmpty(p: Proxy)
    requires OneRelease(p)
    ensures NonEmpty(Unsent(p))
  {
    if p.reader.Releasing? { ClearNonEmpty(p.retained, p.reader.count, p.reader.used); }
  }

  lemma BooksMean(u: seq<Packet>, handled: nat, released: seq<Byte>,
                  bodies: seq<Packet>, acks: seq<nat>, seen: seq<Byte>, req: nat)
    requires Matched(u, handled, released, bodies, acks, seen, req) && NonEmpty(u)
    ensures released + Concat(u) == seen + Concat(bodies)
    ensures released <= seen
    ensures forall i, j :: 0 <= i < j < |acks| ==> acks[i] < acks[j]
    ensures forall i :: 0 <= i < |acks| ==> handled < acks[i] <= req
    ensures req == if acks == [] then handled else acks[|acks| - 1]
  {
    var n := |acks|;
    ConcatSplitAt(u, n);
    Assoc(released, Concat(u[..n]), Concat(bodies));
    forall i, j | 0 <= i < j < n
      ensures acks[i] < acks[j]
    {
      ConcatPrefixMonotone(u, i + 1, j + 1);
    }
    forall i | 0 <= i < n
      ensures handled < acks[i] <= req
    {
      ConcatPrefixMonotone(u, 0, i + 1);
      if i + 1 < n { ConcatPrefixMonotone(u, i + 1, n); }
    }
  }

  /** The shipped handler's acknowledgements always fit: on a connection the next answer can be
      taken, in particular its count is not below the proxy's counter; it closes nothing, overlaps no
      other release, and an acknowledgement releases exactly one whole packet. */
  lemma AnswersAlwaysFit(s: System)
    requires SystemInv(s) && !s.proxy.closed && s.proxy.usable
    requires s.backward != [] && s.proxy.reader == Reading
    ensures CanMove(s, Deliver) && ExclusiveMove(s, Deliver) && !Closes(s.proxy, EventOf(s, Deliver))
    ensures s.backward[0].kind == FROM_CLIENT_TO_SERVER ==>
      s.proxy.handled < s.backward[0].handled && Next(s, Deliver).proxy.reader == Releasing(1, 0)
  {
    if s.backward[0].kind == FROM_CLIENT_TO_SERVER {
      AckKeepsAccounts(s);
      NextAck(s);
    }
  }

  // ---------------------------------------------------------------- draining

  /** Moves that need neither new input nor a failure: the handler consumes, answers are taken, and
      the greeting, releases, relays and flushes under way complete. */
  predicate Draining(m: Move) {
    m == Consume || m == Deliver || m == Local(Greeted(true))
    || m == Local(ReaderWriteDone(true, Cut(0, 0))) || m == Local(ClientWriteDone(true, Cut(0, 0)))
  }

  function Measure(s: System): nat {
    3 * |s.forward| + 2 * |s.backward|
    + (if s.proxy.reader.Releasing? || s.proxy.reader == Greeting then 1 else 0)
    + (if s.proxy.client.WritingServer? || s.proxy.client == ClientFlush then 1 else 0)
  }

  ghost predicate Quiescent(s: System) {
    forall m :: Draining(m) ==> !CanMove(s, m)
  }

  /** The client loop's flush of what an earlier connection left behind is complete: all input is
      delivered, and the proxy drops the connection to open another one. */
  predicate FlushedOut(s: System) {
    && !s.proxy.closed && !s.proxy.usable && s.forward == [] && s.backward == []
    && s.proxy.client == LoopTop && s.proxy.retained == [] && Arrived(s.proxy.toServer) == s.proxy.input
  }

  predicate Drains(s: System) {
    OnConnection(s) || FlushedOut(s)
  }

  /** The next answer is a heartbeat, or acknowledges exactly the first packet. */
  predicate AnswerIsPlain(s: System)
    requires s.backward != []
  {
    var p, h := s.proxy, s.backward[0];
    h.kind == HEARTBEAT
    || (h.kind == FROM_CLIENT_TO_SERVER && h.act == PASS && h.newData == []
        && p.client != ClientFlush && p.others == []
        && NonEmpty(p.retained) && p.retained != [] && h.handled == p.handled + |p.retained[0]|)
  }

  lemma NextAnswerIsPlain(s: System)
    requires SystemInv(s) && OnConnection(s) && s.backward != [] && s.proxy.reader == Reading
    ensures AnswerIsPlain(s)
  {
    if s.backward[0].kind == FROM_CLIENT_TO_SERVER { NextAck(s); }
  }

  /** What a drain finds: one reader, whose only writes to the server are releases, no reconnect while
      the connection is up, and plain answers. */
  predicate Orderly(s: System) {
    && s.proxy.others == [] && (s.proxy.usable ==> !s.proxy.connecting)
    && s.proxy.reader != ReaderFlush && !s.proxy.reader.Injecting?
    && (s.proxy.reader.Releasing? && s.proxy.retained == [] ==> s.proxy.reader == Releasing(0, 0))
    && (OnConnection(s) && s.backward != [] && s.proxy.reader == Reading ==> AnswerIsPlain(s))
  }

  lemma OneReader(s: System)
    requires SystemInv(s) && Drains(s)
    ensures s.proxy.others == [] && (s.proxy.usable ==> !s.proxy.connecting)
    ensures s.proxy.reader != ReaderFlush && !s.proxy.reader.Injecting?
    ensures s.proxy.reader.Releasing? && s.proxy.retained == [] ==> s.proxy.reader == Releasing(0, 0)
  {
  }

  lemma DrainsInOrder(s: System)
    requires SystemInv(s) && Drains(s)
    ensures Orderly(s)
  {
    OneReader(s);
    if OnConnection(s) && s.backward != [] && s.proxy.reader == Reading { NextAnswerIsPlain(s); }
  }

  lemma DrainIsExclusive(s: System, m: Move)
    requires Orderly(s) && Drains(s) && Draining(m) && CanMove(s, m)
    ensures ExclusiveMove(s, m)
  {
  }

  lemma ConsumeDrains(s: System)
    requires s.forward != []
    ensures var t := Next(s, Consume);
            t.proxy == s.proxy && Measure(t) < Measure(s)
  {
    assert |Handle(s.peer, s.forward[0]).1| <= 1;
  }

  lemma HeartbeatDrains(s: System)
    requires CanMove(s, Deliver) && s.backward[0].kind == HEARTBEAT
    ensures var t := Next(s, Deliver);
            t.proxy == s.proxy && Measure(t) < Measure(s)
  {
  }

  /** The session is on the same connection, with the client loop where it was or at its top. */
  predicate StaysConnected(p: Proxy, q: Proxy) {
    && !q.closed && q.usable == p.usable && q.input == p.input
    && (q.client == p.client || q.client == LoopTop)
  }

  lemma AckDrains(p: Proxy, h: Head)
    requires p.reader == Reading && !p.closed && p.client != ClientFlush && p.others == []
    requires h.kind == FROM_CLIENT_TO_SERVER && h.act == PASS && h.newData == []
    requires NonEmpty(p.retained) && p.retained != [] && h.handled == p.handled + |p.retained[0]|
    ensures VerdictFits(p, h)
    ensures var q := OnHeadRead(p, h, Cut(0, 0));
            StaysConnected(p, q) && q.reader == Releasing(1, 0) && q.client == p.client
  {
    AckedOnce(p, h);
  }

  lemma DeliverDrains(s: System)
    requires OnConnection(s) && CanMove(s, Deliver) && AnswerIsPlain(s)
    ensures var t := Next(s, Deliver);
            OnConnection(t) && t.proxy.input == s.proxy.input && Measure(t) < Measure(s)
  {
    if s.backward[0].kind == HEARTBEAT {
      HeartbeatDrains(s);
    } else {
      AckDrains(s.proxy, s.backward[0]);
    }
  }

  lemma GreetingDrains(p: Proxy)
    requires !p.closed && p.reader == Greeting
    ensures OnGreeted(p, true) == p.(reader := Reading)
  {
  }

  lemma ReleaseDrains(p: Proxy)
    requires !p.closed && p.reader.Releasing? && ReaderCanFinish(p, true)
    ensures var q := OnReaderWriteDone(p, true, Cut(0, 0));
            StaysConnected(p, q) && q.reader == Reading && q.client == p.client
    ensures p.reader == Releasing(0, 0) ==> OnReaderWriteDone(p, true, Cut(0, 0)) == p.(reader := Reading)
  {
  }

  lemma RelayDrains(p: Proxy)
    requires !p.closed && p.client.WritingServer?
    ensures var q := OnClientWriteDone(p, true, Cut(0, 0));
            StaysConnected(p, q) && q.reader == p.reader && q.client == LoopTop
  {
  }

  lemma FlushDrains(p: Proxy)
    requires !p.closed && p.client == ClientFlush && !p.connecting
    ensures var q := OnClientWriteDone(p, true, Cut(0, 0));
            && !q.closed && !q.usable && q.connecting && q.retained == [] && q.client == LoopTop
            && q.input == p.input && q.reader == p.reader
  {
  }

  /** On a connection, a local drain move other than the end of a flush. */
  lemma LocalDrains(s: System, e: Event)
    requires OnConnection(s) && s.proxy.client != ClientFlush && CanMove(s, Local(e)) && Draining(Local(e))
    requires e.ReaderWriteDone? ==> s.proxy.reader.Releasing?
    ensures var t := Next(s, Local(e));
            OnConnection(t) && t.proxy.input == s.proxy.input && Measure(t) < Measure(s)
  {
    assert s.forward + [] == s.forward;
    if e.Greeted? {
      GreetingDrains(s.proxy);
    } else if e.ReaderWriteDone? {
      ReleaseDrains(s.proxy);
    } else {
      RelayDrains(s.proxy);
    }
  }

  /** While the client loop flushes, the reader's moves leave that alone. */
  lemma ReaderDrainsInFlush(s: System, e: Event)
    requires OnConnection(s) && s.proxy.client == ClientFlush
    requires CanMove(s, Local(e)) && Draining(Local(e)) && !e.ClientWriteDone?
    requires e.ReaderWriteDone? ==> s.proxy.reader.Releasing?
    ensures var t := Next(s, Local(e));
            OnConnection(t) && t.proxy.input == s.proxy.input && Measure(t) < Measure(s)
  {
    assert s.forward + [] == s.forward;
    if e.Greeted? { GreetingDrains(s.proxy); } else { ReleaseDrains(s.proxy); }
  }

  /** The end of the flush delivers everything and resets the connection. */
  lemma FlushEnds(s: System, e: Event)
    requires OnConnection(s) && s.proxy.client == ClientFlush && !s.proxy.connecting
    requires CanMove(s, Local(e)) && e == ClientWriteDone(true, Cut(0, 0))
    requires Inv(Step(s.proxy, e)) && UnderWay(Step(s.proxy, e))
    ensures var t := Next(s, Local(e));
            FlushedOut(t) && t.proxy.input == s.proxy.input && Measure(t) < Measure(s)
  {
    FlushDrains(s.proxy);
    ArrivedThenRetained(Step(s.proxy, e));
  }

  /** After that, what is left of the reader's moves changes nothing. */
  lemma FlushedOutDrains(s: System, e: Event)
    requires FlushedOut(s) && CanMove(s, Local(e)) && Draining(Local(e))
    requires e.ReaderWriteDone? ==> s.proxy.reader == Releasing(0, 0)
    ensures var t := Next(s, Local(e));
            FlushedOut(t) && t.proxy.input == s.proxy.input && Measure(t) < Measure(s)
  {
    if e.Greeted? { GreetingDrains(s.proxy); } else { ReleaseDrains(s.proxy); }
  }

  lemma DrainKeepsInv(s: System, m: Move)
    requires SystemInv(s) && Drains(s) && |s.proxy.input| < TWO64
    requires Draining(m) && CanMove(s, m)
    ensures ExclusiveMove(s, m) && SystemInv(Next(s, m))
  {
    DrainsInOrder(s);
    DrainIsExclusive(s, m);
    MoveKeepsInv(s, m);
  }

  lemma LocalDrainMove(s: System, e: Event)
    requires Orderly(s) && Drains(s) && Draining(Local(e)) && CanMove(s, Local(e))
    requires Inv(Step(s.proxy, e)) && UnderWay(Step(s.proxy, e))
    ensures var t := Next(s, Local(e));
            Drains(t) && t.proxy.input == s.proxy.input && Measure(t) < Measure(s)
  {
    if FlushedOut(s) {
      FlushedOutDrains(s, e);
    } else if s.proxy.client != ClientFlush {
      LocalDrains(s, e);
    } else if e.ClientWriteDone? {
      FlushEnds(s, e);
    } else {
      ReaderDrainsInFlush(s, e);
    }
  }

  /** A drain move comes closer to rest, and keeps the connection or ends a flush that delivers
      everything. */
  lemma DrainMove(s: System, m: Move)
    requires Orderly(s) && Drains(s) && Draining(m) && CanMove(s, m)
    requires m.Local? ==> Inv(Step(s.proxy, m.e)) && UnderWay(Step(s.proxy, m.e))
    ensures Drains(Next(s, m)) && Next(s, m).proxy.input == s.proxy.input
    ensures Measure(Next(s, m)) < Measure(s)
  {
    match m {
      case Consume => ConsumeDrains(s);
      case Deliver => DeliverDrains(s);
      case Local(e) => LocalDrainMove(s, e);
    }
  }

  lemma LocalInv(s: System, m: Move)
    requires CanMove(s, m) && SystemInv(Next(s, m))
    ensures m.Local? ==> Inv(Step(s.proxy, m.e)) && UnderWay(Step(s.proxy, m.e))
  {
  }

  /** A drain move never overlaps another release, and all this holds again after it. */
  lemma DrainStep(s: System, m: Move)
    requires SystemInv(s) && Drains(s) && |s.proxy.input| < TWO64
    requires Draining(m) && CanMove(s, m)
    ensures ExclusiveMove(s, m) && SystemInv(Next(s, m)) && Drains(Next(s, m))
    ensures Next(s, m).proxy.input == s.proxy.input && Measure(Next(s, m)) < Measure(s)
  {
    DrainKeepsInv(s, m);
    DrainsInOrder(s);
    LocalInv(s, m);
    DrainMove(s, m);
  }

  lemma FrontIsOne(queue: seq<Chunk>, a: seq<Chunk>, b: seq<Chunk>)
    requires EitherOrder(queue, a, b) && (a != [] || b != [])
    ensures queue != [] && ((a != [] && queue[0] == a[0]) || (b != [] && queue[0] == b[0]))
  {
  }

  lemma ReaderRelayCompletes(p: Proxy)
    requires p.others == [] && p.reader != ReaderFlush && ReaderPart(p) != []
    requires p.toServer.queue != [] && p.toServer.queue[0] == ReaderPart(p)[0]
    ensures ReaderCanFinish(p, true)
  {
  }

  lemma ClientRelayCompletes(p: Proxy)
    requires ClientPart(p) != [] && p.toServer.queue != [] && p.toServer.queue[0] == ClientPart(p)[0]
    ensures Enabled(p, ClientWriteDone(true, Cut(0, 0)))
  {
  }

  lemma EmptyReleaseCompletes(p: Proxy)
    requires p.reader == Releasing(0, 0)
    ensures ReaderCanFinish(p, true)
  {
  }

  /** A write under way to the server can complete, the reader's or the client loop's. */
  lemma SomeWriteCompletes(p: Proxy)
    requires EitherOrder(p.toServer.queue, ReaderPart(p), ClientPart(p)) && p.others == [] && p.reader != ReaderFlush
    requires ReaderPart(p) != [] || ClientPart(p) != [] || p.reader == Releasing(0, 0)
    ensures ReaderCanFinish(p, true) || Enabled(p, ClientWriteDone(true, Cut(0, 0)))
  {
    if p.reader == Releasing(0, 0) {
      EmptyReleaseCompletes(p);
    } else {
      var queue, a := p.toServer.queue, ReaderPart(p);
      FrontIsOne(queue, a, ClientPart(p));
      if a != [] && queue[0] == a[0] { ReaderRelayCompletes(p); } else { ClientRelayCompletes(p); }
    }
  }

  /** Loops that wait for a write to the server have one under way. */
  lemma WaitingMeansUnderWay(p: Proxy)
    requires UnderWay(p) && !p.closed && OneRelease(p) && NoNewData(p)
    requires p.client.WritingServer? || p.client == ClientFlush || p.reader.Releasing?
    ensures EitherOrder(p.toServer.queue, ReaderPart(p), ClientPart(p))
    ensures ReaderPart(p) != [] || ClientPart(p) != [] || p.reader == Releasing(0, 0)
  {
    assert StripState(p).toServer.queue == p.toServer.queue;
  }

  lemma AtRest(s: System)
    requires Quiescent(s)
    ensures s.forward == [] && s.proxy.reader != Greeting
    ensures !ReaderCanFinish(s.proxy, true) && !Enabled(s.proxy, ClientWriteDone(true, Cut(0, 0)))
    ensures s.backward != [] ==> !CanMove(s, Deliver)
  {
    assert !CanMove(s, Consume);
    assert !CanMove(s, Local(Greeted(true)));
    assert !CanMove(s, Local(ReaderWriteDone(true, Cut(0, 0))));
    assert !CanMove(s, Local(ClientWriteDone(true, Cut(0, 0))));
    assert !CanMove(s, Deliver);
  }

  lemma NoWriteAtRest(s: System)
    requires SystemInv(s) && OnConnection(s) && Orderly(s) && Quiescent(s)
    ensures !s.proxy.client.WritingServer? && s.proxy.client != ClientFlush && !s.proxy.reader.Releasing?
  {
    if s.proxy.client.WritingServer? || s.proxy.client == ClientFlush || s.proxy.reader.Releasing? {
      WaitingMeansUnderWay(s.proxy);
      AtRest(s);
      SomeWriteCompletes(s.proxy);
    }
  }

  lemma UsableHasReader(s: System)
    requires SystemInv(s) && OnConnection(s)
    ensures s.proxy.reader != NoReader
  {
  }

  /** At rest on a connection, nothing is under way. */
  lemma QuiescentConnection(s: System)
    requires SystemInv(s) && OnConnection(s) && Quiescent(s)
    ensures s.forward == [] && s.backward == [] && s.proxy.reader == Reading
    ensures !s.proxy.client.WritingServer? && s.proxy.client != ClientFlush
  {
    DrainsInOrder(s);
    UsableHasReader(s);
    NoWriteAtRest(s);
    AtRest(s);
    if s.backward != [] { AnswersAlwaysFit(s); }
  }

  /** A connection at rest has delivered everything. */
  lemma QuiescentMeansDelivered(s: System)
    requires SystemInv(s) && Drains(s) && Quiescent(s)
    ensures s.forward == [] && s.backward == [] && s.proxy.retained == []
    ensures Arrived(s.proxy.toServer) == s.proxy.input
  {
    if OnConnection(s) {
      QuiescentConnection(s);
      assert Books(s) && Unsent(s.proxy) == s.proxy.retained;
      ArrivedThenRetained(s.proxy);
    }
  }

  predicate AllDraining(ms: seq<Move>)
    decreases |ms|
  {
    ms == [] || (Draining(ms[0]) && AllDraining(ms[1..]))
  }

  lemma {:induction false} DrainRun(s: System, ms: seq<Move>)
    requires SystemInv(s) && Drains(s) && |s.proxy.input| < TWO64
    requires AllDraining(ms) && PossibleMoves(s, ms)
    ensures GuardedMoves(s, ms) && |ms| + Measure(RunMoves(s, ms)) <= Measure(s)
    ensures SystemInv(RunMoves(s, ms)) && Drains(RunMoves(s, ms))
    ensures RunMoves(s, ms).proxy.input == s.proxy.input
    decreases |ms|
  {
    if ms != [] {
      DrainStep(s, ms[0]);
      DrainRun(Next(s, ms[0]), ms[1..]);
    }
  }

  /** Drain and termination: however consuming, acknowledging and releasing are scheduled, there are
      at most Measure(s) such moves, none of them overlaps another release, and where no further one is
      possible the deque is empty and all of the client's input has reached the server. */
  lemma EveryDrainDelivers(s: System, ms: seq<Move>)
    requires SystemInv(s) && Drains(s) && |s.proxy.input| < TWO64
    requires AllDraining(ms) && PossibleMoves(s, ms)
    ensures GuardedMoves(s, ms) && |ms| <= Measure(s)
    ensures Quiescent(RunMoves(s, ms)) ==>
      && RunMoves(s, ms).proxy.retained == []
      && Arrived(RunMoves(s, ms).proxy.toServer) == RunMoves(s, ms).proxy.input == s.proxy.input
  {
    DrainRun(s, ms);
    if Quiescent(RunMoves(s, ms)) { QuiescentMeansDelivered(RunMoves(s, ms)); }
  }

  lemma SomeDrainMove(s: System) returns (m: Move)
    requires !Quiescent(s)
    ensures Draining(m) && CanMove(s, m)
  {
    m :| Draining(m) && CanMove(s, m);
  }

  lemma MoveThenRun(s: System, m: Move, more: seq<Move>)
    requires CanMove(s, m) && ExclusiveMove(s, m) && PossibleMoves(Next(s, m), more) && GuardedMoves(Next(s, m), more)
    ensures PossibleMoves(s, [m] + more) && GuardedMoves(s, [m] + more)
    ensures RunMoves(s, [m] + more) == RunMoves(Next(s, m), more)
  {
    assert ([m] + more)[0] == m && ([m] + more)[1..] == more;
  }

  lemma {:induction false} SomeDrainRests(s: System) returns (ms: seq<Move>)
    requires SystemInv(s) && Drains(s) && |s.proxy.input| < TWO64
    ensures AllDraining(ms) && PossibleMoves(s, ms) && GuardedMoves(s, ms) && Quiescent(RunMoves(s, ms))
    decreases Measure(s)
  {
    if Quiescent(s) {
      ms := [];
    } else {
      var m := SomeDrainMove(s);
      DrainStep(s, m);
      var more := SomeDrainRests(Next(s, m));
      MoveThenRun(s, m, more);
      ms := [m] + more;
      assert ms[1..] == more;
    }
  }

  /** And such a schedule to rest always exists. */
  lemma SomeDrainDelivers(s: System) returns (ms: seq<Move>)
    requires SystemInv(s) && Drains(s) && |s.proxy.input| < TWO64
    ensures AllDraining(ms) && PossibleMoves(s, ms) && GuardedMoves(s, ms) && Quiescent(RunMoves(s, ms))
    ensures Arrived(RunMoves(s, ms).proxy.toServer) == s.proxy.input
  {
    ms := SomeDrainRests(s);
    EveryDrainDelivers(s, ms);
  }
}
