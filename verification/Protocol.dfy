/** The proxy and the shipped handler together: two processes, two channels, a counter on each
    side. The accounting between them, and what it gives: acknowledgements always fit, nothing is
    released before the handler has seen it, and a quiet connection drains. */
module Protocol {
  import opened Wire
  import opened Retention
  import opened Outputs
  import opened ProxyMachine
  import opened Transparency
  import opened Closing
  import opened Readers
  import opened Verdicts
  import opened Handler

  datatype System = System(proxy: Proxy, forward: seq<Frame>, backward: seq<Head>, peer: Peer, greeting: seq<Byte>)

  /** `Local` is any event of the proxy except reading an answer, which is `Deliver`. */
  datatype Move =
    | Local(e: Event)
    | Deliver
    | Consume
    | Heartbeat

  function Start(greeting: seq<Byte>): System {
    System(START, [], [], NEW_PEER, greeting)
  }

  /** The proxy's event of a move. */
  function EventOf(s: System, m: Move): Event
    requires m.Local? || (m.Deliver? && s.backward != [])
  {
    if m.Local? then m.e else HeadRead(s.backward[0], Cut(0, 0))
  }

  predicate CanMove(s: System, m: Move) {
    match m
    case Local(e) => !e.HeadRead? && Enabled(s.proxy, e)
    case Deliver => s.backward != [] && Enabled(s.proxy, EventOf(s, m))
    case Consume => s.forward != []
    case Heartbeat => true
  }

  /** No two writes that release the deque overlap, and a new connection waits for the reader of the one
      before: two readers would share out one stream of answers between them. */
  predicate ExclusiveMove(s: System, m: Move)
    requires CanMove(s, m)
  {
    m.Local? || m.Deliver? ==> !s.proxy.closed ==>
      Exclusive(s.proxy, EventOf(s, m)) && (m == Local(Connected) ==> LiveReaders(s.proxy) == 0)
  }

  /** Resetting the socket drops what both channels held; connecting gives fresh channels, with the
      four-tuple greeting as the first frame, and a fresh session in the handler. */
  function MoveLocal(s: System, e: Event): System
    requires Enabled(s.proxy, e)
  {
    var p := Step(s.proxy, e);
    if e.Connected? then System(p, [Frame(FOUR_TUPLE, s.greeting)], [], NEW_PEER, s.greeting)
    else if p.connecting && !s.proxy.connecting then s.(proxy := p, forward := [], backward := [])
    else s.(proxy := p, forward := s.forward + FramesSent(s.proxy, e))
  }

  function MoveConsume(s: System): System
    requires s.forward != []
  {
    var (peer, heads) := Handle(s.peer, s.forward[0]);
    s.(forward := s.forward[1..], backward := s.backward + heads, peer := peer)
  }

  function Next(s: System, m: Move): System
    requires CanMove(s, m)
  {
    match m
    case Local(e) => MoveLocal(s, e)
    case Deliver => s.(proxy := Step(s.proxy, EventOf(s, m)), backward := s.backward[1..])
    case Consume => MoveConsume(s)
    case Heartbeat => s.(backward := s.backward + [Head(HEARTBEAT, PASS, [], 0)])
  }

  // ---------------------------------------------------------------- accounting

  /** What the shipped handler ever sends on this connection. */
  predicate PlainHeads(hs: seq<Head>) {
    forall i :: 0 <= i < |hs| ==>
      (hs[i].kind == FROM_CLIENT_TO_SERVER || hs[i].kind == HEARTBEAT) && hs[i].act == PASS && hs[i].newData == []
  }

  /** What the proxy ever sends it. */
  predicate PlainFrames(fs: seq<Frame>) {
    forall i :: 0 <= i < |fs| ==>
      && (fs[i].kind == FROM_CLIENT_TO_SERVER ==> fs[i].body != [])
      && (fs[i].kind == FROM_SERVER_TO_CLIENT ==> fs[i].body == [])
  }

  /** The books of one connection. The packets still to be released are, in order, those already
      acknowledged and those still on their way to the handler; every pending acknowledgement is
      the proxy's counter plus the packets up to its own. */
  predicate Matched(u: seq<Packet>, handled: nat, released: seq<Byte>,
                    bodies: seq<Packet>, acks: seq<nat>, seen: seq<Byte>, req: nat) {
    && |released| == handled
    && |acks| <= |u|
    && bodies == u[|acks|..]
    && seen == released + Concat(u[..|acks|])
    && req == |seen|
    && (forall i :: 0 <= i < |acks| ==> acks[i] == handled + |Concat(u[..i + 1])|)
  }

  predicate Books(s: System) {
    && |s.proxy.released| + |Concat(Unsent(s.proxy))| <= |s.proxy.input|
    && Matched(Unsent(s.proxy), s.proxy.handled, s.proxy.released,
               Bodies(s.forward), Acks(s.backward), s.peer.seen, s.peer.req)
  }

  /** While reconnecting the channels are empty and the counter is reset. */
  predicate Reset(s: System) {
    && s.forward == [] && Acks(s.backward) == []
    && s.proxy.handled == 0 && s.proxy.released == []
  }

  /** A framed write begun while the socket was down: its packet is not on the new connection. */
  predicate NothingFramed(s: System) {
    && Acks(s.backward) == [] && Bodies(s.forward) == []
    && s.proxy.handled == 0 && s.proxy.released == [] && s.peer.seen == [] && s.peer.req == 0
  }

  predicate Accounts(s: System) {
    !s.proxy.closed ==>
      && PlainHeads(s.backward) && PlainFrames(s.forward)
      && !s.proxy.reader.Injecting? && s.proxy.others == []
      && (s.proxy.usable ==> s.proxy.reader != NoReader && s.proxy.reader != ReaderFlush)
      && (s.proxy.connecting ==> Reset(s))
      && (s.proxy.usable && s.proxy.client != WritingProcess(false) ==> Books(s))
      && (s.proxy.usable && s.proxy.client == WritingProcess(false) ==> NothingFramed(s))
      && (s.proxy.usable && s.proxy.reader.Releasing? ==> s.proxy.reader.used == 0)
  }

  /** The shipped handler makes no new data, so none is on its way. */
  predicate NoNewData(p: Proxy) {
    !p.closed ==> StripState(p) == p
  }

  predicate SystemInv(s: System) {
    Inv(s.proxy) && UnderWay(s.proxy) && Accounts(s) && NoNewData(s.proxy)
  }

  // ---------------------------------------------------------------- the books of one step

  /** A packet is retained and framed. */
  lemma MatchedPush(u: seq<Packet>, handled: nat, released: seq<Byte>,
                    bodies: seq<Packet>, acks: seq<nat>, seen: seq<Byte>, req: nat, d: Packet)
    requires Matched(u, handled, released, bodies, acks, seen, req)
    ensures Matched(u + [d], handled, released, bodies + [d], acks, seen, req)
  {
    assert (u + [d])[|acks|..] == u[|acks|..] + [d];
    assert (u + [d])[..|acks|] == u[..|acks|];
    forall i | 0 <= i < |acks|
      ensures acks[i] == handled + |Concat((u + [d])[..i + 1])|
    {
      assert (u + [d])[..i + 1] == u[..i + 1];
    }
  }

  /** The handler consumes the next packet and acknowledges it. */
  lemma MatchedConsume(u: seq<Packet>, handled: nat, released: seq<Byte>,
                       bodies: seq<Packet>, acks: seq<nat>, seen: seq<Byte>, req: nat)
    requires Matched(u, handled, released, bodies, acks, seen, req) && bodies != []
    ensures var b := bodies[0];
            Matched(u, handled, released, bodies[1..], acks + [req + |b|], seen + b, req + |b|)
  {
    var n, b := |acks|, bodies[0];
    assert u[..n + 1] == u[..n] + [b];
    ConcatSnoc(u[..n], b);
    Assoc(released, Concat(u[..n]), b);
  }

  /** The proxy takes the next acknowledgement and releases one packet. */
  lemma MatchedRelease(u: seq<Packet>, handled: nat, released: seq<Byte>,
                       bodies: seq<Packet>, acks: seq<nat>, seen: seq<Byte>, req: nat)
    requires Matched(u, handled, released, bodies, acks, seen, req) && acks != []
    ensures acks[0] == handled + |u[0]|
    ensures Matched(u[1..], acks[0], released + u[0], bodies, acks[1..], seen, req)
  {
    var n := |acks|;
    ConcatOne(u[0]);
    assert u[..1] == [u[0]];
    assert u[..n] == [u[0]] + u[1..][..n - 1];
    ConcatCons(u[0], u[1..][..n - 1]);
    Assoc(released, u[0], Concat(u[1..][..n - 1]));
    forall i | 0 <= i < n - 1
      ensures acks[1..][i] == acks[0] + |Concat(u[1..][..i + 1])|
    {
      assert u[..i + 2] == [u[0]] + u[1..][..i + 1];
      ConcatCons(u[0], u[1..][..i + 1]);
    }
  }

  /** An acknowledgement of exactly the first packet pops it and splits nothing. */
  lemma PrepareOne(ps: seq<Packet>, handled: nat)
    requires NonEmpty(ps) && ps != []
    ensures Prepare(ps, handled, handled + |ps[0]|) == Split(1, 0, handled + |ps[0]|)
    ensures Released(ps, 1, 0) == [ps[0]] && Clear(ps, 1, 0) == ps[1..]
  {
    if |ps| > 1 { assert |ps[1..][0]| > 0; }
  }

  // ---------------------------------------------------------------- moves that leave the books alone

  /** The session moved but nothing in the books did. */
  predicate SameBooks(p: Proxy, q: Proxy) {
    && Unsent(q) == Unsent(p) && q.handled == p.handled && q.released == p.released
    && |p.input| <= |q.input| && !q.closed
    && q.connecting == p.connecting && q.usable == p.usable
    && (q.client == WritingProcess(false) <==> p.client == WritingProcess(false))
    && (q.reader.Releasing? ==> q.reader == p.reader) && !q.reader.Injecting? && q.others == p.others
    && (p.usable && p.reader != NoReader && p.reader != ReaderFlush ==> q.reader != NoReader && q.reader != ReaderFlush)
  }

  lemma QuietMoveKeepsAccounts(s: System, q: Proxy)
    requires Accounts(s) && !s.proxy.closed && SameBooks(s.proxy, q)
    ensures Accounts(s.(proxy := q))
  {
  }

  lemma SocketsAreQuiet(p: Proxy, q: Proxy)
    requires !p.closed && !p.reader.Injecting? && p.client == ReadingDirect && (q.client == LoopTop || q.client.WritingServer?)
    requires q == p.(eof := q.eof, input := q.input, toServer := q.toServer, client := q.client)
    requires |p.input| <= |q.input|
    ensures SameBooks(p, q)
  {
  }

  lemma ClientTopIsQuiet(p: Proxy, cut: Cut)
    requires !p.closed && !p.eof && p.client == LoopTop && !p.reader.Injecting?
    ensures SameBooks(p, OnClientTop(p, cut))
  {
  }

  lemma DirectReadIsQuiet(p: Proxy, data: seq<Byte>, eof: bool)
    requires !p.closed && p.client == ReadingDirect && !p.reader.Injecting?
    ensures SameBooks(p, OnDirectRead(p, data, eof))
  {
    var q := OnDirectRead(p, data, eof);
    assert q == p.(eof := q.eof, input := p.input + data, toServer := q.toServer, client := q.client);
    SocketsAreQuiet(p, q);
  }

  lemma EmptyReadIsQuiet(p: Proxy, eof: bool)
    requires !p.closed && p.client == ReadingRetained && !p.reader.Injecting?
    ensures SameBooks(p, OnRetainedRead(p, [], eof))
  {
  }

  lemma FramedWriteIsQuiet(p: Proxy)
    requires !p.closed && p.client == WritingProcess(true) && !p.reader.Injecting?
    ensures SameBooks(p, OnProcessWrite(p, true))
  {
  }

  lemma RelayIsQuiet(p: Proxy)
    requires !p.closed && p.client.WritingServer? && !p.reader.Injecting?
    ensures SameBooks(p, OnClientWriteDone(p, true, Cut(0, 0)))
  {
  }

  lemma ServerLoopIsQuiet(p: Proxy, q: Proxy)
    requires !p.closed && !p.reader.Injecting?
    requires q == p.(eof := q.eof, fromServer := q.fromServer, toClient := q.toClient, server := q.server)
    ensures SameBooks(p, q)
  {
  }

  lemma ServerReadIsQuiet(p: Proxy, data: seq<Byte>, eof: bool)
    requires !p.closed && !p.reader.Injecting?
    ensures SameBooks(p, OnServerRead(p, data, eof))
  {
    ServerLoopIsQuiet(p, OnServerRead(p, data, eof));
  }

  lemma GreetingIsQuiet(p: Proxy)
    requires !p.closed && p.reader == Greeting
    ensures SameBooks(p, OnGreeted(p, true))
  {
  }

  lemma ReleasedIsQuiet(p: Proxy, count: nat, used: nat)
    requires !p.closed && p.reader == Releasing(count, used) && InRange(p.retained, count, used) && p.others == []
    ensures SameBooks(p, OnReleased(p, count, used))
  {
    if count == 0 && used == 0 { assert Clear(p.retained, 0, 0) == p.retained; }
  }

  // ---------------------------------------------------------------- losing and gaining the handler

  /** While the socket is down there are no books; while reconnecting the counter is reset. */
  lemma DownKeepsAccounts(s: System, t: System)
    requires Accounts(s) && !s.proxy.closed && !t.proxy.usable && !t.proxy.reader.Injecting? && t.proxy.others == []
    requires if t.proxy.connecting && !s.proxy.connecting then t.forward == [] && t.backward == []
             else t.forward == s.forward && t.backward == s.backward
    requires t.proxy.connecting && !s.proxy.connecting ==> t.proxy.handled == 0 && t.proxy.released == []
    requires t.proxy.connecting && s.proxy.connecting ==> t.proxy.handled == s.proxy.handled && t.proxy.released == s.proxy.released
    ensures Accounts(t)
  {
  }

  /** What losing the handler does to the counter and the flags. */
  predicate GoesDown(p: Proxy, q: Proxy) {
    && !q.usable && !q.reader.Injecting? && q.others == p.others
    && (if q.connecting && !p.connecting then q.handled == 0 && q.released == []
        else q.handled == p.handled && q.released == p.released)
  }

  lemma FramedWriteFailsGoesDown(p: Proxy)
    requires !p.reader.Injecting?
    ensures GoesDown(p, OnProcessWrite(p, false))
  {
  }

  lemma FlushedGoesDown(p: Proxy)
    requires p.client == ClientFlush && !p.reader.Injecting? && (p.connecting ==> !p.usable)
    ensures GoesDown(p, OnClientWriteDone(p, true, Cut(0, 0)))
  {
  }

  lemma ReaderFlushedGoesDown(p: Proxy)
    requires p.connecting ==> !p.usable
    ensures GoesDown(p, SpawnConnect(p.(toServer := Finish(p.toServer), retained := [], reader := NoReader)))
  {
  }

  lemma ReadFailsGoesDown(p: Proxy)
    requires !p.closed && p.reader == Reading
    ensures GoesDown(p, OnProcessReadFails(p))
  {
  }

  lemma GreetingFailsGoesDown(p: Proxy)
    ensures GoesDown(p, OnGreeted(p, false))
  {
  }

  lemma ConnectedKeepsAccounts(s: System)
    requires SystemInv(s) && !s.proxy.closed && s.proxy.connecting && s.proxy.reader == NoReader
    ensures Accounts(System(OnConnected(s.proxy), [Frame(FOUR_TUPLE, s.greeting)], [], NEW_PEER, s.greeting))
  {
    var t := System(OnConnected(s.proxy), [Frame(FOUR_TUPLE, s.greeting)], [], NEW_PEER, s.greeting);
    NewConnectionIsEmpty(s.greeting);
    if t.proxy.client != WritingProcess(false) {
      assert Unsent(t.proxy) == [];
      EmptyBooksMatch();
      assert Books(t);
    } else {
      assert NothingFramed(t);
    }
  }

  lemma NewConnectionIsEmpty(greeting: seq<Byte>)
    ensures var fs := [Frame(FOUR_TUPLE, greeting)]; PlainFrames(fs) && Bodies(fs) == []
  {
    assert Bodies([Frame(FOUR_TUPLE, greeting)]) == [] + Bodies([]);
  }

  lemma EmptyBooksMatch()
    ensures Matched([], 0, [], [], [], [], 0)
  {
  }

  // ---------------------------------------------------------------- frames and answers

  lemma ServerHeadIsNoPacket(fs: seq<Frame>)
    requires PlainFrames(fs)
    ensures var gs := fs + [Frame(FROM_SERVER_TO_CLIENT, [])]; PlainFrames(gs) && Bodies(gs) == Bodies(fs)
  {
    BodiesAppend(fs, [Frame(FROM_SERVER_TO_CLIENT, [])]);
    assert Bodies([Frame(FROM_SERVER_TO_CLIENT, [])]) == [] + Bodies([]);
  }

  /** The top of the server loop, with or without the empty head. */
  lemma ServerTopKeepsAccounts(s: System, server: ServerAt, sent: bool)
    requires Accounts(s) && !s.proxy.closed && (sent ==> s.proxy.usable && !s.proxy.connecting)
    ensures Accounts(s.(proxy := s.proxy.(server := server),
                        forward := if sent then s.forward + [Frame(FROM_SERVER_TO_CLIENT, [])] else s.forward))
  {
    if sent { ServerHeadIsNoPacket(s.forward); }
    assert Unsent(s.proxy.(server := server)) == Unsent(s.proxy);
  }

  lemma PacketFrameJoins(fs: seq<Frame>, data: seq<Byte>)
    requires PlainFrames(fs) && data != []
    ensures var gs := fs + [Frame(FROM_CLIENT_TO_SERVER, data)]; PlainFrames(gs) && Bodies(gs) == Bodies(fs) + [data]
  {
    BodiesAppend(fs, [Frame(FROM_CLIENT_TO_SERVER, data)]);
    assert Bodies([Frame(FROM_CLIENT_TO_SERVER, data)]) == [data] + Bodies([]);
  }

  lemma RetainedReadKeepsBooks(s: System, q: Proxy, data: seq<Byte>)
    requires Books(s) && PlainFrames(s.forward) && data != []
    requires Unsent(q) == Unsent(s.proxy) + [data] && Concat(Unsent(q)) == Concat(Unsent(s.proxy)) + data
    requires q.input == s.proxy.input + data && q.handled == s.proxy.handled && q.released == s.proxy.released
    ensures Books(s.(proxy := q, forward := s.forward + [Frame(FROM_CLIENT_TO_SERVER, data)]))
  {
    var p := s.proxy;
    PacketFrameJoins(s.forward, data);
    MatchedPush(Unsent(p), p.handled, p.released, Bodies(s.forward), Acks(s.backward), s.peer.seen, s.peer.req, data);
  }

  lemma RetainedReadKeepsAccounts(s: System, data: seq<Byte>, eof: bool)
    requires SystemInv(s) && !s.proxy.closed && s.proxy.client == ReadingRetained && Busy(s.proxy) != ReaderFlush && data != []
    ensures Accounts(s.(proxy := OnRetainedRead(s.proxy, data, eof),
                        forward := if s.proxy.usable then s.forward + [Frame(FROM_CLIENT_TO_SERVER, data)] else s.forward))
  {
    var q := OnRetainedRead(s.proxy, data, eof);
    AppendIsUnsent(s.proxy, data, eof);
    if s.proxy.usable {
      PacketFrameJoins(s.forward, data);
      RetainedReadKeepsBooks(s, q, data);
    }
  }

  lemma AckedOnce(p: Proxy, h: Head)
    requires p.reader == Reading && !p.closed && p.client != ClientFlush && p.others == []
    requires h.kind == FROM_CLIENT_TO_SERVER && h.act == PASS && h.newData == []
    requires NonEmpty(p.retained) && p.retained != [] && h.handled == p.handled + |p.retained[0]|
    ensures VerdictFits(p, h)
    ensures var q := OnHeadRead(p, h, Cut(0, 0));
            && q == p.(handled := h.handled, toServer := q.toServer,
                       released := p.released + p.retained[0], reader := Releasing(1, 0))
            && Unsent(q) == p.retained[1..]
  {
    PrepareOne(p.retained, p.handled);
    ConcatOne(p.retained[0]);
  }

  /** The next pending acknowledgement is of exactly the first packet. */
  lemma NextAck(s: System)
    requires SystemInv(s) && !s.proxy.closed && s.backward != [] && s.proxy.reader == Reading
    requires s.proxy.usable && s.backward[0].kind == FROM_CLIENT_TO_SERVER
    ensures s.proxy.client != ClientFlush && s.proxy.client != WritingProcess(false)
    ensures NonEmpty(s.proxy.retained) && Unsent(s.proxy) == s.proxy.retained != []
    ensures s.backward[0].handled == s.proxy.handled + |s.proxy.retained[0]|
    ensures s.backward[0].act == PASS && s.backward[0].newData == [] && s.proxy.others == []
  {
    var p, u, acks := s.proxy, Unsent(s.proxy), Acks(s.backward);
    assert acks[0] == s.backward[0].handled;
    assert Books(s);
    assert |u| >= 1;
    ConcatOne(u[0]);
    assert u[..1] == [u[0]];
  }

  lemma AckKeepsAccounts(s: System)
    requires SystemInv(s) && !s.proxy.closed && s.backward != [] && s.proxy.reader == Reading
    requires s.proxy.usable && s.backward[0].kind == FROM_CLIENT_TO_SERVER
    ensures Enabled(s.proxy, HeadRead(s.backward[0], Cut(0, 0)))
    ensures OnHeadRead(s.proxy, s.backward[0], Cut(0, 0)).reader == Releasing(1, 0)
    ensures Accounts(s.(proxy := OnHeadRead(s.proxy, s.backward[0], Cut(0, 0)), backward := s.backward[1..]))
  {
    var p, h := s.proxy, s.backward[0];
    var u, acks := p.retained, Acks(s.backward);
    NextAck(s);
    AckedOnce(p, h);
    MatchedRelease(u, p.handled, p.released, Bodies(s.forward), acks, s.peer.seen, s.peer.req);
    var t := s.(proxy := OnHeadRead(p, h, Cut(0, 0)), backward := s.backward[1..]);
    assert acks == [h.handled] + Acks(t.backward);
    ConcatCons(u[0], u[1..]);
    assert u == [u[0]] + u[1..];
    assert Books(t);
  }

  lemma HeartbeatTaken(s: System)
    requires Accounts(s) && s.backward != [] && s.backward[0].kind != FROM_CLIENT_TO_SERVER
    ensures Accounts(s.(backward := s.backward[1..]))
  {
    assert Acks(s.backward[1..]) == Acks(s.backward);
  }

  lemma LateAckKeepsAccounts(s: System)
    requires Accounts(s) && !s.proxy.closed && !s.proxy.usable && s.backward != [] && s.proxy.reader == Reading
    requires s.backward[0].kind == FROM_CLIENT_TO_SERVER && Enabled(s.proxy, HeadRead(s.backward[0], Cut(0, 0)))
    ensures Accounts(s.(proxy := OnHeadRead(s.proxy, s.backward[0], Cut(0, 0)), backward := s.backward[1..]))
  {
    assert Acks(s.backward) != [];
    assert !s.proxy.connecting;
  }

  lemma DeliverKeepsAccounts(s: System)
    requires SystemInv(s) && !s.proxy.closed && CanMove(s, Deliver)
    ensures Accounts(Next(s, Deliver))
  {
    var h := s.backward[0];
    if h.kind == HEARTBEAT {
      HeartbeatTaken(s);
    } else if s.proxy.usable {
      AckKeepsAccounts(s);
    } else {
      LateAckKeepsAccounts(s);
    }
  }

  /** The handler's counter does not wrap as long as the client sent less than 2^64 bytes. */
  lemma ConsumeCounts(s: System)
    requires Books(s) && s.forward != [] && |s.proxy.input| < TWO64
    requires s.forward[0].kind == FROM_CLIENT_TO_SERVER
    ensures Bodies(s.forward) == [s.forward[0].body] + Bodies(s.forward[1..])
    ensures s.peer.req + |s.forward[0].body| < TWO64
  {
    var b := s.forward[0].body;
    var u, n := Unsent(s.proxy), |Acks(s.backward)|;
    assert b == Bodies(s.forward)[0] == u[n];
    assert u[..n + 1] == u[..n] + [b];
    ConcatSplitAt(u, n + 1);
    ConcatSnoc(u[..n], b);
  }

  lemma AckAppended(hs: seq<Head>, n: nat)
    requires PlainHeads(hs)
    ensures var gs := hs + [Head(FROM_CLIENT_TO_SERVER, PASS, [], n)]; PlainHeads(gs) && Acks(gs) == Acks(hs) + [n]
  {
    var h := Head(FROM_CLIENT_TO_SERVER, PASS, [], n);
    AcksAppend(hs, [h]);
    assert Acks([h]) == [n] + Acks([]);
  }

  lemma ConsumeAcks(s: System)
    requires s.forward != [] && s.forward[0].kind == FROM_CLIENT_TO_SERVER && s.peer.req + |s.forward[0].body| < TWO64
    ensures var b, total := s.forward[0].body, s.peer.req + |s.forward[0].body|;
            Next(s, Consume) == s.(forward := s.forward[1..],
                                   backward := s.backward + [Head(FROM_CLIENT_TO_SERVER, PASS, [], total)],
                                   peer := s.peer.(req := total, seen := s.peer.seen + b))
  {
  }

  /** The next packet moves from the forward channel to the pending acknowledgements. */
  lemma BooksMove(s: System, t: System, b: Packet)
    requires Books(s) && Bodies(s.forward) == [b] + Bodies(t.forward) && t.proxy == s.proxy
    requires Acks(t.backward) == Acks(s.backward) + [s.peer.req + |b|]
    requires t.peer.seen == s.peer.seen + b && t.peer.req == s.peer.req + |b|
    ensures Books(t)
  {
    MatchedConsume(Unsent(s.proxy), s.proxy.handled, s.proxy.released,
                   Bodies(s.forward), Acks(s.backward), s.peer.seen, s.peer.req);
    assert Bodies(s.forward)[1..] == Bodies(t.forward) && Bodies(s.forward)[0] == b;
  }

  lemma ConsumeKeepsBooks(s: System)
    requires Books(s) && PlainHeads(s.backward) && s.forward != [] && |s.proxy.input| < TWO64
    requires s.forward[0].kind == FROM_CLIENT_TO_SERVER
    ensures Books(Next(s, Consume))
  {
    ConsumeCounts(s);
    ConsumeAcks(s);
    AckAppended(s.backward, s.peer.req + |s.forward[0].body|);
    BooksMove(s, Next(s, Consume), s.forward[0].body);
  }

  lemma ConsumeOtherFrame(s: System)
    requires PlainFrames(s.forward) && s.forward != [] && s.forward[0].kind != FROM_CLIENT_TO_SERVER
    ensures var t := Next(s, Consume);
            && t.backward == s.backward && t.forward == s.forward[1..] && t.proxy == s.proxy
            && t.peer.seen == s.peer.seen && t.peer.req == s.peer.req
            && Bodies(t.forward) == Bodies(s.forward)
  {
    assert Bodies(s.forward) == [] + Bodies(s.forward[1..]);
  }

  /** The handler only ever answers plainly. */
  lemma ConsumeStaysPlain(s: System)
    requires PlainFrames(s.forward) && PlainHeads(s.backward) && s.forward != []
    ensures PlainFrames(Next(s, Consume).forward) && PlainHeads(Next(s, Consume).backward)
    ensures Next(s, Consume).proxy == s.proxy
  {
  }

  lemma ConsumeKeepsAccounts(s: System)
    requires Accounts(s) && !s.proxy.closed && s.forward != [] && |s.proxy.input| < TWO64
    ensures Accounts(Next(s, Consume))
  {
    ConsumeStaysPlain(s);
    assert s.forward[0].kind == FROM_CLIENT_TO_SERVER ==> Bodies(s.forward) != [];
    if s.proxy.usable {
      if s.forward[0].kind != FROM_CLIENT_TO_SERVER {
        ConsumeOtherFrame(s);
      } else if s.proxy.client != WritingProcess(false) {
        ConsumeKeepsBooks(s);
      }
    }
  }

  lemma HeartbeatIsNoAck(hs: seq<Head>)
    requires PlainHeads(hs)
    ensures var gs := hs + [Head(HEARTBEAT, PASS, [], 0)]; PlainHeads(gs) && Acks(gs) == Acks(hs)
  {
    AcksAppend(hs, [Head(HEARTBEAT, PASS, [], 0)]);
    assert Acks([Head(HEARTBEAT, PASS, [], 0)]) == [] + Acks([]);
  }

  lemma HeartbeatKeepsAccounts(s: System)
    requires Accounts(s)
    ensures Accounts(Next(s, Heartbeat))
  {
    if !s.proxy.closed { HeartbeatIsNoAck(s.backward); }
  }

  // ---------------------------------------------------------------- every move keeps the accounts

  /** A local event that sends no frame and leaves the books alone, or loses the handler. */
  lemma SilentLocal(s: System, e: Event)
    requires Accounts(s) && !s.proxy.closed && Enabled(s.proxy, e) && !e.Connected? && FramesSent(s.proxy, e) == []
    requires SameBooks(s.proxy, Step(s.proxy, e)) || (GoesDown(s.proxy, Step(s.proxy, e)) && !Step(s.proxy, e).closed)
    ensures Accounts(MoveLocal(s, e))
  {
    var q := Step(s.proxy, e);
    assert s.forward + [] == s.forward;
    if SameBooks(s.proxy, q) {
      QuietMoveKeepsAccounts(s, q);
    } else {
      DownKeepsAccounts(s, MoveLocal(s, e));
    }
  }

  /** Which of the two. */
  lemma SilentEvents(p: Proxy, e: Event)
    requires OneRelease(p) && NoOvertaking(p) && !p.closed && !p.reader.Injecting? && p.others == []
    requires Enabled(p, e) && !Closes(p, e)
    requires !e.Connected? && !e.ServerTop? && !e.HeadRead? && (e.RetainedRead? ==> e.data == [])
    ensures SameBooks(p, Step(p, e)) || GoesDown(p, Step(p, e))
  {
    match e {
      case ClientTop(cut) => ClientTopIsQuiet(p, cut);
      case DirectRead(data, eof) => DirectReadIsQuiet(p, data, eof);
      case RetainedRead(_, eof) => EmptyReadIsQuiet(p, eof);
      case ProcessWrite(ok) => if ok { FramedWriteIsQuiet(p); } else { FramedWriteFailsGoesDown(p); }
      case ClientWriteDone(_, _) => if p.client == ClientFlush { FlushedGoesDown(p); } else { RelayIsQuiet(p); }
      case HeadSent => ServerLoopIsQuiet(p, Step(p, e));
      case ServerRead(data, eof) => ServerReadIsQuiet(p, data, eof);
      case ServerWriteDone(_, _) => ServerLoopIsQuiet(p, Step(p, e));
      case Greeted(ok) => if ok { GreetingIsQuiet(p); } else { GreetingFailsGoesDown(p); }
      case ReaderWriteDone(_, _) =>
        if p.reader.Releasing? { ReleasedIsQuiet(p, p.reader.count, p.reader.used); } else { ReaderFlushedGoesDown(p); }
      case ProcessReadFails => ReadFailsGoesDown(p);
    }
  }

  lemma SilentLocalKeepsAccounts(s: System, e: Event)
    requires SystemInv(s) && !s.proxy.closed && CanMove(s, Local(e)) && !Closes(s.proxy, e)
    requires !e.Connected? && !e.ServerTop? && (e.RetainedRead? ==> e.data == [])
    ensures Accounts(MoveLocal(s, e))
  {
    ClosesIff(s.proxy, e);
    SilentEvents(s.proxy, e);
    SilentLocal(s, e);
  }

  lemma ServerTopLocal(s: System, cut: Cut)
    requires SystemInv(s) && !s.proxy.closed && !s.proxy.eof
    requires s.proxy.server == ServerLoopTop
    ensures Accounts(MoveLocal(s, ServerTop(cut)))
  {
    assert s.forward + [] == s.forward;
    ServerTopKeepsAccounts(s, OnServerTop(s.proxy, cut).server, s.proxy.usable && !s.proxy.bypass);
  }

  lemma RetainedReadLocal(s: System, data: seq<Byte>, eof: bool)
    requires SystemInv(s) && !s.proxy.closed && Enabled(s.proxy, RetainedRead(data, eof))
    requires Busy(s.proxy) != ReaderFlush && data != []
    ensures Accounts(MoveLocal(s, RetainedRead(data, eof)))
  {
    assert s.forward + [] == s.forward;
    RetainedReadKeepsAccounts(s, data, eof);
  }

  lemma LocalKeepsAccounts(s: System, e: Event)
    requires SystemInv(s) && !s.proxy.closed && CanMove(s, Local(e)) && ExclusiveMove(s, Local(e))
    ensures Accounts(MoveLocal(s, e))
  {
    if Closes(s.proxy, e) {
      ClosesIff(s.proxy, e);
    } else if e.Connected? {
      ConnectedKeepsAccounts(s);
    } else if e.ServerTop? {
      ServerTopLocal(s, e.cut);
    } else if e.RetainedRead? && e.data != [] {
      RetainedReadLocal(s, e.data, e.eof);
    } else {
      SilentLocalKeepsAccounts(s, e);
    }
  }

  lemma EventMakesNoNewData(p: Proxy, e: Event)
    requires UnderWay(p) && NoNewData(p) && Enabled(p, e) && (!p.closed && e.HeadRead? ==> e.head.newData == [])
    ensures NoNewData(Step(p, e))
  {
    if p.closed { ClosedStep(p, e); } else { PassingStepInjectsNothing(p, e); }
  }

  /** Every move of the proxy, of the handler and of the channels keeps the accounts. */
  lemma MoveKeepsInv(s: System, m: Move)
    requires SystemInv(s) && CanMove(s, m) && ExclusiveMove(s, m)
    requires |s.proxy.input| < TWO64
    ensures SystemInv(Next(s, m))
  {
    if m.Local? || m.Deliver? {
      StepKeepsInv(s.proxy, EventOf(s, m));
      StepKeepsUnderWay(s.proxy, EventOf(s, m));
      EventMakesNoNewData(s.proxy, EventOf(s, m));
    }
    if s.proxy.closed {
      if m.Local? || m.Deliver? { ClosedStep(s.proxy, EventOf(s, m)); }
    } else {
      match m {
        case Local(e) => LocalKeepsAccounts(s, e);
        case Deliver => DeliverKeepsAccounts(s);
        case Consume => ConsumeKeepsAccounts(s);
        case Heartbeat => HeartbeatKeepsAccounts(s);
      }
    }
  }
}
