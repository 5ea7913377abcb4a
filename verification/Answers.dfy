/** What the handler's answers do, for any handler: which bytes a pass releases, where new data goes,
    which answers have no effect, and what the reader does next. */
module Answers {
  import opened Basics
  import opened Wire
  import opened Retention
  import opened Outputs
  import opened ProxyMachine
  import opened Transparency
  import opened Closing
  import opened History

  // ---------------------------------------------------------------- a pass

  /** The verdict that an event acts on. */
  function VerdictOf(p: Proxy, e: Event): Head
    requires TakesPass(p, e)
  {
    if e.HeadRead? then e.head else p.reader.head
  }

  /** The socket of the server when the verdict is acted on: the verdict's own new data is out. */
  function ServerSocket(p: Proxy, e: Event): Out {
    if e.HeadRead? then p.toServer else Finish(p.toServer)
  }

  lemma PassReleases(p: Proxy, ack: nat)
    requires !p.closed && NonEmpty(p.retained) && p.handled <= ack
    ensures Fits(p.retained, p.handled, ack)
    ensures var q, bytes := OnPass(p, ack), Concat(p.retained);
            var k := Min(ack - p.handled, |bytes|);
            && q.toServer == Begin(p.toServer, Relayed(Reader, bytes[..k]))
            && q.retained == p.retained && q.released == p.released + bytes[..k]
            && q.reader.Releasing? && InRange(p.retained, q.reader.count, q.reader.used)
            && q.handled + q.reader.used == p.handled + k
            && Concat(Clear(p.retained, q.reader.count, q.reader.used)) == bytes[k..]
  {
    AckSplitIsExact(p.retained, p.handled, ack);
  }

  lemma ClearsBehind(q: Proxy, more: seq<Packet>, rest: seq<Byte>)
    requires q.reader.Releasing? && InRange(q.retained, q.reader.count, q.reader.used)
    requires Concat(Clear(q.retained, q.reader.count, q.reader.used)) == rest
    ensures InRange(q.retained + more, q.reader.count, q.reader.used)
    ensures Concat(OnReleased(q.(retained := q.retained + more), q.reader.count, q.reader.used).retained) == rest + Concat(more)
  {
    AppendsCommuteWithClear(q.retained, more, q.reader.count, q.reader.used);
    ConcatAppend(Clear(q.retained, q.reader.count, q.reader.used), more);
  }

  lemma PassIsTaken(p: Proxy, e: Event)
    requires Enabled(p, e) && TakesPass(p, e)
    ensures var h := VerdictOf(p, e);
            && Fits(p.retained, p.handled, h.handled)
            && Step(p, e) == OnPass(p.(toServer := ServerSocket(p, e)), h.handled)
  {
  }

  /** A pass of a request releases exactly the first bytes of the deque that its count newly covers:
      these are written to the server, behind the verdict's own new data; and once they are out just
      these are gone, whatever was retained meanwhile. */
  lemma PassReleasesFirstBytes(p: Proxy, e: Event, more: seq<Packet>)
    requires Enabled(p, e) && TakesPass(p, e) && !p.closed && NonEmpty(p.retained)
    requires p.handled <= VerdictOf(p, e).handled
    ensures var q, bytes := Step(p, e), Concat(p.retained);
            var k := Min(VerdictOf(p, e).handled - p.handled, |bytes|);
            && q.toServer == Begin(ServerSocket(p, e), Relayed(Reader, bytes[..k]))
            && q.retained == p.retained && q.released == p.released + bytes[..k]
            && q.reader.Releasing? && q.handled + q.reader.used == p.handled + k
            && InRange(q.retained + more, q.reader.count, q.reader.used)
            && Concat(OnReleased(q.(retained := q.retained + more), q.reader.count, q.reader.used).retained)
               == bytes[k..] + Concat(more)
  {
    var p1, k := p.(toServer := ServerSocket(p, e)), Min(VerdictOf(p, e).handled - p.handled, |Concat(p.retained)|);
    PassIsTaken(p, e);
    PassReleases(p1, VerdictOf(p, e).handled);
    ClearsBehind(Step(p, e), more, Concat(p.retained)[k..]);
  }

  // ---------------------------------------------------------------- answers without effect

  /** Heartbeats and answers of unknown kinds change nothing; nor does a response's pass without new
      data, as nothing is retained towards the client. */
  lemma OtherAnswersChangeNothing(p: Proxy, h: Head, cut: Cut)
    requires p.reader == Reading && h.newData == []
    ensures !Directed(h) ==> Enabled(p, HeadRead(h, cut)) && Step(p, HeadRead(h, cut)) == p
    ensures h.kind == FROM_SERVER_TO_CLIENT && h.act != BLOCK ==>
      var es := [HeadRead(h, cut), ReaderWriteDone(true, cut)];
      EnabledRun(p, es) && RunEvents(p, es) == p
  {
    var es := [HeadRead(h, cut), ReaderWriteDone(true, cut)];
    assert es[1..] == [ReaderWriteDone(true, cut)] && es[1..][1..] == [];
    if h.kind == FROM_SERVER_TO_CLIENT && h.act != BLOCK {
      var q := p.(reader := Releasing(0, 0));
      assert Enabled(p, es[0]) && Step(p, es[0]) == q;
      assert Enabled(q, es[1]) && Step(q, es[1]) == p;
      assert RunEvents(p, []) == p;
    }
  }

  // ---------------------------------------------------------------- new data

  /** Everything written to a peer, out or still under way. */
  function Written(o: Out): seq<Chunk> { o.sent + o.queue }

  function OnlyInjected(cs: seq<Chunk>): seq<Chunk> {
    if cs == [] then [] else (if cs[0].Injected? then [cs[0]] else []) + OnlyInjected(cs[1..])
  }

  /** The new data of answers about one direction, in the order these are read. */
  function NewDataRead(kind: Byte, e: Event): seq<Chunk> {
    if e.HeadRead? && e.head.kind == kind && e.head.newData != [] then [Injected(e.head.newData)] else []
  }

  function NewData(kind: Byte, es: seq<Event>): seq<Chunk> {
    if es == [] then [] else NewData(kind, Front(es)) + NewDataRead(kind, Last(es))
  }

  lemma {:induction false} OnlyInjectedAppend(a: seq<Chunk>, b: seq<Chunk>)
    ensures OnlyInjected(a + b) == OnlyInjected(a) + OnlyInjected(b)
  {
    if a == [] {
      assert a + b == b;
    } else {
      OnlyInjectedAppend(a[1..], b);
      assert (a + b)[0] == a[0] && (a + b)[1..] == a[1..] + b;
      AssocChunks(if a[0].Injected? then [a[0]] else [], OnlyInjected(a[1..]), OnlyInjected(b));
    }
  }

  lemma OnlyInjectedOne(c: Chunk)
    ensures OnlyInjected([c]) == if c.Injected? then [c] else []
  {
    assert [c][1..] == [];
  }

  /** The new data among all that was written. */
  function InjectedInto(o: Out): seq<Chunk> { OnlyInjected(Written(o)) }

  lemma BeginInjects(o: Out, c: Chunk)
    ensures InjectedInto(Begin(o, c)) == InjectedInto(o) + if c.Injected? && c.data != [] then [c] else []
  {
    if c.data != [] {
      AssocChunks(o.sent, o.queue, [c]);
      OnlyInjectedAppend(Written(o), [c]);
      OnlyInjectedOne(c);
    }
  }

  lemma FinishInjects(o: Out)
    ensures InjectedInto(Finish(o)) == InjectedInto(o)
  {
    if o.queue != [] {
      assert o.queue == [o.queue[0]] + o.queue[1..];
      AssocChunks(o.sent, [o.queue[0]], o.queue[1..]);
    }
  }

  /** The same new data on both sockets. */
  predicate SameInjected(p: Proxy, q: Proxy) {
    InjectedInto(q.toServer) == InjectedInto(p.toServer) && InjectedInto(q.toClient) == InjectedInto(p.toClient)
  }

  lemma RelayInjectsNothing(p: Proxy, c: Chunk)
    requires c.Relayed?
    ensures InjectedInto(WriteToServer(p, c).toServer) == InjectedInto(p.toServer)
    ensures InjectedInto(WriteToClient(p, c).toClient) == InjectedInto(p.toClient)
  {
    BeginInjects(p.toServer, c);
    BeginInjects(p.toClient, c);
  }

  /** What an event adds to the new data on each socket. */
  predicate Injects(p: Proxy, q: Proxy, e: Event) {
    && InjectedInto(q.toServer) == InjectedInto(p.toServer) + NewDataRead(FROM_CLIENT_TO_SERVER, e)
    && InjectedInto(q.toClient) == InjectedInto(p.toClient) + NewDataRead(FROM_SERVER_TO_CLIENT, e)
  }

  lemma SameInjects(p: Proxy, q: Proxy, e: Event)
    requires SameInjected(p, q) && (e.HeadRead? ==> e.head.newData == [] || !Directed(e.head))
    ensures Injects(p, q, e)
  {
  }

  lemma FlushInjectsNothing(p: Proxy, owner: Owner)
    ensures SameInjected(p, StartFlush(p, owner))
  {
    RelayInjectsNothing(p.(bypass := true, usable := false), Relayed(owner, Concat(p.retained)));
  }

  lemma ProcessWriteInjectsNothing(p: Proxy, ok: bool)
    ensures SameInjected(p, OnProcessWrite(p, ok))
  {
    FlushInjectsNothing(p, ClientLoop);
  }

  lemma ReadFailsInjectsNothing(p: Proxy)
    ensures SameInjected(p, OnProcessReadFails(p))
  {
    FlushInjectsNothing(p, Reader);
  }

  lemma DirectReadInjectsNothing(p: Proxy, data: seq<Byte>, eof: bool)
    ensures SameInjected(p, OnDirectRead(p, data, eof))
  {
    RelayInjectsNothing(p.(eof := p.eof || eof, input := p.input + data), Relayed(ClientLoop, data));
  }

  lemma ServerReadInjectsNothing(p: Proxy, data: seq<Byte>, eof: bool)
    ensures SameInjected(p, OnServerRead(p, data, eof))
  {
    RelayInjectsNothing(p.(eof := p.eof || eof, fromServer := p.fromServer + data), Relayed(ServerLoop, data));
  }

  lemma ClientWriteInjectsNothing(p: Proxy, cut: Cut)
    ensures SameInjected(p, OnClientWriteDone(p, true, cut))
  {
    FinishInjects(p.toServer);
  }

  lemma ServerWriteInjectsNothing(p: Proxy, cut: Cut)
    ensures SameInjected(p, OnServerWriteDone(p, true, cut))
  {
    FinishInjects(p.toClient);
  }

  lemma VerdictInjectsNothing(p: Proxy, h: Head, cut: Cut)
    requires VerdictFits(p, h) && h.act != BLOCK
    ensures SameInjected(p, OnVerdict(p, h, cut))
  {
    if h.kind == FROM_CLIENT_TO_SERVER {
      var r := PrepareWrapping(p.retained, p.handled, h.handled);
      BeginInjects(p.toServer, Relayed(Reader, Concat(Released(p.retained, r.count, r.used))));
    }
  }

  lemma HeadInjects(p: Proxy, h: Head, cut: Cut)
    requires Enabled(p, HeadRead(h, cut)) && !p.closed && !OnHeadRead(p, h, cut).closed
    ensures Injects(p, OnHeadRead(p, h, cut), HeadRead(h, cut))
  {
    if !Directed(h) {
      SameInjects(p, p, HeadRead(h, cut));
    } else if h.newData == [] {
      VerdictInjectsNothing(p, h, cut);
      SameInjects(p, OnHeadRead(p, h, cut), HeadRead(h, cut));
    } else {
      BeginInjects(p.toServer, Injected(h.newData));
      BeginInjects(p.toClient, Injected(h.newData));
    }
  }

  lemma InjectionOutInjectsNothing(p: Proxy, h: DirectedHead, cut: Cut)
    requires VerdictFits(p, h) && h.act != BLOCK
    ensures SameInjected(p, OnVerdict(InjectionSent(p, h), h, cut))
  {
    FinishInjects(p.toServer);
    FinishInjects(p.toClient);
    VerdictInjectsNothing(InjectionSent(p, h), h, cut);
  }

  lemma ReleasedInjectsNothing(p: Proxy, count: nat, used: nat)
    requires InRange(p.retained, count, used)
    ensures SameInjected(p, OnReleased(p, count, used))
  {
    FinishInjects(p.toServer);
  }

  lemma ReaderFlushInjectsNothing(p: Proxy)
    ensures SameInjected(p, SpawnConnect(p.(toServer := Finish(p.toServer), retained := [], reader := NoReader)))
  {
    FinishInjects(p.toServer);
  }

  lemma ReleaseInjectsNothing(p: Proxy, cut: Cut)
    requires ReaderCanFinish(p, true) && (p.reader.Releasing? || p.reader == ReaderFlush)
    ensures SameInjected(p, OnReaderWriteDone(p, true, cut))
  {
    if p.reader.Releasing? {
      ReleasedInjectsNothing(p, p.reader.count, p.reader.used);
    } else {
      ReaderFlushInjectsNothing(p);
    }
  }

  lemma ReaderWriteInjectsNothing(p: Proxy, ok: bool, cut: Cut)
    requires Enabled(p, ReaderWriteDone(ok, cut)) && !p.closed && !OnReaderWriteDone(p, ok, cut).closed
    ensures SameInjected(p, OnReaderWriteDone(p, ok, cut))
  {
    ClosesIff(p, ReaderWriteDone(ok, cut));
    if p.reader.Injecting? { InjectionOutInjectsNothing(p, p.reader.head, cut); } else { ReleaseInjectsNothing(p, cut); }
  }

  lemma StepInjects(p: Proxy, e: Event)
    requires Enabled(p, e) && !p.closed && !Step(p, e).closed
    ensures Injects(p, Step(p, e), e)
  {
    var q := Step(p, e);
    if e.HeadRead? {
      HeadInjects(p, e.head, e.cut);
    } else {
      match e {
        case DirectRead(data, eof) => DirectReadInjectsNothing(p, data, eof);
        case ServerRead(data, eof) => ServerReadInjectsNothing(p, data, eof);
        case ProcessWrite(ok) => ProcessWriteInjectsNothing(p, ok);
        case ClientWriteDone(_, cut) => ClientWriteInjectsNothing(p, cut);
        case ServerWriteDone(_, cut) => ServerWriteInjectsNothing(p, cut);
        case ProcessReadFails => ReadFailsInjectsNothing(p);
        case ReaderWriteDone(ok, cut) => ReaderWriteInjectsNothing(p, ok, cut);
        case _ =>
      }
      SameInjects(p, q, e);
    }
  }

  /** New data goes where it is meant to, over every run that leaves the session open: of all that was
      written to the server, what is new is the new data of the answers about requests, whole and in
      the order they were read; and to the client that of the answers about responses. */
  lemma {:induction false} NewDataGoesWhereMeant(es: seq<Event>)
    requires EnabledRun(START, es) && !RunEvents(START, es).closed
    ensures InjectedInto(RunEvents(START, es).toServer) == NewData(FROM_CLIENT_TO_SERVER, es)
    ensures InjectedInto(RunEvents(START, es).toClient) == NewData(FROM_SERVER_TO_CLIENT, es)
    decreases |es|
  {
    if es != [] {
      OpenBefore(es);
      RunIsFrontThenLast(START, es);
      NewDataGoesWhereMeant(Front(es));
      StepInjects(RunEvents(START, Front(es)), Last(es));
    }
  }

  // ---------------------------------------------------------------- what the reader does next

  /** What a reader can be waiting for. */
  datatype ReaderWait = GreetingWrite | Answer | AnyWrite

  predicate ReaderWaits(p: Proxy, w: ReaderWait) {
    match w
    case GreetingWrite => Enabled(p, Greeted(false))
    case Answer => Enabled(p, ProcessReadFails)
    case AnyWrite => ReaderCanFinish(p, false) || ReaderCanFinish(p, true)
  }

  predicate OfReader(e: Event) {
    e.Connected? || e.Greeted? || e.HeadRead? || e.ReaderWriteDone? || e.ProcessReadFails?
  }

  /** What is left to do for a directed answer: the write of its new data, or else, unless it blocks,
      the write of what it releases. */
  predicate ReaderGoesOn(p: Proxy, e: Event, w: ReaderWait)
    requires OfReader(e)
  {
    match e
    case Connected => w == GreetingWrite
    case Greeted(ok) => ok && w == Answer
    case HeadRead(h, _) =>
      if !Directed(h) then w == Answer
      else w == AnyWrite && (h.newData != [] || h.act != BLOCK)
    case ReaderWriteDone(ok, _) =>
      ok && ((p.reader.Injecting? && p.reader.head.act != BLOCK && w == AnyWrite) || (p.reader.Releasing? && w == Answer))
    case _ => !p.closed && p.retained != [] && w == AnyWrite
  }

  /** Where the verdict leaves the reader. */
  lemma VerdictOrder(p: Proxy, h: DirectedHead, cut: Cut)
    requires VerdictFits(p, h)
    ensures var q := OnVerdict(p, h, cut);
            if h.act == BLOCK then q.reader == NoReader
            else q.reader.Releasing? && InRange(q.retained, q.reader.count, q.reader.used)
  {
  }

  lemma WaitsByPlace(p: Proxy, w: ReaderWait)
    ensures p.reader == NoReader ==> !ReaderWaits(p, w)
    ensures p.reader == Greeting ==> (ReaderWaits(p, w) <==> w == GreetingWrite)
    ensures p.reader == Reading ==> (ReaderWaits(p, w) <==> w == Answer)
    ensures p.reader.Injecting? || p.reader == ReaderFlush ==> (ReaderWaits(p, w) <==> w == AnyWrite)
    ensures p.reader.Releasing? && InRange(p.retained, p.reader.count, p.reader.used) ==> (ReaderWaits(p, w) <==> w == AnyWrite)
  {
  }

  lemma HeadOrder(p: Proxy, h: Head, cut: Cut, w: ReaderWait)
    requires Enabled(p, HeadRead(h, cut))
    ensures ReaderWaits(OnHeadRead(p, h, cut), w) <==> ReaderGoesOn(p, HeadRead(h, cut), w)
  {
    WaitsByPlace(OnHeadRead(p, h, cut), w);
    if Directed(h) && h.newData == [] { VerdictOrder(p, h, cut); }
  }

  lemma InjectionOrder(p: Proxy, cut: Cut, w: ReaderWait)
    requires Enabled(p, ReaderWriteDone(true, cut)) && p.reader.Injecting?
    ensures ReaderWaits(OnReaderWriteDone(p, true, cut), w) <==> ReaderGoesOn(p, ReaderWriteDone(true, cut), w)
  {
    WaitsByPlace(OnReaderWriteDone(p, true, cut), w);
    VerdictOrder(InjectionSent(p, p.reader.head), p.reader.head, cut);
  }

  lemma OtherWritePlace(p: Proxy, ok: bool, cut: Cut)
    requires Enabled(p, ReaderWriteDone(ok, cut)) && (ok ==> !p.reader.Injecting?)
    ensures OnReaderWriteDone(p, ok, cut).reader == if ok && p.reader.Releasing? then Reading else NoReader
  {
  }

  lemma WriteOrder(p: Proxy, ok: bool, cut: Cut, w: ReaderWait)
    requires Enabled(p, ReaderWriteDone(ok, cut))
    ensures ReaderWaits(OnReaderWriteDone(p, ok, cut), w) <==> ReaderGoesOn(p, ReaderWriteDone(ok, cut), w)
  {
    if ok && p.reader.Injecting? {
      InjectionOrder(p, cut, w);
    } else {
      OtherWritePlace(p, ok, cut);
      WaitsByPlace(OnReaderWriteDone(p, ok, cut), w);
    }
  }

  /** Each event of a reader leads to exactly one wait, or ends it. */
  lemma ReaderOrder(p: Proxy, e: Event, w: ReaderWait)
    requires Enabled(p, e) && OfReader(e)
    ensures ReaderWaits(Step(p, e), w) <==> ReaderGoesOn(p, e, w)
  {
    if e.HeadRead? {
      HeadOrder(p, e.head, e.cut, w);
    } else if e.ReaderWriteDone? {
      WriteOrder(p, e.ok, e.cut, w);
    } else {
      WaitsByPlace(Step(p, e), w);
    }
  }

  /** A reader that waits for an answer takes any whose count fits. */
  lemma ReaderTakesAnswers(p: Proxy, h: Head, cut: Cut)
    ensures Enabled(p, HeadRead(h, cut)) <==> ReaderWaits(p, Answer) && (h.newData == [] ==> VerdictFits(p, h))
  {
  }
}
