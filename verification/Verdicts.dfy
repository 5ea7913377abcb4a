/** What a handler can and cannot do to the outputs with the two powers it has besides passing
    bytes: injecting new data and blocking the session. */
module Verdicts {
  import opened Wire
  import opened Retention
  import opened Outputs
  import opened ProxyMachine
  import opened Transparency
  import opened Closing

  /** Everything on the wire, injected segments included. */
  function Bytes(cs: seq<Chunk>): seq<Byte> {
    if cs == [] then [] else cs[0].data + Bytes(cs[1..])
  }

  /** Erased output and real output coincide when nothing was injected. */
  lemma {:induction false} BytesOfRelayed(cs: seq<Chunk>)
    requires OnlyRelayed(cs) == cs
    ensures Bytes(cs) == Erase(cs)
  {
    if cs != [] {
      OnlyRelayedShrinks(cs[1..]);
      assert cs[0].Relayed?;
      assert OnlyRelayed(cs)[1..] == OnlyRelayed(cs[1..]);
      BytesOfRelayed(cs[1..]);
    }
  }

  lemma {:induction false} OnlyRelayedShrinks(cs: seq<Chunk>)
    ensures |OnlyRelayed(cs)| <= |cs|
  {
    if cs != [] { OnlyRelayedShrinks(cs[1..]); }
  }

  // ---------------------------------------------------------------- outputs without new data

  function StripOut(o: Out): Out {
    Out(OnlyRelayed(o.sent), OnlyRelayed(o.queue))
  }

  /** How many of the first `n` bytes under way are the peer's own. */
  function RelayedAmong(q: seq<Chunk>, n: nat): nat {
    |Bytes(OnlyRelayed(FirstBytes(q, n)))|
  }

  lemma StripStart(o: Out, c: Chunk)
    ensures StripOut(Begin(o, c)) == if c.Relayed? then Begin(StripOut(o), c) else StripOut(o)
  {
    OnlyRelayedAppend(o.queue, [c]);
    OnlyRelayedOne(c);
  }

  lemma StripFinish(o: Out)
    ensures o.queue != [] && o.queue[0].Relayed? ==> StripOut(Finish(o)) == Finish(StripOut(o))
    ensures o.queue != [] && o.queue[0].Injected? ==> StripOut(Finish(o)) == StripOut(o)
    ensures forall owner :: RelayAtFront(o, owner) ==> RelayAtFront(StripOut(o), owner)
    ensures o.queue == [] ==> StripOut(Finish(o)) == Finish(StripOut(o))
  {
    if o.queue != [] {
      OnlyRelayedAppend(o.sent, [o.queue[0]]);
      OnlyRelayedOne(o.queue[0]);
    }
  }

  /** Cutting commutes: with as many bytes of the others' as the cut left of them. */
  predicate CutStrips(q: seq<Chunk>, n: nat) {
    OnlyRelayed(FirstBytes(q, n)) == FirstBytes(OnlyRelayed(q), RelayedAmong(q, n))
  }

  lemma BytesOne(c: Chunk)
    ensures Bytes([c]) == c.data
  {
    assert Bytes([c]) == c.data + Bytes([]);
  }

  lemma OnlyRelayedFront(c: Chunk, rest: seq<Chunk>)
    ensures OnlyRelayed([c] + rest) == IfRelayed(c) + OnlyRelayed(rest)
    ensures c.Relayed? ==> OnlyRelayed([c] + rest)[0] == c && OnlyRelayed([c] + rest)[1..] == OnlyRelayed(rest)
    ensures c.Injected? ==> OnlyRelayed([c] + rest) == OnlyRelayed(rest)
  {
    OnlyRelayedAppend([c], rest);
    OnlyRelayedOne(c);
  }

  lemma EmptyFrontStrips(c: Chunk, rest: seq<Chunk>, n: nat)
    requires c.data == [] && n > 0 && CutStrips(rest, n)
    ensures CutStrips([c] + rest, n)
  {
    OnlyRelayedFront(c, rest);
    assert ([c] + rest)[1..] == rest;
    assert FirstBytes([c] + rest, n) == FirstBytes(rest, n);
  }

  lemma CutFrontStrips(c: Chunk, rest: seq<Chunk>, n: nat)
    requires 0 < n < |c.data|
    ensures CutStrips([c] + rest, n)
  {
    var part := c.(data := c.data[..n]);
    OnlyRelayedFront(c, rest);
    OnlyRelayedOne(part);
    BytesOne(part);
    assert FirstBytes([c] + rest, n) == [part];
  }

  lemma WholeFrontStrips(c: Chunk, rest: seq<Chunk>, n: nat)
    requires 0 < |c.data| <= n && CutStrips(rest, n - |c.data|)
    ensures CutStrips([c] + rest, n)
  {
    var more := FirstBytes(rest, n - |c.data|);
    assert ([c] + rest)[1..] == rest;
    assert FirstBytes([c] + rest, n) == [c] + more;
    OnlyRelayedFront(c, rest);
    OnlyRelayedFront(c, more);
    if c.Relayed? {
      assert [c] + OnlyRelayed(more) == OnlyRelayed([c] + more);
      assert Bytes(OnlyRelayed([c] + more)) == c.data + Bytes(OnlyRelayed(more));
    }
  }

  lemma {:induction false} StripFirstBytes(q: seq<Chunk>, n: nat)
    ensures CutStrips(q, n)
  {
    if q != [] && n > 0 {
      var c, rest := q[0], q[1..];
      assert q == [c] + rest;
      if c.data == [] {
        StripFirstBytes(rest, n);
        EmptyFrontStrips(c, rest, n);
      } else if n < |c.data| {
        CutFrontStrips(c, rest, n);
      } else {
        StripFirstBytes(rest, n - |c.data|);
        WholeFrontStrips(c, rest, n);
      }
    }
  }

  lemma StripShut(o: Out, n: nat)
    ensures StripOut(Shut(o, n)) == Shut(StripOut(o), RelayedAmong(o.queue, n))
  {
    OnlyRelayedAppend(o.sent, FirstBytes(o.queue, n));
    StripFirstBytes(o.queue, n);
  }

  // ---------------------------------------------------------------- sessions without new data

  /** A reader that writes new data is, without it, still about to read. */
  function StripReader(r: ReaderAt): ReaderAt {
    if r.Injecting? then Reading else r
  }

  function StripAll(rs: seq<ReaderAt>): (r: seq<ReaderAt>)
    ensures |r| == |rs|
  {
    if rs == [] then [] else [StripReader(rs[0])] + StripAll(rs[1..])
  }

  /** The same session with the handler's new data taken away. */
  function StripState(p: Proxy): Proxy {
    p.(toServer := StripOut(p.toServer), toClient := StripOut(p.toClient),
       reader := StripReader(p.reader), others := StripAll(p.others))
  }

  lemma {:induction false} StripAllAppend(rs: seq<ReaderAt>, r: ReaderAt)
    ensures StripAll(rs + [r]) == StripAll(rs) + [StripReader(r)]
  {
    if rs == [] {
      assert [] + [r] == [r] && [r][1..] == [];
    } else {
      assert (rs + [r])[0] == rs[0] && (rs + [r])[1..] == rs[1..] + [r];
      StripAllAppend(rs[1..], r);
    }
  }

  lemma {:induction false} StripAllAt(rs: seq<ReaderAt>, k: nat, r: ReaderAt)
    requires k < |rs|
    ensures StripAll(rs)[k] == StripReader(rs[k])
    ensures StripAll(rs[k := r]) == StripAll(rs)[k := StripReader(r)]
  {
    if k == 0 {
      assert rs[k := r][1..] == rs[1..];
    } else {
      assert rs[k := r][1..] == rs[1..][k - 1 := r];
      StripAllAt(rs[1..], k - 1, r);
    }
  }

  /** A reader that writes new data is neither busy nor greeting. */
  lemma {:induction false} StripAllKeeps(rs: seq<ReaderAt>)
    ensures FirstBusy(StripAll(rs)) == FirstBusy(rs)
    ensures Greeting in StripAll(rs) <==> Greeting in rs
  {
    if rs != [] {
      StripAllKeeps(rs[1..]);
      assert rs == [rs[0]] + rs[1..];
    }
  }

  lemma StripKeepsReaders(p: Proxy)
    ensures Busy(StripState(p)) == Busy(p) && GreetingUnderWay(StripState(p)) == GreetingUnderWay(p)
  {
    StripAllKeeps(p.others);
  }

  function StripCut(p: Proxy, cut: Cut): Cut {
    Cut(RelayedAmong(p.toServer.queue, cut.server), RelayedAmong(p.toClient.queue, cut.client))
  }

  /** The answer as it is acted on once its new data is out, or block if that breaks. */
  function StripHead(h: Head, ok: bool): Head {
    if ok then h.(newData := []) else Head(h.kind, BLOCK, [], 0)
  }

  /** The same event without new data: reading an answer with new data is put off until that is out. */
  function StripEvent(p: Proxy, e: Event): seq<Event> {
    match e
    case HeadRead(h, cut) =>
      if Directed(h) && h.newData != [] then [] else [HeadRead(StripHead(h, true), StripCut(p, cut))]
    case ReaderWriteDone(ok, cut) =>
      if p.reader.Injecting? then [HeadRead(StripHead(p.reader.head, ok), StripCut(AtClose(p, e), cut))]
      else [ReaderWriteDone(ok, StripCut(p, cut))]
    case _ => [WithCut(e, StripCut(p, CutOf(e)))]
  }

  function StripEvents(p: Proxy, es: seq<Event>): seq<Event>
    requires EnabledRun(p, es)
    decreases |es|
  {
    if es == [] then [] else StripEvent(p, es[0]) + StripEvents(Step(p, es[0]), es[1..])
  }

  lemma StripClose(p: Proxy, cut: Cut)
    ensures StripState(Close(p, cut)) == Close(StripState(p), StripCut(p, cut))
  {
    StripShut(p.toServer, cut.server);
    StripShut(p.toClient, cut.client);
  }

  lemma StripWrite(p: Proxy, owner: Owner, data: seq<Byte>)
    ensures StripState(WriteToServer(p, Relayed(owner, data))) == WriteToServer(StripState(p), Relayed(owner, data))
    ensures StripState(WriteToClient(p, Relayed(owner, data))) == WriteToClient(StripState(p), Relayed(owner, data))
  {
    StripStart(p.toServer, Relayed(owner, data));
    StripStart(p.toClient, Relayed(owner, data));
  }

  lemma StripClientAt(p: Proxy, at: ClientAt)
    ensures StripState(p.(client := at)) == StripState(p).(client := at)
  {
  }

  lemma StripServerAt(p: Proxy, at: ServerAt)
    ensures StripState(p.(server := at)) == StripState(p).(server := at)
  {
  }

  lemma StripReaderAt(p: Proxy, at: ReaderAt)
    requires !at.Injecting?
    ensures StripState(p.(reader := at)) == StripState(p).(reader := at)
  {
  }

  lemma StripRetained(p: Proxy, packets: seq<Packet>)
    ensures StripState(p.(retained := packets)) == StripState(p).(retained := packets)
  {
  }

  lemma StripInput(p: Proxy, eof: bool, input: seq<Byte>)
    ensures StripState(p.(eof := eof, input := input)) == StripState(p).(eof := eof, input := input)
  {
  }

  lemma StripConnect(p: Proxy)
    ensures StripState(SpawnConnect(p)) == SpawnConnect(StripState(p))
  {
  }

  /** A relay, not new data, is at the front; or the socket is closed. */
  predicate RelayDone(p: Proxy, o: Out, owner: Owner) {
    if p.closed then o.queue == [] else RelayAtFront(o, owner)
  }

  lemma StripFinishServer(p: Proxy, owner: Owner)
    requires RelayDone(p, p.toServer, owner)
    ensures RelayDone(p, StripOut(p.toServer), owner)
    ensures StripState(p.(toServer := Finish(p.toServer)))
            == StripState(p).(toServer := Finish(StripState(p).toServer))
  {
    StripFinish(p.toServer);
  }

  lemma StripFinishClient(p: Proxy, owner: Owner)
    requires RelayDone(p, p.toClient, owner)
    ensures RelayDone(p, StripOut(p.toClient), owner)
    ensures StripState(p.(toClient := Finish(p.toClient)))
            == StripState(p).(toClient := Finish(StripState(p).toClient))
  {
    StripFinish(p.toClient);
  }

  lemma StripFlush(p: Proxy, owner: Owner)
    ensures StripState(StartFlush(p, owner)) == StartFlush(StripState(p), owner)
  {
    StripWrite(p.(bypass := true, usable := false), owner, Concat(p.retained));
  }

  lemma StripPass(p: Proxy, ack: nat)
    requires Fits(p.retained, p.handled, ack)
    ensures StripState(OnPass(p, ack)) == OnPass(StripState(p), ack)
  {
    var r := PrepareWrapping(p.retained, p.handled, ack);
    var out := Concat(Released(p.retained, r.count, r.used));
    var p1 := p.(handled := r.handled, released := p.released + out, reader := Releasing(r.count, r.used));
    StripWrite(p1, Reader, out);
  }

  lemma StripVerdict(p: Proxy, h: Head, cut: Cut)
    requires VerdictFits(p, h)
    ensures VerdictFits(StripState(p), StripHead(h, true))
    ensures StripState(OnVerdict(p, h, cut)) == OnVerdict(StripState(p), StripHead(h, true), StripCut(p, cut))
  {
    if h.act == BLOCK {
      StripClose(p, cut);
      StripReaderAt(Close(p, cut), NoReader);
    } else if h.kind == FROM_CLIENT_TO_SERVER {
      StripPass(p, h.handled);
    } else {
      StripReaderAt(p, Releasing(0, 0));
    }
  }

  // ---------------------------------------------------------------- every event without new data

  lemma StripDirectRead(p: Proxy, data: seq<Byte>, eof: bool)
    ensures OnDirectRead(StripState(p), data, eof) == StripState(OnDirectRead(p, data, eof))
  {
    var p1 := p.(eof := p.eof || eof, input := p.input + data);
    StripWrite(p1, ClientLoop, data);
    StripClientAt(WriteToServer(p1, Relayed(ClientLoop, data)), WritingServer(data));
  }

  lemma StripProcessWrite(p: Proxy, ok: bool)
    ensures OnProcessWrite(StripState(p), ok) == StripState(OnProcessWrite(p, ok))
  {
    var p1 := StartFlush(p, ClientLoop);
    StripFlush(p, ClientLoop);
    StripConnect(p1);
    StripClientAt(SpawnConnect(p1), LoopTop);
    StripClientAt(p1, ClientFlush);
    StripClientAt(p, LoopTop);
  }

  lemma StripClientWriteDone(p: Proxy)
    requires RelayDone(p, p.toServer, ClientLoop)
    ensures OnClientWriteDone(StripState(p), true, Cut(0, 0)) == StripState(OnClientWriteDone(p, true, Cut(0, 0)))
  {
    var p1 := p.(toServer := Finish(p.toServer));
    StripFinishServer(p, ClientLoop);
    StripClientAt(p1, LoopTop);
    StripRetained(p1.(client := LoopTop), []);
    StripConnect(p1.(client := LoopTop, retained := []));
  }

  lemma StripClientWriteFails(p: Proxy, cut: Cut)
    ensures OnClientWriteDone(StripState(p), false, StripCut(p, cut)) == StripState(OnClientWriteDone(p, false, cut))
  {
    StripClose(p, cut);
    StripClientAt(Close(p, cut), ClientDone);
  }

  lemma StripServerRead(p: Proxy, data: seq<Byte>, eof: bool)
    ensures OnServerRead(StripState(p), data, eof) == StripState(OnServerRead(p, data, eof))
  {
    var p1 := p.(eof := p.eof || eof, fromServer := p.fromServer + data);
    StripWrite(p1, ServerLoop, data);
    StripServerAt(WriteToClient(p1, Relayed(ServerLoop, data)), WritingClient(data));
  }

  lemma StripServerWriteDone(p: Proxy, ok: bool, cut: Cut)
    requires ok ==> RelayDone(p, p.toClient, ServerLoop)
    ensures OnServerWriteDone(StripState(p), ok, StripCut(p, cut)) == StripState(OnServerWriteDone(p, ok, cut))
  {
    if ok {
      StripFinishClient(p, ServerLoop);
      StripServerAt(p.(toClient := Finish(p.toClient)), ServerLoopTop);
    } else {
      StripClose(p, cut);
      StripServerAt(Close(p, cut), ServerDone);
    }
  }

  lemma StripProcessReadFails(p: Proxy)
    ensures OnProcessReadFails(StripState(p)) == StripState(OnProcessReadFails(p))
  {
    var p1 := StartFlush(p, Reader);
    StripFlush(p, Reader);
    StripConnect(p1);
    StripReaderAt(SpawnConnect(p1), NoReader);
    StripReaderAt(p1, ReaderFlush);
    StripReaderAt(p, NoReader);
  }

  /** Reading an answer with new data changes nothing but the new data. */
  lemma StripInjecting(p: Proxy, h: Head, cut: Cut)
    requires p.reader == Reading && Directed(h) && h.newData != []
    ensures StripState(OnHeadRead(p, h, cut)) == StripState(p)
  {
    var c := Injected(h.newData);
    StripInjection(p, c);
    StripReaderInjects(if h.kind == FROM_CLIENT_TO_SERVER then WriteToServer(p, c) else WriteToClient(p, c), h);
  }

  lemma StripInjection(p: Proxy, c: Chunk)
    requires c.Injected?
    ensures StripState(WriteToServer(p, c)) == StripState(p)
    ensures StripState(WriteToClient(p, c)) == StripState(p)
  {
    StripStart(p.toServer, c);
    StripStart(p.toClient, c);
  }

  lemma StripReaderInjects(p: Proxy, h: DirectedHead)
    requires p.reader == Reading
    ensures StripState(p.(reader := Injecting(h))) == StripState(p)
  {
  }

  lemma StripHeadRead(p: Proxy, h: Head, cut: Cut)
    requires p.reader == Reading && (h.newData == [] || !Directed(h)) && (h.newData == [] ==> VerdictFits(p, h))
    ensures VerdictFits(StripState(p), StripHead(h, true)) || !Directed(h)
    ensures OnHeadRead(StripState(p), StripHead(h, true), StripCut(p, cut)) == StripState(OnHeadRead(p, h, cut))
  {
    if Directed(h) { StripVerdict(p, h, cut); }
  }

  lemma StripInjectionSent(p: Proxy, h: DirectedHead)
    requires p.reader == Injecting(h) && (p.closed || ReaderAtFront(p))
    requires p.closed ==> p.toServer.queue == [] && p.toClient.queue == []
    ensures StripState(InjectionSent(p, h)) == StripState(p)
  {
    StripFinish(p.toServer);
    StripFinish(p.toClient);
  }

  /** Acting on an answer whose new data is out is reading it without new data. */
  lemma StripInjected(p: Proxy, h: DirectedHead, cut: Cut)
    requires p.reader == Injecting(h) && ReaderCanFinish(p, true)
    requires p.closed ==> p.toServer.queue == [] && p.toClient.queue == []
    ensures VerdictFits(StripState(p), StripHead(h, true))
    ensures OnHeadRead(StripState(p), StripHead(h, true), StripCut(InjectionSent(p, h), cut))
            == StripState(OnVerdict(InjectionSent(p, h), h, cut))
  {
    StripInjectionSent(p, h);
    StripVerdict(InjectionSent(p, h), h, cut);
  }

  /** One whose new data breaks closes the session as a block verdict does. */
  lemma StripInjectionFails(p: Proxy, h: DirectedHead, cut: Cut)
    requires p.reader == Injecting(h)
    ensures OnHeadRead(StripState(p), StripHead(h, false), StripCut(p, cut)) == StripState(Close(p, cut).(reader := NoReader))
  {
    StripClose(p, cut);
    StripReaderAt(Close(p, cut), NoReader);
  }

  lemma StripReleased(p: Proxy, count: nat, used: nat)
    requires InRange(p.retained, count, used) && (count > 0 || used > 0 ==> RelayDone(p, p.toServer, Reader))
    ensures OnReleased(StripState(p), count, used) == StripState(OnReleased(p, count, used))
  {
    if count == 0 && used == 0 {
      StripReaderAt(p, Reading);
    } else {
      var p1 := p.(toServer := Finish(p.toServer));
      StripFinishServer(p, Reader);
      StripRetained(p1, Clear(p.retained, count, used));
      StripReaderAt(p1.(retained := Clear(p.retained, count, used)), Reading);
    }
  }

  lemma StripReaderFlushed(p: Proxy)
    requires RelayDone(p, p.toServer, Reader)
    ensures var q := StripState(p);
            SpawnConnect(q.(toServer := Finish(q.toServer), retained := [], reader := NoReader))
            == StripState(SpawnConnect(p.(toServer := Finish(p.toServer), retained := [], reader := NoReader)))
  {
    var p1 := p.(toServer := Finish(p.toServer));
    StripFinishServer(p, Reader);
    StripRetained(p1, []);
    StripReaderAt(p1.(retained := []), NoReader);
    StripConnect(p1.(retained := [], reader := NoReader));
  }

  // ---------------------------------------------------------------- steps and runs

  /** Nothing is under way on closed sockets. */
  predicate Orderly(p: Proxy) {
    p.closed ==> p.toServer.queue == [] && p.toClient.queue == []
  }

  /** Without new data, event `e` of `p` is event `f`. */
  predicate StripsTo(p: Proxy, e: Event, f: Event)
    requires Enabled(p, e)
  {
    Enabled(StripState(p), f) && Step(StripState(p), f) == StripState(Step(p, e))
  }

  lemma StripClientTop(p: Proxy, cut: Cut)
    ensures OnClientTop(StripState(p), StripCut(p, cut)) == StripState(OnClientTop(p, cut))
  {
    StripClose(p, cut);
    StripClientAt(Close(p, cut), ClientDone);
  }

  lemma StripServerTop(p: Proxy, cut: Cut)
    ensures OnServerTop(StripState(p), StripCut(p, cut)) == StripState(OnServerTop(p, cut))
  {
    StripClose(p, cut);
    StripServerAt(Close(p, cut), ServerDone);
  }

  lemma StripConnected(p: Proxy)
    ensures OnConnected(StripState(p)) == StripState(OnConnected(p))
  {
    StripAllAppend(p.others, p.reader);
  }

  lemma StripGreeted(p: Proxy, ok: bool)
    ensures OnGreeted(StripState(p), ok) == StripState(OnGreeted(p, ok))
  {
  }

  lemma StripTurn(p: Proxy, k: nat)
    requires k < |p.others|
    ensures OnTurn(StripState(p), k) == StripState(OnTurn(p, k))
  {
    StripAllAt(p.others, k, p.reader);
  }

  lemma StripRetainedRead(p: Proxy, data: seq<Byte>, eof: bool)
    ensures OnRetainedRead(StripState(p), data, eof) == StripState(OnRetainedRead(p, data, eof))
  {
    var p1 := p.(eof := p.eof || eof, input := p.input + data);
    var p2 := p1.(retained := p.retained + [data]);
    StripInput(p, p.eof || eof, p.input + data);
    StripRetained(p1, p.retained + [data]);
    StripClientAt(p1, LoopTop);
    StripClientAt(p2, WritingProcess(p.usable && !p.closed));
  }

  lemma StripClientEvent(p: Proxy, e: Event)
    requires Enabled(p, e) && Orderly(p)
    requires e.ClientTop? || e.ClientReadFails? || e.DirectRead? || e.RetainedRead? || e.ProcessWrite?
    ensures StripsTo(p, e, WithCut(e, StripCut(p, CutOf(e))))
  {
    match e {
      case ClientTop(cut) => StripClientTop(p, cut);
      case ClientReadFails(cut) => StripClientWriteFails(p, cut);
      case DirectRead(data, eof) => StripDirectRead(p, data, eof);
      case RetainedRead(data, eof) => StripRetainedRead(p, data, eof);
      case ProcessWrite(ok) =>
        StripKeepsReaders(p);
        StripProcessWrite(p, ok);
    }
  }

  lemma StripClientWriteEvent(p: Proxy, ok: bool, cut: Cut)
    requires Enabled(p, ClientWriteDone(ok, cut)) && Orderly(p)
    ensures StripsTo(p, ClientWriteDone(ok, cut), ClientWriteDone(ok, StripCut(p, cut)))
  {
    if ok {
      StripClientWriteDone(p);
      StripFinishServer(p, ClientLoop);
    } else {
      StripClientWriteFails(p, cut);
    }
  }

  lemma StripServerEvent(p: Proxy, e: Event)
    requires Enabled(p, e) && Orderly(p)
    requires e.ServerTop? || e.HeadSent? || e.ServerReadFails? || e.ServerRead?
    ensures StripsTo(p, e, WithCut(e, StripCut(p, CutOf(e))))
  {
    match e {
      case ServerTop(cut) => StripServerTop(p, cut);
      case HeadSent => StripServerAt(p, ReadingServer);
      case ServerReadFails(cut) => StripServerWriteDone(p, false, cut);
      case ServerRead(data, eof) => StripServerRead(p, data, eof);
    }
  }

  lemma StripServerWriteEvent(p: Proxy, ok: bool, cut: Cut)
    requires Enabled(p, ServerWriteDone(ok, cut)) && Orderly(p)
    ensures StripsTo(p, ServerWriteDone(ok, cut), ServerWriteDone(ok, StripCut(p, cut)))
  {
    StripServerWriteDone(p, ok, cut);
    if ok { StripFinishClient(p, ServerLoop); }
  }

  lemma StripCanFinish(p: Proxy, ok: bool)
    requires !p.reader.Injecting? && ReaderCanFinish(p, ok) && Orderly(p)
    ensures ReaderCanFinish(StripState(p), ok)
  {
    if p.reader == ReaderFlush && ok { StripFinishServer(p, Reader); }
    if p.reader.Releasing? && ok && (p.reader.count > 0 || p.reader.used > 0) { StripFinishServer(p, Reader); }
  }

  lemma StripReleaseDone(p: Proxy, cut: Cut)
    requires p.reader.Releasing? && ReaderCanFinish(p, true) && Orderly(p)
    requires ReaderCanFinish(StripState(p), true)
    ensures OnReaderWriteDone(StripState(p), true, StripCut(p, cut)) == StripState(OnReaderWriteDone(p, true, cut))
  {
    var count, used, q := p.reader.count, p.reader.used, StripState(p);
    StripReleased(p, count, used);
    assert OnReaderWriteDone(p, true, cut) == OnReleased(p, count, used);
    assert OnReaderWriteDone(q, true, StripCut(p, cut)) == OnReleased(q, count, used);
  }

  lemma StripReaderFlushDone(p: Proxy, cut: Cut)
    requires p.reader == ReaderFlush && ReaderCanFinish(p, true) && Orderly(p)
    requires ReaderCanFinish(StripState(p), true)
    ensures OnReaderWriteDone(StripState(p), true, StripCut(p, cut)) == StripState(OnReaderWriteDone(p, true, cut))
  {
    StripFinishServer(p, Reader);
    StripReaderFlushed(p);
  }

  lemma StripReaderWriteFails(p: Proxy, cut: Cut)
    requires !p.reader.Injecting? && ReaderCanFinish(p, false) && ReaderCanFinish(StripState(p), false)
    ensures OnReaderWriteDone(StripState(p), false, StripCut(p, cut)) == StripState(OnReaderWriteDone(p, false, cut))
  {
    StripClose(p, cut);
    StripReaderAt(Close(p, cut), NoReader);
    StripConnect(Close(p, cut).(reader := NoReader));
  }

  lemma StripHeadEvent(p: Proxy, h: Head, cut: Cut)
    requires Enabled(p, HeadRead(h, cut)) && (h.newData == [] || !Directed(h))
    ensures StripsTo(p, HeadRead(h, cut), HeadRead(StripHead(h, true), StripCut(p, cut)))
  {
    StripHeadRead(p, h, cut);
  }

  lemma StripInjectedEvent(p: Proxy, h: DirectedHead, cut: Cut)
    requires Enabled(p, ReaderWriteDone(true, cut)) && Orderly(p) && p.reader == Injecting(h)
    ensures StripsTo(p, ReaderWriteDone(true, cut), HeadRead(StripHead(h, true), StripCut(InjectionSent(p, h), cut)))
  {
    var g, c := StripHead(h, true), StripCut(InjectionSent(p, h), cut);
    StripInjected(p, h, cut);
    assert Step(p, ReaderWriteDone(true, cut)) == OnVerdict(InjectionSent(p, h), h, cut);
    assert Step(StripState(p), HeadRead(g, c)) == OnHeadRead(StripState(p), g, c);
  }

  lemma StripBrokenInjection(p: Proxy, h: DirectedHead, cut: Cut)
    requires Enabled(p, ReaderWriteDone(false, cut)) && p.reader == Injecting(h)
    ensures StripsTo(p, ReaderWriteDone(false, cut), HeadRead(StripHead(h, false), StripCut(p, cut)))
  {
    var g, c := StripHead(h, false), StripCut(p, cut);
    StripInjectionFails(p, h, cut);
    assert Step(p, ReaderWriteDone(false, cut)) == Close(p, cut).(reader := NoReader);
    assert Step(StripState(p), HeadRead(g, c)) == OnHeadRead(StripState(p), g, c);
  }

  lemma StripReaderWriteEvent(p: Proxy, ok: bool, cut: Cut)
    requires Enabled(p, ReaderWriteDone(ok, cut)) && Orderly(p) && !p.reader.Injecting?
    ensures StripsTo(p, ReaderWriteDone(ok, cut), ReaderWriteDone(ok, StripCut(p, cut)))
  {
    StripCanFinish(p, ok);
    if !ok {
      StripReaderWriteFails(p, cut);
    } else if p.reader.Releasing? {
      StripReleaseDone(p, cut);
    } else {
      StripReaderFlushDone(p, cut);
    }
  }

  lemma StripConnectionEvent(p: Proxy, e: Event)
    requires Enabled(p, e) && (e.Connected? || e.Greeted? || e.ProcessReadFails? || e.Turn?)
    ensures StripsTo(p, e, e)
  {
    match e {
      case Connected =>
        StripKeepsReaders(p);
        StripConnected(p);
      case Greeted(ok) => StripGreeted(p, ok);
      case ProcessReadFails => StripProcessReadFails(p);
      case Turn(k) => StripTurn(p, k);
    }
  }

  /** One step: the event without new data, if there is one, leads to the state without new data. */
  lemma StripStep(p: Proxy, e: Event)
    requires Enabled(p, e) && Orderly(p)
    ensures StripEvent(p, e) == [] ==> StripState(Step(p, e)) == StripState(p)
    ensures StripEvent(p, e) != [] ==> StripsTo(p, e, StripEvent(p, e)[0])
  {
    if StripEvent(p, e) == [] {
      StripInjecting(p, e.head, e.cut);
    } else {
      match e {
        case HeadRead(h, cut) => StripHeadEvent(p, h, cut);
        case ReaderWriteDone(ok, cut) =>
          if !p.reader.Injecting? {
            StripReaderWriteEvent(p, ok, cut);
          } else if ok {
            StripInjectedEvent(p, p.reader.head, cut);
          } else {
            StripBrokenInjection(p, p.reader.head, cut);
          }
        case ServerWriteDone(ok, cut) => StripServerWriteEvent(p, ok, cut);
        case ClientWriteDone(ok, cut) => StripClientWriteEvent(p, ok, cut);
        case Connected => StripConnectionEvent(p, e);
        case Greeted(_) => StripConnectionEvent(p, e);
        case ProcessReadFails => StripConnectionEvent(p, e);
        case Turn(_) => StripConnectionEvent(p, e);
        case ServerTop(_) => StripServerEvent(p, e);
        case HeadSent => StripServerEvent(p, e);
        case ServerReadFails(_) => StripServerEvent(p, e);
        case ServerRead(_, _) => StripServerEvent(p, e);
        case _ => StripClientEvent(p, e);
      }
    }
  }

  // ---------------------------------------------------------------- whole runs

  lemma StepIsOrderly(p: Proxy, e: Event)
    requires Enabled(p, e) && Orderly(p)
    ensures Orderly(Step(p, e))
  {
    if p.closed {
      ClosedStep(p, e);
    } else {
      ClosesIff(p, e);
      if Closes(p, e) { ClosingShuts(p, e); }
    }
  }

  lemma StripPassExclusive(p: Proxy, h: Head, ok: bool)
    requires ok ==> VerdictFits(p, h) && PassIsExclusive(p, h)
    ensures VerdictFits(StripState(p), StripHead(h, ok)) && PassIsExclusive(StripState(p), StripHead(h, ok))
  {
    StripKeepsReaders(p);
  }

  /** Whether two writes that release the deque overlap does not depend on new data. */
  lemma StripExclusive(p: Proxy, e: Event)
    requires Enabled(p, e) && Exclusive(p, e) && StripEvent(p, e) != []
    requires Enabled(StripState(p), StripEvent(p, e)[0])
    ensures Exclusive(StripState(p), StripEvent(p, e)[0])
  {
    StripKeepsReaders(p);
    match e {
      case HeadRead(h, _) => if h.newData == [] { StripPassExclusive(p, h, true); }
      case ReaderWriteDone(ok, _) => if p.reader.Injecting? { StripPassExclusive(p, p.reader.head, ok); }
      case _ =>
    }
  }

  predicate NothingInjected(es: seq<Event>) {
    forall i :: 0 <= i < |es| ==> es[i].HeadRead? ==> es[i].head.newData == []
  }

  lemma {:induction false} StrippedRunInjectsNothing(p: Proxy, es: seq<Event>)
    requires EnabledRun(p, es)
    ensures NothingInjected(StripEvents(p, es))
    decreases |es|
  {
    if es != [] {
      StrippedRunInjectsNothing(Step(p, es[0]), es[1..]);
      assert NothingInjected(StripEvent(p, es[0]));
    }
  }

  /** Non-interference of new data over whole runs: for any run of the session, whatever new data the
      handler makes and whether or not writing it breaks, there is a run in which it makes none, with
      the same reads, that leads to the same state and the same outputs with the new data erased. */
  lemma {:induction false} NewDataDoesNotInterfere(p: Proxy, es: seq<Event>)
    requires Orderly(p) && EnabledRun(p, es)
    ensures EnabledRun(StripState(p), StripEvents(p, es))
    ensures GuardedRun(p, es) ==> GuardedRun(StripState(p), StripEvents(p, es))
    ensures RunEvents(StripState(p), StripEvents(p, es)) == StripState(RunEvents(p, es))
    decreases |es|
  {
    if es != [] {
      var e, rest := es[0], StripEvents(Step(p, es[0]), es[1..]);
      StripStep(p, e);
      StepIsOrderly(p, e);
      NewDataDoesNotInterfere(Step(p, e), es[1..]);
      if StripEvent(p, e) == [] {
        assert StripEvents(p, es) == rest;
      } else {
        assert StripEvents(p, es)[0] == StripEvent(p, e)[0] && StripEvents(p, es)[1..] == rest;
        if !p.closed && Exclusive(p, e) { StripExclusive(p, e); }
      }
    }
  }

  /** From a new session in particular: with and without the new data the peers were read alike, the
      same packets wait, the session is open or closed alike, and the same of the peers' bytes have
      arrived on both sides. */
  lemma InjectionChangesNoPeerBytes(es: seq<Event>)
    requires EnabledRun(START, es)
    ensures var fs := StripEvents(START, es);
            && NothingInjected(fs) && EnabledRun(START, fs)
            && var p, q := RunEvents(START, es), RunEvents(START, fs);
               && q.input == p.input && q.fromServer == p.fromServer
               && q.retained == p.retained && q.closed == p.closed
               && Arrived(q.toServer) == Arrived(p.toServer) && Arrived(q.toClient) == Arrived(p.toClient)
  {
    assert StripState(START) == START;
    NewDataDoesNotInterfere(START, es);
    StrippedRunInjectsNothing(START, es);
    var p := RunEvents(START, es);
    ErasedIsRelayed(p.toServer.sent);
    ErasedIsRelayed(p.toClient.sent);
  }

  // ---------------------------------------------------------------- handlers that only pass

  lemma {:induction false} RelayedFirstBytes(q: seq<Chunk>, n: nat)
    requires OnlyRelayed(q) == q
    ensures OnlyRelayed(FirstBytes(q, n)) == FirstBytes(q, n)
  {
    if q != [] && n > 0 {
      var c, rest := q[0], q[1..];
      OnlyRelayedShrinks(rest);
      assert c.Relayed? && OnlyRelayed(q)[1..] == OnlyRelayed(rest);
      if c.data == [] {
        RelayedFirstBytes(rest, n);
      } else if n < |c.data| {
        OnlyRelayedOne(c.(data := c.data[..n]));
      } else {
        RelayedFirstBytes(rest, n - |c.data|);
        OnlyRelayedFront(c, FirstBytes(rest, n - |c.data|));
      }
    }
  }

  /** Where there is no new data, taking it away changes no cut. */
  lemma RelayedCut(p: Proxy, cut: Cut)
    requires StripState(p) == p
    ensures Close(p, StripCut(p, cut)) == Close(p, cut)
  {
    StripFirstBytes(p.toServer.queue, cut.server);
    StripFirstBytes(p.toClient.queue, cut.client);
    RelayedFirstBytes(p.toServer.queue, cut.server);
    RelayedFirstBytes(p.toClient.queue, cut.client);
  }

  /** The cut of an event matters only for the close. */
  lemma SameClose(p: Proxy, e: Event, cut: Cut)
    requires Enabled(p, e) && !p.reader.Injecting? && Close(p, cut) == Close(p, CutOf(e))
    ensures Enabled(p, WithCut(e, cut)) && Step(p, WithCut(e, cut)) == Step(p, e)
  {
  }

  lemma PassingStepInjectsNothing(p: Proxy, e: Event)
    requires Enabled(p, e) && Orderly(p) && StripState(p) == p && (e.HeadRead? ==> e.head.newData == [])
    ensures StripState(Step(p, e)) == Step(p, e)
  {
    assert !StripState(p).reader.Injecting?;
    StripStep(p, e);
    RelayedCut(p, CutOf(e));
    SameClose(p, e, StripCut(p, CutOf(e)));
    if e.HeadRead? { assert StripHead(e.head, true) == e.head; }
  }

  lemma {:induction false} PassingRunInjectsNothing(p: Proxy, es: seq<Event>)
    requires Orderly(p) && StripState(p) == p && EnabledRun(p, es) && NothingInjected(es)
    ensures StripState(RunEvents(p, es)) == RunEvents(p, es)
    decreases |es|
  {
    if es != [] {
      PassingStepInjectsNothing(p, es[0]);
      StepIsOrderly(p, es[0]);
      assert NothingInjected(es[1..]);
      PassingRunInjectsNothing(Step(p, es[0]), es[1..]);
    }
  }

  /** With a handler that only passes, the bytes that reach the sockets themselves, with nothing
      erased, are the peers' bytes. */
  lemma PassingHandlerIsTransparent(es: seq<Event>)
    requires EnabledRun(START, es) && GuardedRun(START, es) && NothingInjected(es)
    ensures var p := RunEvents(START, es);
            && Bytes(p.toServer.sent) <= p.input && Bytes(p.toClient.sent) <= p.fromServer
            && (!p.closed ==>
                  && Bytes(p.toServer.sent) + (Concat(p.retained) + DirectData(p)) == p.input
                  && Bytes(p.toClient.sent) + ResponseData(p) == p.fromServer)
  {
    assert StripState(START) == START;
    PassingRunInjectsNothing(START, es);
    var p := RunEvents(START, es);
    BytesOfRelayed(p.toServer.sent);
    BytesOfRelayed(p.toClient.sent);
    ServerSeesClientBytes(es);
  }

  // ---------------------------------------------------------------- after the verdict

  /** Once closed, no event changes either output, whatever was still under way. */
  lemma {:induction false} ClosedIsFinal(p: Proxy, es: seq<Event>)
    requires p.closed && Orderly(p) && EnabledRun(p, es)
    ensures var q := RunEvents(p, es);
            q.closed && q.toServer == p.toServer && q.toClient == p.toClient
    decreases |es|
  {
    if es != [] {
      ClosedStep(p, es[0]);
      ClosedIsFinal(Step(p, es[0]), es[1..]);
    }
  }

  lemma {:induction false} BytesAppend(a: seq<Chunk>, b: seq<Chunk>)
    ensures Bytes(a + b) == Bytes(a) + Bytes(b)
  {
    if a == [] {
      assert a + b == b;
    } else {
      BytesAppend(a[1..], b);
      assert (a + b)[0] == a[0] && (a + b)[1..] == a[1..] + b;
      Assoc(a[0].data, Bytes(a[1..]), Bytes(b));
    }
  }

  lemma {:induction false} FirstBytesAre(q: seq<Chunk>, n: nat)
    ensures Bytes(FirstBytes(q, n)) == Bytes(q)[..if n <= |Bytes(q)| then n else |Bytes(q)|]
  {
    if q != [] && n > 0 {
      var c, rest := q[0], q[1..];
      if c.data == [] {
        FirstBytesAre(rest, n);
      } else if n < |c.data| {
        var part := c.(data := c.data[..n]);
        assert Bytes([part]) == part.data + Bytes([]);
      } else {
        FirstBytesAre(rest, n - |c.data|);
        assert FirstBytes(q, n)[1..] == FirstBytes(rest, n - |c.data|);
      }
    }
  }

  /** What a socket gets in all: what was out, then some first bytes of what was under way. */
  predicate GetsPartOf(before: Out, after: Out) {
    && after.queue == []
    && Bytes(before.sent) <= Bytes(after.sent) <= Bytes(before.sent) + Bytes(before.queue)
  }

  lemma ShutGetsPart(o: Out, n: nat)
    ensures GetsPartOf(o, Shut(o, n))
  {
    BytesAppend(o.sent, FirstBytes(o.queue, n));
    FirstBytesAre(o.queue, n);
  }

  lemma FinishMovesBytes(o: Out)
    ensures Bytes(Finish(o).sent) + Bytes(Finish(o).queue) == Bytes(o.sent) + Bytes(o.queue)
    ensures Bytes(o.sent) <= Bytes(Finish(o).sent)
  {
    if o.queue != [] {
      var c, rest := o.queue[0], o.queue[1..];
      BytesAppend(o.sent, [c]);
      assert Bytes([c]) == c.data + Bytes([]);
      Assoc(Bytes(o.sent), c.data, Bytes(rest));
    }
  }

  /** New data announced with a block verdict goes out before the close. */
  lemma AtCloseServer(p: Proxy, e: Event, n: nat)
    ensures GetsPartOf(p.toServer, Shut(AtClose(p, e).toServer, n))
  {
    GetsPartAfterFinish(p.toServer, n);
    assert AtClose(p, e).toServer == p.toServer || AtClose(p, e).toServer == Finish(p.toServer);
  }

  lemma AtCloseClient(p: Proxy, e: Event, n: nat)
    ensures GetsPartOf(p.toClient, Shut(AtClose(p, e).toClient, n))
  {
    GetsPartAfterFinish(p.toClient, n);
    assert AtClose(p, e).toClient == p.toClient || AtClose(p, e).toClient == Finish(p.toClient);
  }

  lemma GetsPartAfterFinish(o: Out, n: nat)
    ensures GetsPartOf(o, Shut(o, n)) && GetsPartOf(o, Shut(Finish(o), n))
  {
    ShutGetsPart(o, n);
    ShutGetsPart(Finish(o), n);
    FinishMovesBytes(o);
  }

  /** A close of any kind releases none of the retained bytes: on both sockets nothing goes out but
      writes that were under way, new data included, and both stay as they are for the rest of the run. */
  lemma CloseFreezesOutputs(p: Proxy, e: Event, es: seq<Event>)
    requires !p.closed && Enabled(p, e) && Closes(p, e) && EnabledRun(Step(p, e), es)
    ensures var q := RunEvents(Step(p, e), es);
            q.closed && GetsPartOf(p.toServer, q.toServer) && GetsPartOf(p.toClient, q.toClient)
  {
    ClosingShuts(p, e);
    ClosedIsFinal(Step(p, e), es);
    AtCloseServer(p, e, CutOf(e).server);
    AtCloseClient(p, e, CutOf(e).client);
  }

  /** A block verdict with new data leaves the session open until that is written; the reader reads no
      further answer meanwhile. */
  lemma BlockWaitsForNewData(p: Proxy, h: Head, cut: Cut)
    requires !p.closed && p.reader == Reading && Directed(h) && h.act == BLOCK && h.newData != []
    ensures var q := Step(p, HeadRead(h, cut));
            !q.closed && q.reader == Injecting(h) && q.retained == p.retained
  {
  }

  /** The event that acts on a block verdict: reading it, or completing the write of its new data. */
  function BlockEvent(p: Proxy, h: Head, cut: Cut): Event {
    if p.reader.Injecting? then ReaderWriteDone(true, cut) else HeadRead(h, cut)
  }

  lemma NewDataIsOut(p: Proxy, h: DirectedHead, cut: Cut)
    requires !p.closed && p.reader == Injecting(h) && h.act == BLOCK && ReaderAtFront(p)
    ensures var q := OnReaderWriteDone(p, true, cut);
            if h.kind == FROM_CLIENT_TO_SERVER then p.toServer.sent + [Injected(h.newData)] <= q.toServer.sent
            else p.toClient.sent + [Injected(h.newData)] <= q.toClient.sent
  {
    VerdictShuts(InjectionSent(p, h), h, cut);
  }

  /** What a block verdict comes to: from the event that acts on it on, and for the rest of the run, the
      session is closed, its new data is out, whole and in its place, and nothing else goes out but
      (some first bytes of) the writes that were under way: no retained packet is released. */
  lemma BlockFreezesOutputs(p: Proxy, h: Head, cut: Cut, es: seq<Event>)
    requires !p.closed && Directed(h) && h.act == BLOCK
    requires (p.reader == Reading && h.newData == []) || (p.reader.Injecting? && p.reader.head == h && ReaderAtFront(p))
    requires EnabledRun(Step(p, BlockEvent(p, h, cut)), es)
    ensures var q := RunEvents(Step(p, BlockEvent(p, h, cut)), es);
            && q.closed && GetsPartOf(p.toServer, q.toServer) && GetsPartOf(p.toClient, q.toClient)
            && (h.newData != [] && h.kind == FROM_CLIENT_TO_SERVER ==>
                  p.toServer.sent + [Injected(h.newData)] <= q.toServer.sent)
            && (h.newData != [] && h.kind == FROM_SERVER_TO_CLIENT ==>
                  p.toClient.sent + [Injected(h.newData)] <= q.toClient.sent)
  {
    var e := BlockEvent(p, h, cut);
    ClosingShuts(p, e);
    CloseFreezesOutputs(p, e, es);
    ClosedIsFinal(Step(p, e), es);
    if p.reader.Injecting? { NewDataIsOut(p, p.reader.head, cut); }
  }
}
