/** The server sees exactly the client's bytes, whatever the handler answers and however its
    connection fails, as long as writes that release the deque do not overlap; and where they do
    overlap, bytes are lost or duplicated. */
module Transparency {
  import opened Wire
  import opened Retention
  import opened Outputs
  import opened ProxyMachine

  // ---------------------------------------------------------------- the invariant

  /** A reader whose write releases packets of the deque. */
  predicate IsBusy(r: ReaderAt) {
    r == ReaderFlush || (r.Releasing? && r != Releasing(0, 0))
  }

  function Count(r: ReaderAt): nat { if IsBusy(r) then 1 else 0 }

  function BusyCount(rs: seq<ReaderAt>): nat {
    if rs == [] then 0 else Count(rs[0]) + BusyCount(rs[1..])
  }

  /** The first busy reader of a list, if there is one. */
  function FirstBusy(rs: seq<ReaderAt>): (r: ReaderAt)
    ensures if BusyCount(rs) == 0 then r == NoReader else IsBusy(r)
  {
    if rs == [] then NoReader else if IsBusy(rs[0]) then rs[0] else FirstBusy(rs[1..])
  }

  /** The busy reader of a session, if there is one. */
  function Busy(p: Proxy): ReaderAt {
    if IsBusy(p.reader) then p.reader else FirstBusy(p.others)
  }

  /** The retained packets that no write under way covers: a flush covers all of them, since the
      deque is cleared when it completes. */
  function Uncovered(ps: seq<Packet>, flushing: bool, r: ReaderAt): seq<Packet> {
    if flushing || r == ReaderFlush then []
    else if r.Releasing? && InRange(ps, r.count, r.used) then Clear(ps, r.count, r.used)
    else ps
  }

  function Unsent(p: Proxy): seq<Packet> {
    Uncovered(p.retained, p.client == ClientFlush, Busy(p))
  }

  /** Nothing lost, duplicated or reordered: what was written to the server, then what is still to
      be written, is what the client sent. */
  predicate Conserved(p: Proxy) {
    Started(p.toServer) + Concat(Unsent(p)) == p.input
  }

  predicate Flushing(p: Proxy) {
    p.client == ClientFlush || Busy(p) == ReaderFlush
  }

  /** Some write under way releases packets of the deque. */
  predicate Releases(p: Proxy) {
    p.client == ClientFlush || Busy(p) != NoReader
  }

  /** At most one write that releases the deque is under way, and its split fits the deque. */
  predicate OneRelease(p: Proxy) {
    && NonEmpty(p.retained)
    && Count(p.reader) + BusyCount(p.others) <= 1
    && (Busy(p).Releasing? ==> InRange(p.retained, Busy(p).count, Busy(p).used) && p.client != ClientFlush)
    && (Busy(p) == ReaderFlush ==> p.retained != [] && p.client != ClientFlush)
    && (p.client == ClientFlush ==> p.retained != [])
  }

  predicate RelayingDirectly(p: Proxy) {
    p.client == ReadingDirect || p.client.WritingServer?
  }

  /** A direct relay never overtakes: while the client loop relays, or the handler is out of reach,
      nothing waits in the deque but what a flush under way covers, or a packet whose framed write is
      about to fail. */
  predicate NoOvertaking(p: Proxy) {
    && (RelayingDirectly(p) ==> p.retained == [] || Busy(p) == ReaderFlush)
    && (!p.usable && p.client != WritingProcess(false) ==> p.retained == [] || Flushing(p))
    && (GreetingUnderWay(p) && !p.client.WritingProcess? ==> p.retained == [] || Flushing(p))
    && (p.usable ==> !p.bypass && !p.connecting)
  }

  predicate Prefixes(p: Proxy) {
    Started(p.toServer) <= p.input && Started(p.toClient) <= p.fromServer
  }

  predicate Inv(p: Proxy) {
    && Prefixes(p)
    && (!p.closed ==> OneRelease(p) && Conserved(p) && NoOvertaking(p) && Started(p.toClient) == p.fromServer)
  }

  /** A pass releases no bytes. */
  predicate ReleasesNothing(p: Proxy, h: Head)
    requires Fits(p.retained, p.handled, h.handled)
  {
    var r := PrepareWrapping(p.retained, p.handled, h.handled);
    r.count == 0 && r.used == 0
  }

  predicate PassIsExclusive(p: Proxy, h: Head)
    requires VerdictFits(p, h)
  {
    h.kind == FROM_CLIENT_TO_SERVER && h.act != BLOCK && Releases(p) ==> ReleasesNothing(p, h)
  }

  /** The write an event starts does not overlap another one on the same deque, and nothing is
      appended to a deque about to be cleared. The code does not enforce this. */
  predicate Exclusive(p: Proxy, e: Event)
    requires Enabled(p, e)
  {
    match e
    case RetainedRead(data, _) => data != [] ==> Busy(p) != ReaderFlush
    case ProcessWrite(ok) => !ok ==> !Releases(p)
    case HeadRead(h, _) => h.newData == [] ==> PassIsExclusive(p, h)
    case ReaderWriteDone(ok, _) => ok && p.reader.Injecting? ==> PassIsExclusive(p, p.reader.head)
    case ProcessReadFails => !Releases(p)
    case _ => true
  }

  // ---------------------------------------------------------------- several readers

  lemma {:induction false} TurnCounts(rs: seq<ReaderAt>, k: nat, r: ReaderAt)
    requires k < |rs|
    ensures BusyCount(rs[k := r]) + Count(rs[k]) == BusyCount(rs) + Count(r)
  {
    if k == 0 {
      assert rs[k := r][1..] == rs[1..];
    } else {
      assert rs[k := r][1..] == rs[1..][k - 1 := r];
      TurnCounts(rs[1..], k - 1, r);
    }
  }

  lemma {:induction false} OneIsFirst(rs: seq<ReaderAt>, k: nat)
    requires k < |rs| && IsBusy(rs[k]) && BusyCount(rs) <= 1
    ensures FirstBusy(rs) == rs[k]
  {
    if k > 0 {
      HasCount(rs[1..], k - 1);
      OneIsFirst(rs[1..], k - 1);
    }
  }

  lemma {:induction false} HasCount(rs: seq<ReaderAt>, k: nat)
    requires k < |rs| && IsBusy(rs[k])
    ensures BusyCount(rs) >= 1
  {
    if k > 0 { HasCount(rs[1..], k - 1); }
  }

  /** Putting an idle reader in another idle one's place leaves the busy one first. */
  lemma {:induction false} IdleTurn(rs: seq<ReaderAt>, k: nat, r: ReaderAt)
    requires k < |rs| && !IsBusy(rs[k]) && !IsBusy(r)
    ensures FirstBusy(rs[k := r]) == FirstBusy(rs)
  {
    if k == 0 {
      assert rs[k := r][1..] == rs[1..];
    } else {
      assert rs[k := r][1..] == rs[1..][k - 1 := r];
      IdleTurn(rs[1..], k - 1, r);
    }
  }

  /** Whose turn it is does not matter. */
  lemma TurnKeepsBusy(p: Proxy, k: nat)
    requires k < |p.others| && Count(p.reader) + BusyCount(p.others) <= 1
    ensures Busy(OnTurn(p, k)) == Busy(p)
    ensures Count(OnTurn(p, k).reader) + BusyCount(OnTurn(p, k).others) == Count(p.reader) + BusyCount(p.others)
  {
    var q := OnTurn(p, k);
    TurnCounts(p.others, k, p.reader);
    if IsBusy(p.reader) {
      assert q.others[k] == p.reader;
      if IsBusy(p.others[k]) { HasCount(p.others, k); }
      OneIsFirst(q.others, k);
    } else if IsBusy(p.others[k]) {
      OneIsFirst(p.others, k);
    } else {
      IdleTurn(p.others, k, p.reader);
    }
  }

  lemma {:induction false} LeftOver(rs: seq<ReaderAt>, r: ReaderAt)
    ensures BusyCount(rs + [r]) == BusyCount(rs) + Count(r)
    ensures FirstBusy(rs + [r]) == if BusyCount(rs) == 0 && IsBusy(r) then r else FirstBusy(rs)
  {
    if rs == [] {
      assert [] + [r] == [r] && [r][1..] == [];
    } else {
      assert (rs + [r])[0] == rs[0] && (rs + [r])[1..] == rs[1..] + [r];
      LeftOver(rs[1..], r);
    }
  }

  lemma ConnectedKeepsBusy(p: Proxy)
    requires Count(p.reader) + BusyCount(p.others) <= 1
    ensures Busy(OnConnected(p)) == Busy(p)
    ensures Count(OnConnected(p).reader) + BusyCount(OnConnected(p).others) == Count(p.reader) + BusyCount(p.others)
  {
    LeftOver(p.others, p.reader);
  }

  // ---------------------------------------------------------------- closing and completing

  lemma ClosePrefixes(p: Proxy, cut: Cut)
    requires Prefixes(p)
    ensures var q := Close(p, cut);
            q.closed && Prefixes(q) && q.input == p.input && q.fromServer == p.fromServer
  {
    ShutErases(p.toServer, cut.server);
    ShutErases(p.toClient, cut.client);
  }

  lemma CloseKeepsInv(p: Proxy, cut: Cut)
    requires Inv(p)
    ensures Inv(Close(p, cut).(client := ClientDone))
    ensures Inv(Close(p, cut).(server := ServerDone))
    ensures Inv(Close(p, cut).(reader := NoReader))
  {
    ClosePrefixes(p, cut);
  }

  lemma FinishServerKeepsInv(p: Proxy)
    requires Inv(p)
    ensures Inv(p.(toServer := Finish(p.toServer)))
  {
    FinishErases(p.toServer);
  }

  lemma FinishClientKeepsInv(p: Proxy)
    requires Inv(p)
    ensures Inv(p.(toClient := Finish(p.toClient)))
  {
    FinishErases(p.toClient);
  }

  lemma WriteErases(p: Proxy, c: Chunk)
    requires !p.closed
    ensures Started(WriteToServer(p, c).toServer) == Started(p.toServer) + RelayedBytes(c)
    ensures Started(WriteToClient(p, c).toClient) == Started(p.toClient) + RelayedBytes(c)
  {
    StartErases(p.toServer, c);
    StartErases(p.toClient, c);
  }

  /** Starting a flush writes what the deque holds: correct exactly if nothing of it is on its way. */
  lemma FlushStarts(p: Proxy, owner: Owner)
    requires !p.closed && p.retained != []
    ensures var q := StartFlush(p, owner);
            && q == p.(bypass := true, usable := false, toServer := q.toServer)
            && Started(q.toServer) == Started(p.toServer) + Concat(p.retained)
  {
    StartErases(p.toServer, Relayed(owner, Concat(p.retained)));
  }

  lemma PassStarts(p: Proxy, ack: nat)
    requires Fits(p.retained, p.handled, ack) && !p.closed
    ensures var q, r := OnPass(p, ack), PrepareWrapping(p.retained, p.handled, ack);
            && q == p.(handled := q.handled, released := q.released, toServer := q.toServer,
                       reader := Releasing(r.count, r.used))
            && Started(q.toServer) == Started(p.toServer) + Concat(Released(p.retained, r.count, r.used))
  {
    var r := PrepareWrapping(p.retained, p.handled, ack);
    StartErases(p.toServer, Relayed(Reader, Concat(Released(p.retained, r.count, r.used))));
  }

  // ---------------------------------------------------------------- client loop

  lemma ClientReadsKeepsInv(p: Proxy)
    requires Inv(p) && p.client == LoopTop
    ensures Inv(p.(client := if p.bypass then ReadingDirect else ReadingRetained))
  {
  }

  lemma ClientTopKeepsInv(p: Proxy, cut: Cut)
    requires Inv(p) && p.client == LoopTop
    ensures Inv(OnClientTop(p, cut))
  {
    if p.eof { CloseKeepsInv(p, cut); } else { ClientReadsKeepsInv(p); }
  }

  lemma RelayStarts(p: Proxy, q: Proxy, data: seq<Byte>)
    requires Inv(p) && p.client == ReadingDirect
    requires q == p.(eof := q.eof, input := p.input + data, toServer := q.toServer, client := WritingServer(data))
    requires if p.closed then q.toServer == p.toServer else Started(q.toServer) == Started(p.toServer) + data
    ensures Inv(q)
  {
    if !p.closed {
      assert Unsent(p) == [];
      assert Started(p.toServer) == p.input;
    }
  }

  lemma DirectReadKeepsInv(p: Proxy, data: seq<Byte>, eof: bool)
    requires Inv(p) && p.client == ReadingDirect
    ensures Inv(OnDirectRead(p, data, eof))
  {
    if data != [] {
      var p1 := p.(eof := p.eof || eof, input := p.input + data);
      if !p.closed { WriteErases(p1, Relayed(ClientLoop, data)); }
      RelayStarts(p, OnDirectRead(p, data, eof), data);
    }
  }

  /** A packet appended, also behind a release under way, is a packet more to be written. */
  lemma AppendIsUnsent(p: Proxy, data: seq<Byte>, eof: bool)
    requires OneRelease(p) && p.client == ReadingRetained && Busy(p) != ReaderFlush && data != []
    ensures var q := OnRetainedRead(p, data, eof);
            && OneRelease(q)
            && Unsent(q) == Unsent(p) + [data]
            && Concat(Unsent(q)) == Concat(Unsent(p)) + data
  {
    if Busy(p).Releasing? {
      AppendsCommuteWithClear(p.retained, [data], Busy(p).count, Busy(p).used);
    }
    ConcatSnoc(Unsent(p), data);
  }

  lemma MoreToWrite(p: Proxy, q: Proxy, data: seq<Byte>)
    requires Inv(p) && !p.closed && p.client == ReadingRetained && OneRelease(q)
    requires q == p.(eof := q.eof, input := p.input + data, retained := q.retained, client := WritingProcess(p.usable))
    requires Concat(Unsent(q)) == Concat(Unsent(p)) + data
    ensures Inv(q)
  {
    Assoc(Started(p.toServer), Concat(Unsent(p)), data);
  }

  lemma RetainedReadKeepsInv(p: Proxy, data: seq<Byte>, eof: bool)
    requires Inv(p) && p.client == ReadingRetained
    requires !p.closed && data != [] ==> Busy(p) != ReaderFlush
    ensures Inv(OnRetainedRead(p, data, eof))
  {
    if !p.closed && data != [] {
      AppendIsUnsent(p, data, eof);
      MoreToWrite(p, OnRetainedRead(p, data, eof), data);
    }
  }

  lemma ProcessWriteKeepsInv(p: Proxy, ok: bool)
    requires Inv(p) && p.client.WritingProcess? && (ok ==> p.client.sent && !GreetingUnderWay(p))
    requires !p.closed && !ok ==> !Releases(p)
    ensures Inv(OnProcessWrite(p, ok))
  {
    if !p.closed && !ok && p.retained != [] {
      assert Unsent(p) == p.retained;
      FlushStarts(p, ClientLoop);
    }
  }

  lemma ClientWriteDoneKeepsInv(p: Proxy)
    requires Inv(p) && (p.client.WritingServer? || p.client == ClientFlush)
    ensures Inv(OnClientWriteDone(p, true, Cut(0, 0)))
  {
    FinishErases(p.toServer);
  }

  // ---------------------------------------------------------------- server loop

  lemma ServerTopKeepsInv(p: Proxy, cut: Cut)
    requires Inv(p)
    ensures Inv(OnServerTop(p, cut))
  {
    if p.eof { CloseKeepsInv(p, cut); } else { ServerAtKeepsInv(p, OnServerTop(p, cut).server); }
  }

  lemma MoreFromServer(p: Proxy, q: Proxy, data: seq<Byte>)
    requires Inv(p)
    requires q == p.(eof := q.eof, fromServer := p.fromServer + data, toClient := q.toClient, server := q.server)
    requires if p.closed then q.toClient == p.toClient else Started(q.toClient) == Started(p.toClient) + data
    ensures Inv(q)
  {
  }

  lemma ServerReadKeepsInv(p: Proxy, data: seq<Byte>, eof: bool)
    requires Inv(p)
    ensures Inv(OnServerRead(p, data, eof))
  {
    if data != [] {
      var p1 := p.(eof := p.eof || eof, fromServer := p.fromServer + data);
      if !p.closed { WriteErases(p1, Relayed(ServerLoop, data)); }
      MoreFromServer(p, OnServerRead(p, data, eof), data);
    }
  }

  lemma ServerAtKeepsInv(p: Proxy, at: ServerAt)
    requires Inv(p)
    ensures Inv(p.(server := at))
  {
  }

  lemma ServerWriteDoneKeepsInv(p: Proxy, ok: bool, cut: Cut)
    requires Inv(p)
    ensures Inv(OnServerWriteDone(p, ok, cut))
  {
    if ok {
      FinishClientKeepsInv(p);
      ServerAtKeepsInv(p.(toClient := Finish(p.toClient)), ServerLoopTop);
    } else {
      CloseKeepsInv(p, cut);
    }
  }

  // ---------------------------------------------------------------- connection to the handler

  lemma ConnectedKeepsInv(p: Proxy)
    requires Inv(p) && p.connecting
    ensures Inv(OnConnected(p))
  {
    if !p.closed { ConnectedKeepsBusy(p); }
  }

  lemma TurnKeepsInv(p: Proxy, k: nat)
    requires Inv(p) && k < |p.others|
    ensures Inv(OnTurn(p, k))
  {
    if !p.closed {
      TurnKeepsBusy(p, k);
      TurnKeepsGreeting(p, k);
    }
  }

  lemma TurnKeepsGreeting(p: Proxy, k: nat)
    requires k < |p.others|
    ensures GreetingUnderWay(OnTurn(p, k)) == GreetingUnderWay(p)
  {
    var q := OnTurn(p, k);
    assert q.others[k] == p.reader;
    assert forall i :: 0 <= i < |p.others| && i != k ==> q.others[i] == p.others[i];
  }

  lemma GreetedKeepsInv(p: Proxy, ok: bool)
    requires Inv(p) && p.reader == Greeting
    ensures Inv(OnGreeted(p, ok))
  {
  }

  // ---------------------------------------------------------------- reader

  /** While released bytes are on their way, what is to be written is what clearing will leave. */
  lemma ReleasingKeepsInv(p: Proxy, q: Proxy, count: nat, used: nat)
    requires Inv(p) && !p.closed && (p.reader == Reading || p.reader.Injecting?) && !Releases(p)
    requires InRange(p.retained, count, used)
    requires q == p.(handled := q.handled, released := q.released, toServer := q.toServer, reader := Releasing(count, used))
    requires Started(q.toServer) == Started(p.toServer) + Concat(Released(p.retained, count, used))
    ensures Inv(q)
  {
    ForwardedThenKept(Started(p.toServer), p.retained, count, used);
    assert Unsent(p) == p.retained && Unsent(q) == Clear(p.retained, count, used);
  }

  /** A pass that releases nothing may overlap anything. */
  lemma EmptyPassKeepsInv(p: Proxy, h: Head)
    requires Inv(p) && !p.closed && (p.reader == Reading || p.reader.Injecting?)
    requires Fits(p.retained, p.handled, h.handled) && ReleasesNothing(p, h)
    ensures Inv(OnPass(p, h.handled))
  {
    PassStarts(p, h.handled);
    assert Released(p.retained, 0, 0) == [];
    assert Started(p.toServer) + Concat([]) == Started(p.toServer);
  }

  lemma VerdictKeepsInv(p: Proxy, h: Head, cut: Cut)
    requires Inv(p) && (p.reader == Reading || p.reader.Injecting?) && VerdictFits(p, h)
    requires !p.closed ==> PassIsExclusive(p, h)
    ensures Inv(OnVerdict(p, h, cut))
  {
    if h.act == BLOCK {
      CloseKeepsInv(p, cut);
    } else if p.closed {
      assert Prefixes(OnVerdict(p, h, cut));
    } else if h.kind != FROM_CLIENT_TO_SERVER {
      assert Clear(p.retained, 0, 0) == p.retained;
    } else if ReleasesNothing(p, h) {
      EmptyPassKeepsInv(p, h);
    } else {
      PassStarts(p, h.handled);
      var r := PrepareWrapping(p.retained, p.handled, h.handled);
      ReleasingKeepsInv(p, OnPass(p, h.handled), r.count, r.used);
    }
  }

  /** New data goes out between the client's bytes without touching them. */
  lemma InjectionErases(p: Proxy, q: Proxy, h: DirectedHead)
    requires Inv(p) && p.reader == Reading
    requires q == p.(toServer := q.toServer, toClient := q.toClient, reader := Injecting(h))
    requires Started(q.toServer) == Started(p.toServer) && Started(q.toClient) == Started(p.toClient)
    ensures Inv(q)
  {
  }

  lemma InjectingKeepsInv(p: Proxy, h: Head, cut: Cut)
    requires Inv(p) && p.reader == Reading && h.newData != []
    ensures Inv(OnHeadRead(p, h, cut))
  {
    if Directed(h) {
      InjectedWriteErases(p, Injected(h.newData));
      InjectionErases(p, OnHeadRead(p, h, cut), h);
    }
  }

  lemma InjectedWriteErases(p: Proxy, c: Chunk)
    requires c.Injected?
    ensures var q := WriteToServer(p, c); q == p.(toServer := q.toServer) && Started(q.toServer) == Started(p.toServer)
    ensures var q := WriteToClient(p, c); q == p.(toClient := q.toClient) && Started(q.toClient) == Started(p.toClient)
  {
    if !p.closed { WriteErases(p, c); }
  }

  lemma HeadReadKeepsInv(p: Proxy, h: Head, cut: Cut)
    requires Inv(p) && p.reader == Reading
    requires h.newData == [] ==> VerdictFits(p, h) && (!p.closed ==> PassIsExclusive(p, h))
    ensures Inv(OnHeadRead(p, h, cut))
  {
    if h.newData == [] {
      VerdictKeepsInv(p, h, cut);
    } else {
      InjectingKeepsInv(p, h, cut);
    }
  }

  lemma ReleasedKeepsInv(p: Proxy, count: nat, used: nat)
    requires Inv(p) && p.reader == Releasing(count, used) && InRange(p.retained, count, used)
    ensures Inv(OnReleased(p, count, used))
  {
    FinishErases(p.toServer);
    if count == 0 && used == 0 {
      assert Clear(p.retained, 0, 0) == p.retained;
    } else if !p.closed {
      ClearNonEmpty(p.retained, count, used);
    }
  }

  lemma InjectedKeepsInv(p: Proxy, h: DirectedHead, cut: Cut)
    requires Inv(p) && p.reader == Injecting(h) && VerdictFits(p, h)
    requires !p.closed ==> PassIsExclusive(p, h)
    ensures Inv(OnVerdict(InjectionSent(p, h), h, cut))
  {
    if h.kind == FROM_CLIENT_TO_SERVER { FinishServerKeepsInv(p); } else { FinishClientKeepsInv(p); }
    VerdictKeepsInv(InjectionSent(p, h), h, cut);
  }

  lemma SpawnKeepsInv(p: Proxy)
    requires Inv(p) && p.reader == NoReader && p.retained == []
    ensures Inv(SpawnConnect(p))
  {
  }

  lemma ReaderFlushClearsDeque(p: Proxy)
    requires Inv(p) && p.reader == ReaderFlush
    ensures Inv(p.(toServer := Finish(p.toServer), retained := [], reader := NoReader))
  {
    FinishErases(p.toServer);
  }

  lemma ReaderFlushDoneKeepsInv(p: Proxy)
    requires Inv(p) && p.reader == ReaderFlush
    ensures Inv(SpawnConnect(p.(toServer := Finish(p.toServer), retained := [], reader := NoReader)))
  {
    ReaderFlushClearsDeque(p);
    SpawnKeepsInv(p.(toServer := Finish(p.toServer), retained := [], reader := NoReader));
  }

  lemma ReaderWriteDoneKeepsInv(p: Proxy, ok: bool, cut: Cut)
    requires Inv(p) && Enabled(p, ReaderWriteDone(ok, cut))
    requires !p.closed && ok && p.reader.Injecting? ==> PassIsExclusive(p, p.reader.head)
    ensures Inv(OnReaderWriteDone(p, ok, cut))
  {
    if !ok {
      CloseKeepsInv(p, cut);
    } else {
      match p.reader {
        case Injecting(h) => InjectedKeepsInv(p, h, cut);
        case Releasing(count, used) => ReleasedKeepsInv(p, count, used);
        case ReaderFlush => ReaderFlushDoneKeepsInv(p);
      }
    }
  }

  lemma ProcessReadFailsKeepsInv(p: Proxy)
    requires Inv(p) && p.reader == Reading
    requires !p.closed ==> !Releases(p)
    ensures Inv(OnProcessReadFails(p))
  {
    if !p.closed && p.retained != [] {
      FlushStarts(p, Reader);
    }
  }

  /** Every event keeps the invariant, provided deque-releasing writes do not overlap. */
  lemma StepKeepsInv(p: Proxy, e: Event)
    requires Inv(p) && Enabled(p, e)
    requires !p.closed ==> Exclusive(p, e)
    ensures Inv(Step(p, e))
  {
    match e {
      case ClientTop(cut) => ClientTopKeepsInv(p, cut);
      case ClientReadFails(cut) => CloseKeepsInv(p, cut);
      case DirectRead(data, eof) => DirectReadKeepsInv(p, data, eof);
      case RetainedRead(data, eof) => RetainedReadKeepsInv(p, data, eof);
      case ProcessWrite(ok) => ProcessWriteKeepsInv(p, ok);
      case ClientWriteDone(ok, cut) => if ok { ClientWriteDoneKeepsInv(p); } else { CloseKeepsInv(p, cut); }
      case ServerTop(cut) => ServerTopKeepsInv(p, cut);
      case HeadSent => ServerAtKeepsInv(p, ReadingServer);
      case ServerReadFails(cut) => CloseKeepsInv(p, cut);
      case ServerRead(data, eof) => ServerReadKeepsInv(p, data, eof);
      case ServerWriteDone(ok, cut) => ServerWriteDoneKeepsInv(p, ok, cut);
      case Connected => ConnectedKeepsInv(p);
      case Greeted(ok) => GreetedKeepsInv(p, ok);
      case HeadRead(h, cut) => HeadReadKeepsInv(p, h, cut);
      case ReaderWriteDone(ok, cut) => ReaderWriteDoneKeepsInv(p, ok, cut);
      case ProcessReadFails => ProcessReadFailsKeepsInv(p);
      case Turn(k) => TurnKeepsInv(p, k);
    }
  }

  // ---------------------------------------------------------------- the exact condition

  /** A release under way covers some bytes. */
  lemma ReleaseCovers(p: Proxy)
    requires OneRelease(p) && Releases(p)
    ensures p.retained != [] && |Concat(Unsent(p))| < |Concat(p.retained)|
  {
    ConcatNonEmpty(p.retained);
    if Busy(p).Releasing? { ReleasedSome(p.retained, Busy(p).count, Busy(p).used); }
  }

  /** A second flush, or a flush over a release under way, writes the same bytes twice. */
  lemma OverlappingFlushDuplicates(p: Proxy, q: Proxy)
    requires Inv(p) && !p.closed && Releases(p)
    requires Started(q.toServer) == Started(p.toServer) + Concat(p.retained)
    requires q.input == p.input && Unsent(q) == []
    ensures !Conserved(q)
  {
    ReleaseCovers(p);
  }

  lemma LateAppendIsLost(p: Proxy, data: seq<Byte>, eof: bool)
    requires Inv(p) && !p.closed && p.client == ReadingRetained && Busy(p) == ReaderFlush && data != []
    ensures !Conserved(OnRetainedRead(p, data, eof))
  {
    assert Started(p.toServer) + [] == p.input;
  }

  lemma ClientFlushDuplicates(p: Proxy)
    requires Inv(p) && !p.closed && p.client.WritingProcess? && Releases(p)
    ensures !Conserved(OnProcessWrite(p, false))
  {
    ReleaseCovers(p);
    FlushStarts(p, ClientLoop);
    OverlappingFlushDuplicates(p, OnProcessWrite(p, false));
  }

  lemma ReaderFlushDuplicates(p: Proxy)
    requires Inv(p) && !p.closed && p.reader == Reading && Releases(p)
    ensures !Conserved(OnProcessReadFails(p))
  {
    ReleaseCovers(p);
    FlushStarts(p, Reader);
    OverlappingFlushDuplicates(p, OnProcessReadFails(p));
  }

  /** A second release, or a release over a flush under way, writes bytes twice. */
  lemma ReleaseDuplicates(p: Proxy, q: Proxy, count: nat, used: nat)
    requires Inv(p) && !p.closed && Releases(p) && InRange(p.retained, count, used) && (count > 0 || used > 0)
    requires Started(q.toServer) == Started(p.toServer) + Concat(Released(p.retained, count, used))
    requires q.client == p.client && q.retained == p.retained && q.input == p.input
    requires q.reader == Releasing(count, used)
    ensures !Conserved(q)
  {
    ReleasedSome(p.retained, count, used);
    ReleaseCovers(p);
    SplitConserves(p.retained, count, used);
    assert Busy(q) == Releasing(count, used);
  }

  lemma PassOverReleaseDuplicates(p: Proxy, h: Head, cut: Cut)
    requires Inv(p) && !p.closed && VerdictFits(p, h) && !PassIsExclusive(p, h)
    ensures !Conserved(OnVerdict(p, h, cut)) && !OnVerdict(p, h, cut).closed
  {
    PassStarts(p, h.handled);
    var r := PrepareWrapping(p.retained, p.handled, h.handled);
    ReleaseDuplicates(p, OnPass(p, h.handled), r.count, r.used);
  }

  lemma InjectedPassDuplicates(p: Proxy, h: DirectedHead, cut: Cut)
    requires Inv(p) && !p.closed && p.reader == Injecting(h) && VerdictFits(p, h) && !PassIsExclusive(p, h)
    ensures var q := OnVerdict(InjectionSent(p, h), h, cut); !Conserved(q) && !q.closed
  {
    FinishServerKeepsInv(p);
    PassOverReleaseDuplicates(InjectionSent(p, h), h, cut);
  }

  /** An overlapping event never closes the session, and breaks the balance at once. */
  lemma OverlapBreaksConservation(p: Proxy, e: Event)
    requires Inv(p) && !p.closed && Enabled(p, e) && !Exclusive(p, e)
    ensures !Conserved(Step(p, e)) && !Step(p, e).closed
  {
    match e {
      case RetainedRead(data, eof) => LateAppendIsLost(p, data, eof);
      case ProcessWrite(ok) => ClientFlushDuplicates(p);
      case HeadRead(h, cut) => PassOverReleaseDuplicates(p, h, cut);
      case ReaderWriteDone(ok, cut) => InjectedPassDuplicates(p, p.reader.head, cut);
      case ProcessReadFails => ReaderFlushDuplicates(p);
    }
  }

  /** The exact condition: from any state of the invariant, an event that leaves the session open
      loses and duplicates nothing if and only if it does not overlap another deque-releasing write.
      (What an event that closes the session loses is the subject of Closing.) */
  lemma ConservedIffExclusive(p: Proxy, e: Event)
    requires Inv(p) && !p.closed && Enabled(p, e) && !Step(p, e).closed
    ensures Conserved(Step(p, e)) <==> Exclusive(p, e)
  {
    if Exclusive(p, e) { StepKeepsInv(p, e); } else { OverlapBreaksConservation(p, e); }
  }

  // ---------------------------------------------------------------- whole runs

  predicate EnabledRun(p: Proxy, es: seq<Event>)
    decreases |es|
  {
    es == [] || (Enabled(p, es[0]) && EnabledRun(Step(p, es[0]), es[1..]))
  }

  function RunEvents(p: Proxy, es: seq<Event>): Proxy
    requires EnabledRun(p, es)
    decreases |es|
  {
    if es == [] then p else RunEvents(Step(p, es[0]), es[1..])
  }

  function Front(es: seq<Event>): seq<Event>
    requires es != []
  {
    es[..|es| - 1]
  }

  function Last(es: seq<Event>): Event
    requires es != []
  {
    es[|es| - 1]
  }

  /** A run is its front, and then its last event. */
  lemma {:induction false} RunIsFrontThenLast(p: Proxy, es: seq<Event>)
    requires es != [] && EnabledRun(p, es)
    ensures EnabledRun(p, Front(es)) && Enabled(RunEvents(p, Front(es)), Last(es))
    ensures RunEvents(p, es) == Step(RunEvents(p, Front(es)), Last(es))
    decreases |es|
  {
    if |es| == 1 {
      assert es[1..] == [] && Front(es) == [];
    } else {
      assert Front(es)[1..] == Front(es[1..]) && Last(es[1..]) == Last(es);
      RunIsFrontThenLast(Step(p, es[0]), es[1..]);
    }
  }

  /** A run in which no two writes that release the deque overlap. */
  predicate GuardedRun(p: Proxy, es: seq<Event>)
    requires EnabledRun(p, es)
    decreases |es|
  {
    es == [] || ((!p.closed ==> Exclusive(p, es[0])) && GuardedRun(Step(p, es[0]), es[1..]))
  }

  /** In every open state of the run, nothing is lost, duplicated or reordered. */
  predicate ConservedRun(p: Proxy, es: seq<Event>)
    requires EnabledRun(p, es)
    decreases |es|
  {
    && (p.closed || Conserved(p))
    && (es == [] || ConservedRun(Step(p, es[0]), es[1..]))
  }

  // ---------------------------------------------------------------- after a close

  /** A session that was closed stays closed, and puts nothing more on its sockets. */
  predicate StaysClosed(p: Proxy, q: Proxy) {
    q.closed
    && (p.toServer.queue == [] ==> q.toServer == p.toServer)
    && (p.toClient.queue == [] ==> q.toClient == p.toClient)
  }

  lemma ClosedVerdict(p: Proxy, h: Head, cut: Cut)
    requires p.closed && VerdictFits(p, h)
    ensures StaysClosed(p, OnVerdict(p, h, cut))
  {
  }

  lemma ClosedReaderWrite(p: Proxy, ok: bool, cut: Cut)
    requires p.closed && ReaderCanFinish(p, ok)
    ensures StaysClosed(p, OnReaderWriteDone(p, ok, cut))
  {
    if p.reader.Injecting? && ok { ClosedVerdict(InjectionSent(p, p.reader.head), p.reader.head, cut); }
  }

  lemma ClosedProcessWrite(p: Proxy, ok: bool)
    requires p.closed
    ensures StaysClosed(p, OnProcessWrite(p, ok))
  {
  }

  lemma ClosedClientWrite(p: Proxy, ok: bool, cut: Cut)
    requires p.closed
    ensures StaysClosed(p, OnClientWriteDone(p, ok, cut))
  {
  }

  lemma ClosedReads(p: Proxy, data: seq<Byte>, eof: bool)
    requires p.closed
    ensures StaysClosed(p, OnDirectRead(p, data, eof))
    ensures StaysClosed(p, OnRetainedRead(p, data, eof))
    ensures StaysClosed(p, OnServerRead(p, data, eof))
  {
  }

  lemma ClosedHead(p: Proxy, h: Head, cut: Cut)
    requires p.closed && (h.newData == [] ==> VerdictFits(p, h))
    ensures StaysClosed(p, OnHeadRead(p, h, cut))
  {
    if h.newData == [] { ClosedVerdict(p, h, cut); }
  }

  lemma ClosedServerWrite(p: Proxy, ok: bool, cut: Cut)
    requires p.closed
    ensures StaysClosed(p, OnServerWriteDone(p, ok, cut))
  {
  }

  lemma ClosedReadFails(p: Proxy)
    requires p.closed
    ensures StaysClosed(p, OnProcessReadFails(p))
  {
  }

  lemma ClosedStep(p: Proxy, e: Event)
    requires p.closed && Enabled(p, e)
    ensures StaysClosed(p, Step(p, e))
  {
    match e {
      case DirectRead(data, eof) => ClosedReads(p, data, eof);
      case RetainedRead(data, eof) => ClosedReads(p, data, eof);
      case ServerRead(data, eof) => ClosedReads(p, data, eof);
      case ProcessWrite(ok) => ClosedProcessWrite(p, ok);
      case ClientWriteDone(ok, cut) => ClosedClientWrite(p, ok, cut);
      case ServerWriteDone(ok, cut) => ClosedServerWrite(p, ok, cut);
      case HeadRead(h, cut) => ClosedHead(p, h, cut);
      case ReaderWriteDone(ok, cut) => ClosedReaderWrite(p, ok, cut);
      case ProcessReadFails => ClosedReadFails(p);
      case _ =>
    }
  }

  /** Once closed, everything is guarded: there is nothing left to overlap. */
  lemma {:induction false} ClosedRunIsGuarded(p: Proxy, es: seq<Event>)
    requires p.closed && EnabledRun(p, es)
    ensures GuardedRun(p, es) && ConservedRun(p, es)
    decreases |es|
  {
    if es != [] {
      ClosedStep(p, es[0]);
      ClosedRunIsGuarded(Step(p, es[0]), es[1..]);
    }
  }

  lemma {:induction false} ConservedIffGuarded(p: Proxy, es: seq<Event>)
    requires Inv(p) && EnabledRun(p, es)
    ensures ConservedRun(p, es) <==> GuardedRun(p, es)
    decreases |es|
  {
    if p.closed {
      ClosedRunIsGuarded(p, es);
    } else if es != [] {
      var e := es[0];
      if Exclusive(p, e) {
        StepKeepsInv(p, e);
        ConservedIffGuarded(Step(p, e), es[1..]);
      } else {
        OverlapBreaksConservation(p, e);
      }
    }
  }

  lemma StartHolds()
    ensures Inv(START)
  {
  }

  /** Transparency, exactly: of all runs from a new session, with any handler, any failures and any
      schedule, those that conserve the client's bytes in every open state are those in which no two
      writes that release the deque overlap. */
  lemma TransparentIffGuarded(es: seq<Event>)
    requires EnabledRun(START, es)
    ensures ConservedRun(START, es) <==> GuardedRun(START, es)
  {
    StartHolds();
    ConservedIffGuarded(START, es);
  }
}
