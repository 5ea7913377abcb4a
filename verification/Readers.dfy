/** How many readers of the handler's answers a session has. One reader is started for every
    connection and is meant to end with it, but a new connection does not wait for that: here is
    exactly when two readers come to share a socket. */
module Readers {
  import opened Wire
  import opened Retention
  import opened Outputs
  import opened ProxyMachine
  import opened Transparency

  function Live(r: ReaderAt): nat { if r == NoReader then 0 else 1 }

  function LiveAmong(rs: seq<ReaderAt>): nat {
    if rs == [] then 0 else Live(rs[0]) + LiveAmong(rs[1..])
  }

  /** The readers that have not ended, the greeting that comes before a reader included. */
  function LiveReaders(p: Proxy): nat {
    Live(p.reader) + LiveAmong(p.others)
  }

  lemma {:induction false} LiveAppend(rs: seq<ReaderAt>, r: ReaderAt)
    ensures LiveAmong(rs + [r]) == LiveAmong(rs) + Live(r)
  {
    if rs == [] {
      assert [] + [r] == [r] && [r][1..] == [];
    } else {
      assert (rs + [r])[0] == rs[0] && (rs + [r])[1..] == rs[1..] + [r];
      LiveAppend(rs[1..], r);
    }
  }

  lemma {:induction false} LiveUpdate(rs: seq<ReaderAt>, k: nat, r: ReaderAt)
    requires k < |rs|
    ensures LiveAmong(rs[k := r]) + Live(rs[k]) == LiveAmong(rs) + Live(r)
  {
    if k == 0 {
      assert rs[k := r][1..] == rs[1..];
    } else {
      assert rs[k := r][1..] == rs[1..][k - 1 := r];
      LiveUpdate(rs[1..], k - 1, r);
    }
  }

  /** The same readers, or the one whose turn it is ended. */
  predicate NoneStarts(p: Proxy, q: Proxy) {
    q.others == p.others && Live(q.reader) <= Live(p.reader)
  }

  lemma VerdictStartsNone(p: Proxy, h: Head, cut: Cut)
    requires VerdictFits(p, h) && p.reader != NoReader
    ensures NoneStarts(p, OnVerdict(p, h, cut)) && OnVerdict(p, h, cut).connecting == p.connecting
  {
    if h.act != BLOCK && h.kind == FROM_CLIENT_TO_SERVER { PassStartsNone(p, h.handled); }
  }

  lemma PassStartsNone(p: Proxy, ack: nat)
    requires Fits(p.retained, p.handled, ack)
    ensures OnPass(p, ack).reader.Releasing? && OnPass(p, ack).others == p.others && OnPass(p, ack).connecting == p.connecting
  {
  }

  lemma ReaderWriteStartsNone(p: Proxy, ok: bool, cut: Cut)
    requires ReaderCanFinish(p, ok)
    ensures var q := OnReaderWriteDone(p, ok, cut);
            NoneStarts(p, q) && (q.connecting && !p.connecting ==> q.reader == NoReader)
  {
    match p.reader {
      case Injecting(h) => if ok { VerdictStartsNone(InjectionSent(p, h), h, cut); }
      case Releasing(_, _) =>
      case ReaderFlush =>
    }
  }

  lemma ReadFailsStartsNone(p: Proxy)
    requires p.reader == Reading
    ensures var q := OnProcessReadFails(p);
            NoneStarts(p, q) && (q.connecting && !p.connecting ==> q.reader == NoReader)
  {
  }

  /** The client loop starts to reconnect: a framed write failed and nothing was retained, or its flush
      is complete. */
  predicate ClientLoopReconnects(p: Proxy, e: Event) {
    (e == ProcessWrite(false) && p.retained == []) || (p.client == ClientFlush && e.ClientWriteDone? && e.ok)
  }

  /** The same readers. */
  predicate SameReaders(p: Proxy, q: Proxy) {
    q.others == p.others && q.reader == p.reader
  }

  lemma ProcessWriteStartsNone(p: Proxy, ok: bool)
    ensures var q := OnProcessWrite(p, ok);
            SameReaders(p, q) && (!p.connecting ==> (q.connecting <==> !ok && p.retained == []))
  {
  }

  lemma ClientWriteStartsNone(p: Proxy, ok: bool, cut: Cut)
    ensures var q := OnClientWriteDone(p, ok, cut);
            SameReaders(p, q) && (!p.connecting ==> (q.connecting <==> ok && p.client == ClientFlush))
  {
  }

  lemma ReadsStartNone(p: Proxy, data: seq<Byte>, eof: bool)
    ensures SameReaders(p, OnDirectRead(p, data, eof)) && OnDirectRead(p, data, eof).connecting == p.connecting
    ensures SameReaders(p, OnRetainedRead(p, data, eof)) && OnRetainedRead(p, data, eof).connecting == p.connecting
  {
  }

  lemma ServerStartsNone(p: Proxy, data: seq<Byte>, eof: bool, ok: bool, cut: Cut)
    ensures SameReaders(p, OnServerRead(p, data, eof)) && OnServerRead(p, data, eof).connecting == p.connecting
    ensures SameReaders(p, OnServerWriteDone(p, ok, cut)) && OnServerWriteDone(p, ok, cut).connecting == p.connecting
  {
  }

  /** A loop of the peers leaves the readers alone; only the client loop starts to reconnect. */
  lemma LoopsStartNone(p: Proxy, e: Event)
    requires Enabled(p, e)
    requires !e.Connected? && !e.Greeted? && !e.HeadRead? && !e.ReaderWriteDone? && !e.ProcessReadFails? && !e.Turn?
    ensures SameReaders(p, Step(p, e))
    ensures !p.connecting ==> (Step(p, e).connecting <==> ClientLoopReconnects(p, e))
  {
    match e {
      case ProcessWrite(ok) => ProcessWriteStartsNone(p, ok);
      case ClientWriteDone(ok, cut) => ClientWriteStartsNone(p, ok, cut);
      case DirectRead(data, eof) => ReadsStartNone(p, data, eof);
      case RetainedRead(data, eof) => ReadsStartNone(p, data, eof);
      case ServerRead(data, eof) => ServerStartsNone(p, data, eof, true, Cut(0, 0));
      case ServerWriteDone(ok, cut) => ServerStartsNone(p, [], true, ok, cut);
      case _ =>
    }
  }

  /** Apart from a new connection, no event makes a reader. */
  lemma OnlyConnectedStarts(p: Proxy, e: Event)
    requires Enabled(p, e) && !e.Connected?
    ensures LiveReaders(Step(p, e)) <= LiveReaders(p)
  {
    match e {
      case Greeted(_) =>
      case HeadRead(h, cut) => if h.newData == [] { VerdictStartsNone(p, h, cut); }
      case ReaderWriteDone(ok, cut) => ReaderWriteStartsNone(p, ok, cut);
      case ProcessReadFails => ReadFailsStartsNone(p);
      case Turn(k) => LiveUpdate(p.others, k, p.reader);
      case _ => LoopsStartNone(p, e);
    }
  }

  lemma ConnectedStartsOne(p: Proxy)
    ensures LiveReaders(OnConnected(p)) == LiveReaders(p) + 1
  {
    LiveAppend(p.others, p.reader);
  }

  /** One event: a second reader is started exactly by a connection that comes up while one is left. */
  lemma SecondReaderIff(p: Proxy, e: Event)
    requires Enabled(p, e) && LiveReaders(p) <= 1
    ensures LiveReaders(Step(p, e)) > 1 <==> e == Connected && LiveReaders(p) == 1
  {
    if e == Connected { ConnectedStartsOne(p); } else { OnlyConnectedStarts(p, e); }
  }

  /** And a reader is left to be found there exactly when it was the client loop that started to
      reconnect: a reader that starts to reconnect itself ends with that. */
  lemma ReconnectLeavesReaderIff(p: Proxy, e: Event)
    requires Enabled(p, e) && LiveReaders(p) == 1 && !p.connecting
    ensures Step(p, e).connecting && LiveReaders(Step(p, e)) == 1 <==> ClientLoopReconnects(p, e)
  {
    match e {
      case Greeted(_) =>
      case HeadRead(h, cut) => if h.newData == [] { VerdictStartsNone(p, h, cut); }
      case ReaderWriteDone(ok, cut) => ReaderWriteStartsNone(p, ok, cut);
      case ProcessReadFails => ReadFailsStartsNone(p);
      case Turn(k) =>
      case Connected =>
      case _ => LoopsStartNone(p, e);
    }
  }

  // ---------------------------------------------------------------- whole runs

  /** In no state of the run are there two readers. */
  predicate OneReaderRun(p: Proxy, es: seq<Event>)
    requires EnabledRun(p, es)
    decreases |es|
  {
    LiveReaders(p) <= 1 && (es == [] || OneReaderRun(Step(p, es[0]), es[1..]))
  }

  /** Every connection of the run comes up when the readers of the earlier ones have ended. */
  predicate ConnectionsWait(p: Proxy, es: seq<Event>)
    requires EnabledRun(p, es)
    decreases |es|
  {
    es == [] || ((es[0] == Connected ==> LiveReaders(p) == 0) && ConnectionsWait(Step(p, es[0]), es[1..]))
  }

  lemma {:induction false} OneReaderIffConnectionsWait(p: Proxy, es: seq<Event>)
    requires EnabledRun(p, es) && LiveReaders(p) <= 1
    ensures OneReaderRun(p, es) <==> ConnectionsWait(p, es)
    decreases |es|
  {
    if es != [] {
      SecondReaderIff(p, es[0]);
      if LiveReaders(Step(p, es[0])) <= 1 {
        OneReaderIffConnectionsWait(Step(p, es[0]), es[1..]);
      }
    }
  }

  /** Of all runs from a new session, those that never have two readers are exactly those in which
      every connection waits for the reader of the one before. */
  lemma NeverTwoReadersIff(es: seq<Event>)
    requires EnabledRun(START, es)
    ensures OneReaderRun(START, es) <==> ConnectionsWait(START, es)
  {
    OneReaderIffConnectionsWait(START, es);
  }
}
