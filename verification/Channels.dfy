/** The two channels of a connection over whole runs: the handler is fed exactly the frames the proxy
    wrote since it connected, the greeting first, in order; and the proxy reads exactly what the
    handler answered to these, with heartbeats anywhere in between. */
module Channels {
  import opened Wire
  import opened Outputs
  import opened ProxyMachine
  import opened Transparency
  import opened History
  import opened Handler
  import opened Protocol
  import opened Delivery

  function MovesBefore(ms: seq<Move>): seq<Move>
    requires ms != []
  {
    ms[..|ms| - 1]
  }

  function LastMove(ms: seq<Move>): Move
    requires ms != []
  {
    ms[|ms| - 1]
  }

  lemma {:induction false} MovesThenLast(s: System, ms: seq<Move>)
    requires ms != [] && PossibleMoves(s, ms)
    ensures PossibleMoves(s, MovesBefore(ms)) && CanMove(RunMoves(s, MovesBefore(ms)), LastMove(ms))
    ensures RunMoves(s, ms) == Next(RunMoves(s, MovesBefore(ms)), LastMove(ms))
    decreases |ms|
  {
    if |ms| == 1 {
      assert ms[1..] == [] && MovesBefore(ms) == [];
    } else {
      assert MovesBefore(ms)[1..] == MovesBefore(ms[1..]) && LastMove(ms[1..]) == LastMove(ms);
      MovesThenLast(Next(s, ms[0]), ms[1..]);
    }
  }

  /** What was written to a channel since the connection came up, and what was read from it. */
  datatype Traffic = Traffic(framesOut: seq<Frame>, framesIn: seq<Frame>, headsOut: seq<Head>, headsIn: seq<Head>)

  /** A move that starts from `s` adds to the traffic; a new connection begins with its greeting. */
  function AddMove(t: Traffic, s: System, m: Move): Traffic
    requires CanMove(s, m)
  {
    match m
    case Local(e) =>
      if e == Connected then Traffic([Frame(FOUR_TUPLE, s.greeting)], [], [], [])
      else t.(framesOut := t.framesOut + FramesSent(s.proxy, e))
    case Deliver => t.(headsIn := t.headsIn + [s.backward[0]])
    case Consume => t.(framesIn := t.framesIn + [s.forward[0]], headsOut := t.headsOut + Handle(s.peer, s.forward[0]).1)
    case Heartbeat => t.(headsOut := t.headsOut + [Head(HEARTBEAT, PASS, [], 0)])
  }

  function TrafficOf(greeting: seq<Byte>, ms: seq<Move>): Traffic
    requires PossibleMoves(Start(greeting), ms)
    decreases |ms|
  {
    if ms == [] then Traffic([], [], [], [])
    else
      MovesThenLast(Start(greeting), ms);
      AddMove(TrafficOf(greeting, MovesBefore(ms)), RunMoves(Start(greeting), MovesBefore(ms)), LastMove(ms))
  }

  /** The answers to frames, heartbeats left out. */
  function Answers(hs: seq<Head>): seq<Head> {
    if hs == [] then [] else (if hs[0].kind == HEARTBEAT then [] else [hs[0]]) + Answers(hs[1..])
  }

  lemma {:induction false} AnswersAppend(a: seq<Head>, b: seq<Head>)
    ensures Answers(a + b) == Answers(a) + Answers(b)
  {
    if a == [] {
      assert a + b == b;
    } else {
      assert (a + b)[0] == a[0] && (a + b)[1..] == a[1..] + b;
      AnswersAppend(a[1..], b);
    }
  }

  /** The handler was fed these frames from the start, and its answers to them are those written. */
  predicate Fed(t: Traffic, peer: Peer) {
    peer == HandleAll(NEW_PEER, t.framesIn).0 && Answers(t.headsOut) == HandleAll(NEW_PEER, t.framesIn).1
  }

  /** Nothing written on the connection is lost, made up or reordered. */
  predicate InOrder(t: Traffic, s: System) {
    && t.framesOut == t.framesIn + s.forward && t.headsOut == t.headsIn + s.backward
    && t.framesOut != [] && t.framesOut[0] == Frame(FOUR_TUPLE, s.greeting)
  }

  lemma HandleNoHeartbeat(p: Peer, f: Frame)
    ensures Answers(Handle(p, f).1) == Handle(p, f).1
  {
    var hs := Handle(p, f).1;
    if hs != [] { assert hs[1..] == []; }
  }

  lemma ConsumeFeeds(t: Traffic, s: System)
    requires Fed(t, s.peer) && CanMove(s, Consume)
    ensures Fed(AddMove(t, s, Consume), Next(s, Consume).peer)
  {
    var f := s.forward[0];
    OneMore(NEW_PEER, t.framesIn, f);
    AnswersAppend(t.headsOut, Handle(s.peer, f).1);
    HandleNoHeartbeat(s.peer, f);
  }

  lemma HeartbeatIsNoAnswer(hs: seq<Head>)
    ensures Answers(hs + [Head(HEARTBEAT, PASS, [], 0)]) == Answers(hs)
  {
    AnswersAppend(hs, [Head(HEARTBEAT, PASS, [], 0)]);
    assert Answers([Head(HEARTBEAT, PASS, [], 0)]) == [] + Answers([]);
  }

  lemma MoveFeeds(t: Traffic, s: System, m: Move)
    requires Fed(t, s.peer) && CanMove(s, m)
    ensures Fed(AddMove(t, s, m), Next(s, m).peer)
  {
    match m {
      case Local(e) =>
      case Deliver =>
      case Consume => ConsumeFeeds(t, s);
      case Heartbeat => HeartbeatIsNoAnswer(t.headsOut);
    }
  }

  lemma LocalKeepsOrder(t: Traffic, s: System, e: Event)
    requires CanMove(s, Local(e)) && e != Connected && MoveLocal(s, e).proxy.usable
    requires s.proxy.usable ==> InOrder(t, s)
    ensures InOrder(AddMove(t, s, Local(e)), MoveLocal(s, e))
  {
    StepFollows(s.proxy, e);
    assert t.framesIn + (s.forward + FramesSent(s.proxy, e)) == (t.framesIn + s.forward) + FramesSent(s.proxy, e);
  }

  lemma DeliverKeepsOrder(t: Traffic, s: System)
    requires CanMove(s, Deliver) && Next(s, Deliver).proxy.usable
    requires s.proxy.usable ==> InOrder(t, s)
    ensures InOrder(AddMove(t, s, Deliver), Next(s, Deliver))
  {
    StepFollows(s.proxy, EventOf(s, Deliver));
    assert s.backward == [s.backward[0]] + s.backward[1..];
    assert t.headsIn + ([s.backward[0]] + s.backward[1..]) == (t.headsIn + [s.backward[0]]) + s.backward[1..];
  }

  lemma PeerKeepsOrder(t: Traffic, s: System, m: Move)
    requires CanMove(s, m) && (m == Consume || m == Heartbeat) && InOrder(t, s)
    ensures InOrder(AddMove(t, s, m), Next(s, m))
  {
    var more := if m == Consume then Handle(s.peer, s.forward[0]).1 else [Head(HEARTBEAT, PASS, [], 0)];
    assert t.headsIn + (s.backward + more) == (t.headsIn + s.backward) + more;
    if m == Consume {
      assert s.forward == [s.forward[0]] + s.forward[1..];
      assert t.framesIn + ([s.forward[0]] + s.forward[1..]) == (t.framesIn + [s.forward[0]]) + s.forward[1..];
    }
  }

  lemma MoveKeepsOrder(t: Traffic, s: System, m: Move)
    requires CanMove(s, m) && Next(s, m).proxy.usable
    requires s.proxy.usable ==> InOrder(t, s)
    ensures InOrder(AddMove(t, s, m), Next(s, m))
  {
    match m {
      case Local(e) => if e != Connected { LocalKeepsOrder(t, s, e); }
      case Deliver => DeliverKeepsOrder(t, s);
      case _ => PeerKeepsOrder(t, s, m);
    }
  }

  /** Over every run of the two processes, guarded or not: while the connection is in use, what the
      handler consumed and what is on its way are the frames written since the connection came up, the
      greeting first; what the proxy took and what is on its way are the heads the handler wrote; and
      the handler is always in the state, and wrote the answers, of one fed what it consumed. */
  lemma {:induction false} ChannelsKeepOrder(greeting: seq<Byte>, ms: seq<Move>)
    requires PossibleMoves(Start(greeting), ms)
    ensures var s, t := RunMoves(Start(greeting), ms), TrafficOf(greeting, ms);
            && Fed(t, s.peer) && s.greeting == greeting && (s.proxy.usable ==> InOrder(t, s))
    decreases |ms|
  {
    if ms != [] {
      MovesThenLast(Start(greeting), ms);
      ChannelsKeepOrder(greeting, MovesBefore(ms));
      var s, t := RunMoves(Start(greeting), MovesBefore(ms)), TrafficOf(greeting, MovesBefore(ms));
      MoveFeeds(t, s, LastMove(ms));
      if Next(s, LastMove(ms)).proxy.usable { MoveKeepsOrder(t, s, LastMove(ms)); }
    }
  }
}
