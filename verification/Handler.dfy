/** The handler process's side of a session: it cuts the stream into frames, counts handled bytes
    and answers with cumulative acknowledgements. */
module Handler {
  import opened Wire

  /** The two counters wrap at 64 bits; `seen` is the history of what handle_request was given. */
  datatype Peer = Peer(req: U64, res: U64, seen: seq<Byte>)

  const NEW_PEER := Peer(0, 0, [])

  /** Handling one frame: the state after it and the heads it is answered with. */
  function Handle(p: Peer, f: Frame): (Peer, seq<Head>) {
    if f.kind == FROM_CLIENT_TO_SERVER then
      var q := p.(req := (p.req + |f.body|) % TWO64, seen := p.seen + f.body);
      (q, [Head(FROM_CLIENT_TO_SERVER, PASS, [], q.req)])
    else if f.kind == FROM_SERVER_TO_CLIENT then
      var q := p.(res := (p.res + |f.body|) % TWO64);
      (q, if f.body == [] then [] else [Head(FROM_SERVER_TO_CLIENT, PASS, [], q.res)])
    else (p, [])
  }

  function HandleAll(p: Peer, fs: seq<Frame>): (Peer, seq<Head>)
    decreases |fs|
  {
    if fs == [] then (p, [])
    else
      var (q, hs) := Handle(p, fs[0]);
      var (r, more) := HandleAll(q, fs[1..]);
      (r, hs + more)
  }

  lemma {:induction false} AnswersEncodable(p: Peer, fs: seq<Frame>)
    ensures forall i :: 0 <= i < |HandleAll(p, fs).1| ==> HandleAll(p, fs).1[i].Encodable()
    decreases |fs|
  {
    if fs != [] { AnswersEncodable(Handle(p, fs[0]).0, fs[1..]); }
  }

  /** Frames may be handled in any batches: the state carries everything that matters. */
  lemma {:induction false} HandlingIsIncremental(p: Peer, a: seq<Frame>, b: seq<Frame>)
    ensures HandleAll(p, a + b).0 == HandleAll(HandleAll(p, a).0, b).0
    ensures HandleAll(p, a + b).1 == HandleAll(p, a).1 + HandleAll(HandleAll(p, a).0, b).1
    decreases |a|
  {
    if a == [] {
      assert a + b == b;
    } else {
      assert (a + b)[0] == a[0] && (a + b)[1..] == a[1..] + b;
      HandlingIsIncremental(Handle(p, a[0]).0, a[1..], b);
    }
  }

  /** The client's packets among frames, and the acknowledgements among heads. */
  function Bodies(fs: seq<Frame>): seq<seq<Byte>> {
    if fs == [] then []
    else (if fs[0].kind == FROM_CLIENT_TO_SERVER then [fs[0].body] else []) + Bodies(fs[1..])
  }

  function Acks(hs: seq<Head>): seq<nat> {
    if hs == [] then []
    else (if hs[0].kind == FROM_CLIENT_TO_SERVER then [hs[0].handled] else []) + Acks(hs[1..])
  }

  lemma {:induction false} AcksAppend(a: seq<Head>, b: seq<Head>)
    ensures Acks(a + b) == Acks(a) + Acks(b)
  {
    if a == [] {
      assert a + b == b;
    } else {
      var first: seq<nat> := if a[0].kind == FROM_CLIENT_TO_SERVER then [a[0].handled] else [];
      assert (a + b)[0] == a[0] && (a + b)[1..] == a[1..] + b;
      AcksAppend(a[1..], b);
      assert first + (Acks(a[1..]) + Acks(b)) == (first + Acks(a[1..])) + Acks(b);
    }
  }

  lemma {:induction false} BodiesAppend(a: seq<Frame>, b: seq<Frame>)
    ensures Bodies(a + b) == Bodies(a) + Bodies(b)
  {
    if a == [] {
      assert a + b == b;
    } else {
      assert (a + b)[1..] == a[1..] + b;
      BodiesAppend(a[1..], b);
    }
  }

  lemma {:induction false} HandledTotals(p: Peer, fs: seq<Frame>)
    ensures HandleAll(p, fs).0.seen == p.seen + Concat(Bodies(fs))
    ensures HandleAll(p, fs).0.req == (p.req + |Concat(Bodies(fs))|) % TWO64
    decreases |fs|
  {
    if fs != [] {
      var f, q, tail := fs[0], Handle(p, fs[0]).0, fs[1..];
      HandledTotals(q, tail);
      if f.kind == FROM_CLIENT_TO_SERVER {
        ConcatCons(f.body, Bodies(tail));
        Assoc(p.seen, f.body, Concat(Bodies(tail)));
        WrapTwice(p.req, |f.body|, |Concat(Bodies(tail))|);
      } else {
        assert Bodies(fs) == Bodies(tail);
      }
    }
  }

  function RunningTotals(start: U64, bodies: seq<seq<Byte>>): (r: seq<nat>)
    ensures |r| == |bodies|
    decreases |bodies|
  {
    if bodies == [] then []
    else
      var total: U64 := (start + |bodies[0]|) % TWO64;
      [total] + RunningTotals(total, bodies[1..])
  }

  lemma {:induction false} RunningTotalAt(start: U64, bodies: seq<seq<Byte>>, i: nat)
    requires i < |bodies|
    ensures RunningTotals(start, bodies)[i] == (start + |Concat(bodies[..i + 1])|) % TWO64
    decreases i
  {
    var b, tail := bodies[0], bodies[1..];
    assert bodies[..i + 1] == [b] + tail[..i];
    ConcatCons(b, tail[..i]);
    if i > 0 {
      RunningTotalAt((start + |b|) % TWO64, tail, i - 1);
      WrapTwice(start, |b|, |Concat(tail[..i])|);
    }
  }

  lemma {:induction false} AcksAreTotals(p: Peer, fs: seq<Frame>)
    ensures Acks(HandleAll(p, fs).1) == RunningTotals(p.req, Bodies(fs))
    decreases |fs|
  {
    if fs != [] {
      var f, q, tail := fs[0], Handle(p, fs[0]).0, fs[1..];
      AcksAreTotals(q, tail);
      AcksAppend(Handle(p, f).1, HandleAll(q, tail).1);
      if f.kind == FROM_CLIENT_TO_SERVER {
        assert Acks(Handle(p, f).1) == [q.req] + Acks([]);
        assert Bodies(fs)[1..] == Bodies(tail);
      } else {
        assert Bodies(fs) == Bodies(tail);
      }
    }
  }

  /** The n-th acknowledgement is the running total up to the n-th packet, counted modulo 2^64, and
      handle_request is given exactly the packets' bytes, in order. */
  lemma AcksAreRunningTotals(p: Peer, fs: seq<Frame>)
    ensures HandleAll(p, fs).0.seen == p.seen + Concat(Bodies(fs))
    ensures HandleAll(p, fs).0.req == (p.req + |Concat(Bodies(fs))|) % TWO64
    ensures |Acks(HandleAll(p, fs).1)| == |Bodies(fs)|
    ensures forall i :: 0 <= i < |Bodies(fs)| ==>
      Acks(HandleAll(p, fs).1)[i] == (p.req + |Concat(Bodies(fs)[..i + 1])|) % TWO64
  {
    HandledTotals(p, fs);
    AcksAreTotals(p, fs);
    TotalsAtAll(p.req, Bodies(fs), Acks(HandleAll(p, fs).1));
  }

  lemma TotalsAtAll(start: U64, bodies: seq<seq<Byte>>, acks: seq<nat>)
    requires acks == RunningTotals(start, bodies)
    ensures forall i :: 0 <= i < |bodies| ==> acks[i] == (start + |Concat(bodies[..i + 1])|) % TWO64
  {
    forall i | 0 <= i < |bodies|
      ensures acks[i] == (start + |Concat(bodies[..i + 1])|) % TWO64
    {
      RunningTotalAt(start, bodies, i);
    }
  }

  lemma WrapTwice(a: nat, b: nat, c: nat)
    ensures ((a + b) % TWO64 + c) % TWO64 == (a + b + c) % TWO64
  {
    var q := (a + b) / TWO64;
    assert a + b == q * TWO64 + (a + b) % TWO64;
  }

  // ---------------------------------------------------------------- every answer, of either kind

  /** A packet is always answered, a response only if it came with its data. */
  predicate IsAnswered(f: Frame) {
    f.kind == FROM_CLIENT_TO_SERVER || (f.kind == FROM_SERVER_TO_CLIENT && f.body != [])
  }

  function Answered(fs: seq<Frame>): seq<Frame> {
    if fs == [] then [] else (if IsAnswered(fs[0]) then [fs[0]] else []) + Answered(fs[1..])
  }

  /** The bytes that frames of a kind carry. */
  function Carried(kind: Byte, fs: seq<Frame>): nat {
    if fs == [] then 0 else (if fs[0].kind == kind then |fs[0].body| else 0) + Carried(kind, fs[1..])
  }

  function Counter(p: Peer, kind: Byte): U64 {
    if kind == FROM_CLIENT_TO_SERVER then p.req else p.res
  }

  lemma CounterMoves(p: Peer, f: Frame, kind: Byte)
    requires kind == FROM_CLIENT_TO_SERVER || kind == FROM_SERVER_TO_CLIENT
    ensures Counter(Handle(p, f).0, kind) == (Counter(p, kind) + if f.kind == kind then |f.body| else 0) % TWO64
  {
  }

  /** Each counter is the running total of the bytes of its own kind. */
  lemma {:induction false} CountersAreTotals(p: Peer, fs: seq<Frame>, kind: Byte)
    requires kind == FROM_CLIENT_TO_SERVER || kind == FROM_SERVER_TO_CLIENT
    ensures Counter(HandleAll(p, fs).0, kind) == (Counter(p, kind) + Carried(kind, fs)) % TWO64
    decreases |fs|
  {
    if fs != [] {
      var q := Handle(p, fs[0]).0;
      CounterMoves(p, fs[0], kind);
      CountersAreTotals(q, fs[1..], kind);
      WrapTwice(Counter(p, kind), if fs[0].kind == kind then |fs[0].body| else 0, Carried(kind, fs[1..]));
    }
  }

  /** The answer to the last frame of a list: the total of its kind. */
  function AnswerTo(p: Peer, before: seq<Frame>): Head
    requires before != [] && IsAnswered(before[|before| - 1])
  {
    var kind := before[|before| - 1].kind;
    Head(kind, PASS, [], (Counter(p, kind) + Carried(kind, before)) % TWO64)
  }

  lemma FirstAnswer(p: Peer, f: Frame)
    ensures !IsAnswered(f) ==> Handle(p, f).1 == []
    ensures IsAnswered(f) ==> Handle(p, f).1 == [AnswerTo(p, [f])]
  {
    assert Carried(f.kind, [f]) == |f.body| + Carried(f.kind, [f][1..]);
  }

  lemma LaterAnswer(p: Peer, f: Frame, before: seq<Frame>)
    requires before != [] && IsAnswered(before[|before| - 1])
    ensures IsAnswered(([f] + before)[|before|]) && AnswerTo(Handle(p, f).0, before) == AnswerTo(p, [f] + before)
  {
    var kind := before[|before| - 1].kind;
    assert ([f] + before)[1..] == before;
    CounterMoves(p, f, kind);
    WrapTwice(Counter(p, kind), if f.kind == kind then |f.body| else 0, Carried(kind, before));
  }

  lemma UnansweredCountsNothing(p: Peer, f: Frame)
    requires !IsAnswered(f)
    ensures Handle(p, f).0.req == p.req && Handle(p, f).0.res == p.res
  {
  }

  /** The n-th head answers the n-th frame. */
  predicate AnswerInTurn(p: Peer, hs: seq<Head>, fs: seq<Frame>) {
    |hs| == |fs| && forall i :: 0 <= i < |fs| ==> IsAnswered(fs[i]) && hs[i] == AnswerTo(p, fs[..i + 1])
  }

  lemma AnswerOneMore(p: Peer, f: Frame, hs: seq<Head>, fs: seq<Frame>)
    requires IsAnswered(f) && AnswerInTurn(Handle(p, f).0, hs, fs)
    ensures AnswerInTurn(p, [AnswerTo(p, [f])] + hs, [f] + fs)
  {
    var all := [f] + fs;
    forall i | 0 <= i < |all|
      ensures IsAnswered(all[i]) && ([AnswerTo(p, [f])] + hs)[i] == AnswerTo(p, all[..i + 1])
    {
      if i == 0 {
        assert all[..1] == [f];
      } else {
        assert all[..i + 1] == [f] + fs[..i];
        LaterAnswer(p, f, fs[..i]);
      }
    }
  }

  lemma AnswerSame(p: Peer, f: Frame, hs: seq<Head>, fs: seq<Frame>)
    requires !IsAnswered(f) && AnswerInTurn(Handle(p, f).0, hs, fs)
    ensures AnswerInTurn(p, hs, fs)
  {
    UnansweredCountsNothing(p, f);
  }

  lemma AnswersCons(p: Peer, fs: seq<Frame>)
    requires fs != []
    ensures HandleAll(p, fs).1 == Handle(p, fs[0]).1 + HandleAll(Handle(p, fs[0]).0, fs[1..]).1
    ensures Handle(p, fs[0]).1 == [] ==> HandleAll(p, fs).1 == HandleAll(Handle(p, fs[0]).0, fs[1..]).1
    ensures Answered(fs) == if IsAnswered(fs[0]) then [fs[0]] + Answered(fs[1..]) else Answered(fs[1..])
  {
  }

  /** Every answer of the handler: packets, and responses that came with their data, are answered in
      order, each with its own kind, a pass, no new data, and the bytes of that kind so far, its own
      included, counted modulo 2^64; nothing else is answered. */
  lemma {:induction false} AnswersAreRunningTotals(p: Peer, fs: seq<Frame>)
    ensures AnswerInTurn(p, HandleAll(p, fs).1, Answered(fs))
    decreases |fs|
  {
    if fs != [] {
      var f, q := fs[0], Handle(p, fs[0]).0;
      var more, later := HandleAll(q, fs[1..]).1, Answered(fs[1..]);
      AnswersAreRunningTotals(q, fs[1..]);
      FirstAnswer(p, f);
      AnswersCons(p, fs);
      if IsAnswered(f) { AnswerOneMore(p, f, more, later); } else { AnswerSame(p, f, more, later); }
    }
  }

  /** The bytes answered to a list of frames. */
  function AnswerBytes(p: Peer, fs: seq<Frame>): seq<Byte> {
    AnswersEncodable(p, fs);
    Concat(EncodeHeads(HandleAll(p, fs).1))
  }

  lemma EncodeHeadsCons(h: Head, hs: seq<Head>)
    requires h.Encodable()
    requires forall i :: 0 <= i < |hs| ==> hs[i].Encodable()
    ensures forall i :: 0 <= i < |[h] + hs| ==> ([h] + hs)[i].Encodable()
    ensures Concat(EncodeHeads([h] + hs)) == EncodeHead(h) + Concat(EncodeHeads(hs))
  {
    assert ([h] + hs)[0] == h && ([h] + hs)[1..] == hs;
    ConcatCons(EncodeHead(h), EncodeHeads(hs));
  }

  lemma OneAnswer(p: Peer, f: Frame)
    ensures |Handle(p, f).1| <= 1
    ensures HandleAll(p, [f]) == Handle(p, f)
    ensures forall i :: 0 <= i < |Handle(p, f).1| ==> Handle(p, f).1[i].Encodable()
    ensures AnswerBytes(p, [f]) == if Handle(p, f).1 == [] then [] else EncodeHead(Handle(p, f).1[0])
  {
    assert [f][1..] == [];
    var hs := Handle(p, f).1;
    if hs != [] {
      assert hs == [hs[0]] && hs[0].Encodable();
      EncodeHeadsCons(hs[0], []);
      assert [hs[0]] + [] == hs;
    }
  }

  lemma AnswerBytesCons(p: Peer, f: Frame, fs: seq<Frame>)
    ensures AnswerBytes(p, [f] + fs) == AnswerBytes(p, [f]) + AnswerBytes(Handle(p, f).0, fs)
    ensures HandleAll(p, [f] + fs).0 == HandleAll(Handle(p, f).0, fs).0
  {
    var hs, more := Handle(p, f).1, HandleAll(Handle(p, f).0, fs).1;
    OneAnswer(p, f);
    AnswersEncodable(Handle(p, f).0, fs);
    assert ([f] + fs)[1..] == fs;
    if hs != [] {
      assert hs == [hs[0]];
      EncodeHeadsCons(hs[0], more);
    } else {
      assert hs + more == more;
    }
  }

  lemma {:induction false} AnswerBytesAppend(p: Peer, fs: seq<Frame>, f: Frame)
    ensures AnswerBytes(p, fs + [f]) == AnswerBytes(p, fs) + AnswerBytes(HandleAll(p, fs).0, [f])
    ensures HandleAll(p, fs + [f]).0 == Handle(HandleAll(p, fs).0, f).0
    decreases |fs|
  {
    if fs == [] {
      assert fs + [f] == [f];
      OneAnswer(p, f);
    } else {
      var g, tail := fs[0], fs[1..];
      assert fs + [f] == [g] + (tail + [f]) && fs == [g] + tail;
      AnswerBytesCons(p, g, tail + [f]);
      AnswerBytesCons(p, g, tail);
      AnswerBytesAppend(Handle(p, g).0, tail, f);
      Assoc(AnswerBytes(p, [g]), AnswerBytes(Handle(p, g).0, tail), AnswerBytes(HandleAll(p, fs).0, [f]));
    }
  }

  // ---------------------------------------------------------------- the end of the stream

  /** The buffer after a read of `len` bytes that got only `got`: it grows if it must, and keeps what
      lies behind. */
  function ReadInto(buf: seq<Byte>, got: seq<Byte>, len: nat): (r: seq<Byte>)
    requires |got| <= len
    ensures len <= |r| && got <= r
    ensures |got| == len ==> r[..len] == got
  {
    got + (if len > |buf| then buf + seq(len - |buf|, i => 0) else buf)[|got|..]
  }

  function BufferAfter(buf: seq<Byte>, fs: seq<Frame>): seq<Byte>
    decreases |fs|
  {
    if fs == [] then buf else BufferAfter(ReadInto(buf, fs[0].body, |fs[0].body|), fs[1..])
  }

  /** The five bytes of a head when the stream ends within it: `was` is what their memory held. */
  function LastHead(rest: seq<Byte>, was: seq<Byte>): (head: seq<Byte>)
    requires |was| == 5
    ensures |head| == 5
  {
    if |rest| < 5 then rest + was[|rest|..] else rest[..5]
  }

  function LastLen(rest: seq<Byte>, was: seq<Byte>): nat
    requires |was| == 5
  {
    DecodeU32(LastHead(rest, was)[1..5])
  }

  /** What the stream still has of the body. */
  function LastGot(rest: seq<Byte>): seq<Byte> {
    if |rest| < 5 then [] else rest[5..]
  }

  lemma LastGotFits(rest: seq<Byte>, was: seq<Byte>)
    requires |was| == 5 && !Whole(FRAME, rest)
    ensures |LastGot(rest)| <= LastLen(rest, was)
    ensures 5 <= |rest| ==> |LastGot(rest)| < LastLen(rest, was)
  {
    if 5 <= |rest| { assert rest[1..5] == rest[..5][1..5]; }
  }

  /** What the loop takes for a frame where the stream ends, as a short read does not stop it: the rest
      of the stream, completed by what the memory of the head and the buffer held before. */
  function LastFrame(rest: seq<Byte>, was: seq<Byte>, buf: seq<Byte>): Frame
    requires |was| == 5 && !Whole(FRAME, rest)
  {
    LastGotFits(rest, was);
    var len := LastLen(rest, was);
    Frame(LastHead(rest, was)[0], ReadInto(buf, LastGot(rest), len)[..len])
  }

  /** The frames the loop handles in a stream that ends: the complete ones, and the last one. */
  function FramesToEnd(stream: seq<Byte>, was: seq<Byte>, buf: seq<Byte>): seq<Frame>
    requires |was| == 5
  {
    CutIsLossless(FRAME, stream);
    FramesIn(stream) + [LastFrame(Rest(FRAME, stream), was, BufferAfter(buf, FramesIn(stream)))]
  }

  lemma HandledToEnd(p: Peer, stream: seq<Byte>, was: seq<Byte>, buf: seq<Byte>)
    requires |was| == 5
    ensures var fs, all := FramesIn(stream), FramesToEnd(stream, was, buf);
            var (q, hs) := HandleAll(p, fs);
            all[..|fs|] == fs && |all| == |fs| + 1
            && HandleAll(p, all) == (Handle(q, all[|fs|]).0, hs + Handle(q, all[|fs|]).1)
  {
    var fs, all := FramesIn(stream), FramesToEnd(stream, was, buf);
    HandlingIsIncremental(p, fs, [all[|fs|]]);
    OneAnswer(HandleAll(p, fs).0, all[|fs|]);
  }

  /** The exact condition for the end of a stream to add nothing of its own: handle_request is given
      the complete packets and no more if and only if what the loop takes for the last head, the bytes
      there are and then what its memory held, is not a packet's or announces no bytes; and they alone
      are acknowledged if and only if it is neither a packet's nor a response's with a body. */
  lemma EndAddsNothingIff(p: Peer, stream: seq<Byte>, was: seq<Byte>, buf: seq<Byte>)
    requires |was| == 5
    ensures var fs, all, rest := FramesIn(stream), FramesToEnd(stream, was, buf), Rest(FRAME, stream);
            var head := if |rest| < 5 then rest + was[|rest|..] else rest[..5];
            var kind, len := head[0], Value(head[1..5]);
            && (HandleAll(p, all).0.seen == p.seen + Concat(Bodies(fs)) <==> kind != FROM_CLIENT_TO_SERVER || len == 0)
            && (HandleAll(p, all).1 == HandleAll(p, fs).1 <==>
                  kind != FROM_CLIENT_TO_SERVER && (kind != FROM_SERVER_TO_CLIENT || len == 0))
  {
    HandledToEnd(p, stream, was, buf);
    HandledTotals(p, FramesIn(stream));
    LittleEndianDecoded(LastHead(Rest(FRAME, stream), was)[1..5]);
  }

  lemma CutPacketIsIncomplete(body: seq<Byte>, k: nat)
    requires k < |body| < TWO32
    ensures var tail := EncodeFrame(Frame(FROM_CLIENT_TO_SERVER, body))[..5 + k];
            && !Whole(FRAME, tail) && tail[5..] == body[..k] && tail[0] == FROM_CLIENT_TO_SERVER
            && DecodeU32(tail[1..5]) == |body|
  {
    var whole := EncodeFrame(Frame(FROM_CLIENT_TO_SERVER, body));
    U32RoundTrip(|body|);
    assert whole[1..5] == EncodeU32(|body|) && whole[5..] == body;
    assert whole[..5 + k][1..5] == whole[1..5] && whole[..5 + k][5..] == whole[5..][..k];
  }

  lemma OneMore(p: Peer, fs: seq<Frame>, f: Frame)
    ensures HandleAll(p, fs + [f]).0 == Handle(HandleAll(p, fs).0, f).0
    ensures HandleAll(p, fs + [f]).1 == HandleAll(p, fs).1 + Handle(HandleAll(p, fs).0, f).1
  {
    HandlingIsIncremental(p, fs, [f]);
    OneAnswer(HandleAll(p, fs).0, f);
  }

  lemma PacketHandled(p: Peer, fs: seq<Frame>, body: seq<Byte>)
    ensures HandleAll(p, fs + [Frame(FROM_CLIENT_TO_SERVER, body)]).0.seen == HandleAll(p, fs).0.seen + body
  {
    OneMore(p, fs, Frame(FROM_CLIENT_TO_SERVER, body));
  }

  /** Answers to packets depend on their lengths only. */
  lemma AnswersCount(p: Peer, fs: seq<Frame>, a: seq<Byte>, b: seq<Byte>)
    requires |a| == |b|
    ensures HandleAll(p, fs + [Frame(FROM_CLIENT_TO_SERVER, a)]).1 == HandleAll(p, fs + [Frame(FROM_CLIENT_TO_SERVER, b)]).1
  {
    OneMore(p, fs, Frame(FROM_CLIENT_TO_SERVER, a));
    OneMore(p, fs, Frame(FROM_CLIENT_TO_SERVER, b));
  }

  lemma LastFrameOfCutPacket(body: seq<Byte>, k: nat, was: seq<Byte>, buf: seq<Byte>)
    requires |was| == 5 && k < |body| < TWO32
    ensures var tail := EncodeFrame(Frame(FROM_CLIENT_TO_SERVER, body))[..5 + k];
            && !Whole(FRAME, tail)
            && LastFrame(tail, was, buf) == Frame(FROM_CLIENT_TO_SERVER, ReadInto(buf, body[..k], |body|)[..|body|])
  {
    CutPacketIsIncomplete(body, k);
    var tail := EncodeFrame(Frame(FROM_CLIENT_TO_SERVER, body))[..5 + k];
    assert LastHead(tail, was)[1..5] == tail[1..5];
  }

  /** A stream that ends `k` bytes into the body of a packet. */
  function CutStream(fs: seq<Frame>, body: seq<Byte>, k: nat): seq<Byte>
    requires k < |body| < TWO32
    requires forall i :: 0 <= i < |fs| ==> fs[i].Encodable()
  {
    Concat(EncodeFrames(fs)) + EncodeFrame(Frame(FROM_CLIENT_TO_SERVER, body))[..5 + k]
  }

  /** That packet with what the buffer held in place of the bytes that are missing. */
  function Filled(buf: seq<Byte>, body: seq<Byte>, k: nat): seq<Byte>
    requires k < |body|
  {
    ReadInto(buf, body[..k], |body|)[..|body|]
  }

  lemma FramesToCut(fs: seq<Frame>, body: seq<Byte>, k: nat, was: seq<Byte>, buf: seq<Byte>)
    requires |was| == 5 && k < |body| < TWO32
    requires forall i :: 0 <= i < |fs| ==> fs[i].Encodable()
    ensures FramesToEnd(CutStream(fs, body, k), was, buf)
            == fs + [Frame(FROM_CLIENT_TO_SERVER, Filled(BufferAfter(buf, fs), body, k))]
  {
    LastFrameOfCutPacket(body, k, was, BufferAfter(buf, fs));
    FramesRoundTrip(fs, EncodeFrame(Frame(FROM_CLIENT_TO_SERVER, body))[..5 + k]);
  }

  /** A packet cut off by the end of the stream is acknowledged as if it had arrived whole, but
      handle_request is given what the buffer held in place of the bytes that are missing. */
  lemma CutPacketIsAcknowledged(p: Peer, fs: seq<Frame>, body: seq<Byte>, k: nat, was: seq<Byte>, buf: seq<Byte>)
    requires |was| == 5 && k < |body| < TWO32
    requires forall i :: 0 <= i < |fs| ==> fs[i].Encodable()
    ensures var (q, hs) := HandleAll(p, FramesToEnd(CutStream(fs, body, k), was, buf));
            && hs == HandleAll(p, fs + [Frame(FROM_CLIENT_TO_SERVER, body)]).1
            && q.seen == p.seen + Concat(Bodies(fs)) + Filled(BufferAfter(buf, fs), body, k)
  {
    var filled := Filled(BufferAfter(buf, fs), body, k);
    FramesToCut(fs, body, k, was, buf);
    AnswersCount(p, fs, filled, body);
    PacketHandled(p, fs, filled);
    HandledTotals(p, fs);
  }

  lemma OldBytesFill(buf: seq<Byte>, body: seq<Byte>, k: nat)
    requires k < |body| <= |buf|
    ensures Filled(buf, body, k) == body[..k] + buf[k..|body|]
  {
  }

  lemma OnePacket(body: seq<Byte>)
    ensures var f := Frame(FROM_CLIENT_TO_SERVER, body);
            BufferAfter([], [f]) == body && HandleAll(NEW_PEER, [f]).0.seen == body
  {
    OneAnswer(NEW_PEER, Frame(FROM_CLIENT_TO_SERVER, body));
    assert [Frame(FROM_CLIENT_TO_SERVER, body)][1..] == [];
  }

  /** With old bytes in the buffer those are handled a second time: if a session's second packet is cut
      off, say 4, 5, 6 behind the 4, after a first packet 1, 2, 3, it is handled as 4, 2, 3. */
  lemma CutPacketRepeatsOldBytes(first: seq<Byte>, body: seq<Byte>, k: nat, was: seq<Byte>)
    requires |was| == 5 && k < |body| <= |first| < TWO32
    ensures var stream := CutStream([Frame(FROM_CLIENT_TO_SERVER, first)], body, k);
            HandleAll(NEW_PEER, FramesToEnd(stream, was, [])).0.seen == first + (body[..k] + first[k..|body|])
  {
    OnePacket(first);
    OldBytesFill(first, body, k);
    FramesToCut([Frame(FROM_CLIENT_TO_SERVER, first)], body, k, was, []);
    PacketHandled(NEW_PEER, [Frame(FROM_CLIENT_TO_SERVER, first)], Filled(first, body, k));
  }

  /** The session object of the process: a reusable read buffer and the two counters. */
  class Session {
    var buf: seq<Byte>
    var reqHandled: U64
    var resHandled: U64
    ghost var requests: seq<Byte> // what handle_request was given

    constructor ()
      ensures View() == NEW_PEER && buf == []
    {
      buf, reqHandled, resHandled, requests := [], 0, 0, [];
    }

    ghost function View(): Peer
      reads this
    {
      Peer(reqHandled, resHandled, requests)
    }

    /** The body of the loop of setup once a head is read, five bytes, and `got` of its body, which is
        all of it unless the stream ends there. */
    method HandleFrame(head: seq<Byte>, got: seq<Byte>) returns (out: seq<Byte>)
      requires |head| == 5 && |got| <= DecodeU32(head[1..5])
      modifies this
      ensures buf == ReadInto(old(buf), got, DecodeU32(head[1..5]))
      ensures var f := Frame(head[0], buf[..DecodeU32(head[1..5])]);
              View() == Handle(old(View()), f).0 && out == AnswerBytes(old(View()), [f])
    {
      var kind, len := head[0], DecodeU32(head[1..5]);
      if len > |buf| {
        buf := buf + seq(len - |buf|, i => 0);
      }
      buf := got + buf[|got|..];
      OneAnswer(View(), Frame(kind, buf[..len]));
      out := [];
      if kind == FROM_CLIENT_TO_SERVER {
        reqHandled := (reqHandled + len) % TWO64;
        requests := requests + buf[..len];
        var h := Head(FROM_CLIENT_TO_SERVER, PASS, [], reqHandled);
        out := EncodeHead(h);
      } else if kind == FROM_SERVER_TO_CLIENT {
        resHandled := (resHandled + len) % TWO64;
        if len != 0 {
          var h := Head(FROM_SERVER_TO_CLIENT, PASS, [], resHandled);
          out := EncodeHead(h);
        }
      }
    }

    /** The loop of setup on the complete frames of a stream: the answers are those to exactly these,
        in order, however long the bodies and the reused buffer are. */
    method HandleFrames(stream: seq<Byte>) returns (out: seq<Byte>, rest: seq<Byte>)
      modifies this
      ensures View() == HandleAll(old(View()), FramesIn(stream)).0
      ensures out == AnswerBytes(old(View()), FramesIn(stream))
      ensures rest == Rest(FRAME, stream) && !Whole(FRAME, rest) && buf == BufferAfter(old(buf), FramesIn(stream))
    {
      out, rest := [], stream;
      while true
        invariant Rest(FRAME, rest) == Rest(FRAME, stream)
        invariant HandleAll(View(), FramesIn(rest)).0 == HandleAll(old(View()), FramesIn(stream)).0
        invariant out + AnswerBytes(View(), FramesIn(rest)) == AnswerBytes(old(View()), FramesIn(stream))
        invariant BufferAfter(buf, FramesIn(rest)) == BufferAfter(old(buf), FramesIn(stream))
        decreases |rest|
      {
        // read the head
        if |rest| < 5 {
          NoFrameIn(rest);
          break;
        }
        var head := rest[..5];
        var len := DecodeU32(head[1..5]);
        // read the body
        if |rest| - 5 < len {
          assert rest[1..5] == head[1..5];
          NoFrameIn(rest);
          break;
        }
        var body, tail := rest[5..5 + len], rest[5 + len..];
        assert rest == head + body + tail;
        FramesInTurn(head, body, tail);
        AnswerBytesCons(View(), DecodeFrame(head + body), FramesIn(tail));
        var answer := HandleFrame(head, body);
        Assoc(out, answer, AnswerBytes(View(), FramesIn(tail)));
        out := out + answer;
        rest := tail;
      }
    }

    /** setup: a stream that breaks is answered up to its last complete frame. One that ends is handled
        once more with what there is of the next head and body; `was` is what the memory of that
        head, which the code does not set, held before. */
    method Setup(stream: seq<Byte>, eof: bool, was: seq<Byte>) returns (out: seq<Byte>)
      requires |was| == 5
      modifies this
      ensures var fs := if eof then FramesToEnd(stream, was, old(buf)) else FramesIn(stream);
              View() == HandleAll(old(View()), fs).0 && out == AnswerBytes(old(View()), fs)
    {
      var rest;
      out, rest := HandleFrames(stream);
      if eof {
        LastGotFits(rest, was);
        AnswerBytesAppend(old(View()), FramesIn(stream), LastFrame(rest, was, buf));
        var head := if |rest| < 5 then rest + was[|rest|..] else rest[..5];
        var answer := HandleFrame(head, if |rest| < 5 then [] else rest[5..]);
        out := out + answer;
      }
    }
  }
}
