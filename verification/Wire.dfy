/** The vocabulary and the byte layout of the socket between the proxy and the handler process.

    Both directions carry self-delimiting messages: a head of fixed size, with a little-endian
    32-bit body length at a fixed offset, followed by the body. The proxy sends five-byte heads,
    the handler answers with sixteen-byte heads. How a byte stream is cut into messages is
    defined, and proved, once for every such format. */
module Wire {

  type Byte = x: int | 0 <= x < 256

  const TWO32: int := 0x1_0000_0000
  const TWO64: int := 0x1_0000_0000_0000_0000

  /** The range of the cumulative counters. */
  type U64 = x: int | 0 <= x < TWO64

  // data_type and action; on the wire each is one byte and any value may arrive
  const FROM_CLIENT_TO_SERVER: Byte := 0
  const FROM_SERVER_TO_CLIENT: Byte := 1
  const FOUR_TUPLE: Byte := 2
  const HEARTBEAT: Byte := 3
  const PASS: Byte := 0
  const BLOCK: Byte := 1

  /** A message from the proxy to the handler. */
  datatype Frame = Frame(kind: Byte, body: seq<Byte>) {
    predicate Encodable() { |body| < TWO32 }
  }

  /** A message from the handler to the proxy, with the new data that follows its head. */
  datatype Head = Head(kind: Byte, act: Byte, newData: seq<Byte>, handled: nat) {
    predicate Encodable() { |newData| < TWO32 && handled < TWO64 }
  }

  // ---------------------------------------------------------------- integers

  /** Conversion of an unsigned 64-bit value to a 32-bit signed int. */
  function ToInt32(x: int): (r: int)
    ensures -0x8000_0000 <= r < 0x8000_0000 && (r - x) % TWO32 == 0
  {
    var low := x % TWO32;
    if low < 0x8000_0000 then low else low - TWO32
  }

  function EncodeU32(v: nat): (b: seq<Byte>)
    requires v < TWO32
    ensures |b| == 4
  {
    [v % 0x100, v / 0x100 % 0x100, v / 0x1_0000 % 0x100, v / 0x100_0000]
  }

  function DecodeU32(b: seq<Byte>): (v: nat)
    requires |b| == 4
    ensures v < TWO32
  {
    var b0: int, b1: int, b2: int, b3: int := b[0], b[1], b[2], b[3];
    b0 + 0x100 * b1 + 0x1_0000 * b2 + 0x100_0000 * b3
  }

  function EncodeU64(v: nat): (b: seq<Byte>)
    requires v < TWO64
    ensures |b| == 8
  {
    EncodeU32(v % TWO32) + EncodeU32(v / TWO32)
  }

  function DecodeU64(b: seq<Byte>): (v: nat)
    requires |b| == 8
    ensures v < TWO64
  {
    DecodeU32(b[..4]) + TWO32 * DecodeU32(b[4..])
  }

  lemma U32RoundTrip(v: nat)
    requires v < TWO32
    ensures DecodeU32(EncodeU32(v)) == v
  {
    var q1, q2, q3 := v / 0x100, v / 0x1_0000, v / 0x100_0000;
    assert q2 == q1 / 0x100 && q3 == q2 / 0x100;
    assert v == 0x100 * q1 + v % 0x100;
    assert q1 == 0x100 * q2 + q1 % 0x100;
    assert q2 == 0x100 * q3 + q2 % 0x100;
  }

  lemma U32Bijective(b: seq<Byte>)
    requires |b| == 4
    ensures EncodeU32(DecodeU32(b)) == b
  {
    var v := DecodeU32(b);
    var b0: int, b1: int, b2: int, b3: int := b[0], b[1], b[2], b[3];
    Digit(v, b1 + 0x100 * b2 + 0x1_0000 * b3, b0);
    Digit(v / 0x100, b2 + 0x100 * b3, b1);
    Digit(v / 0x100 / 0x100, b3, b2);
    assert v / 0x1_0000 == v / 0x100 / 0x100;
    assert v / 0x100_0000 == v / 0x1_0000 / 0x100;
  }

  lemma Digit(v: int, high: int, low: Byte)
    requires v == 0x100 * high + low
    ensures v / 0x100 == high && v % 0x100 == low
  {
  }

  lemma U64RoundTrip(v: nat)
    requires v < TWO64
    ensures DecodeU64(EncodeU64(v)) == v
  {
    U32RoundTrip(v % TWO32);
    U32RoundTrip(v / TWO32);
    assert EncodeU64(v)[..4] == EncodeU32(v % TWO32);
    assert EncodeU64(v)[4..] == EncodeU32(v / TWO32);
  }

  // ---------------------------------------------------------------- cutting a stream

  /** The size of the head and the offset of the 32-bit body length inside it. */
  datatype Format = Format(head: nat, lenAt: nat)

  const FRAME := Format(5, 1)
  const RESPONSE := Format(16, 4)

  ghost predicate ValidFormat(f: Format) {
    f.lenAt + 4 <= f.head
  }

  /** The length of the message whose head starts the stream. */
  function MessageLen(f: Format, s: seq<Byte>): (n: nat)
    requires f.lenAt + 4 <= f.head <= |s|
    ensures n >= f.head
  {
    f.head + DecodeU32(s[f.lenAt..f.lenAt + 4])
  }

  /** The stream starts with a complete message. */
  predicate Whole(f: Format, s: seq<Byte>)
    requires f.lenAt + 4 <= f.head
  {
    f.head <= |s| && MessageLen(f, s) <= |s|
  }

  predicate IsMessage(f: Format, s: seq<Byte>)
    requires f.lenAt + 4 <= f.head
  {
    f.head <= |s| && MessageLen(f, s) == |s|
  }

  predicate AllMessages(f: Format, ms: seq<seq<Byte>>)
    requires f.lenAt + 4 <= f.head
  {
    forall i :: 0 <= i < |ms| ==> IsMessage(f, ms[i])
  }

  function Messages(f: Format, s: seq<Byte>): seq<seq<Byte>>
    requires f.lenAt + 4 <= f.head
    decreases |s|
  {
    if !Whole(f, s) then [] else
      var n := MessageLen(f, s);
      [s[..n]] + Messages(f, s[n..])
  }

  function Rest(f: Format, s: seq<Byte>): seq<Byte>
    requires f.lenAt + 4 <= f.head
    decreases |s|
  {
    if !Whole(f, s) then s else Rest(f, s[MessageLen(f, s)..])
  }

  function Concat(ms: seq<seq<Byte>>): seq<Byte> {
    if ms == [] then [] else ms[0] + Concat(ms[1..])
  }

  lemma ConcatCons(m: seq<Byte>, ms: seq<seq<Byte>>)
    ensures Concat([m] + ms) == m + Concat(ms)
  {
    assert ([m] + ms)[1..] == ms;
  }

  lemma {:induction false} ConcatAppend(a: seq<seq<Byte>>, b: seq<seq<Byte>>)
    ensures Concat(a + b) == Concat(a) + Concat(b)
  {
    if a == [] {
      assert a + b == b;
    } else {
      ConcatAppend(a[1..], b);
      assert (a + b)[0] == a[0] && (a + b)[1..] == a[1..] + b;
      Assoc(a[0], Concat(a[1..]), Concat(b));
    }
  }

  /** Cutting loses nothing: the messages and the rest are the stream, and the rest is incomplete. */
  lemma {:induction false} CutIsLossless(f: Format, s: seq<Byte>)
    requires ValidFormat(f)
    ensures Concat(Messages(f, s)) + Rest(f, s) == s
    ensures AllMessages(f, Messages(f, s))
    ensures !Whole(f, Rest(f, s))
    decreases |s|
  {
    if Whole(f, s) {
      var n := MessageLen(f, s);
      var head, tail := s[..n], s[n..];
      CutIsLossless(f, tail);
      CutOne(f, s, head, tail);
    }
  }

  /** What is cut off the front is one message, and joining it to the rest gives the stream back. */
  lemma CutOne(f: Format, s: seq<Byte>, head: seq<Byte>, tail: seq<Byte>)
    requires ValidFormat(f)
    requires Whole(f, s) && head == s[..MessageLen(f, s)] && tail == s[MessageLen(f, s)..]
    requires Concat(Messages(f, tail)) + Rest(f, tail) == tail
    ensures IsMessage(f, head)
    ensures Messages(f, s) == [head] + Messages(f, tail)
    ensures Rest(f, s) == Rest(f, tail)
    ensures Concat(Messages(f, s)) + Rest(f, s) == s
  {
    FrontIsMessage(f, s);
    Join(head, Messages(f, tail), Rest(f, tail), tail);
    assert s == head + tail;
  }

  lemma FrontIsMessage(f: Format, s: seq<Byte>)
    requires ValidFormat(f) && Whole(f, s)
    ensures IsMessage(f, s[..MessageLen(f, s)])
  {
    var head := s[..MessageLen(f, s)];
    assert head[f.lenAt..f.lenAt + 4] == s[f.lenAt..f.lenAt + 4];
  }

  lemma Join(head: seq<Byte>, ms: seq<seq<Byte>>, rest: seq<Byte>, tail: seq<Byte>)
    requires Concat(ms) + rest == tail
    ensures Concat([head] + ms) + rest == head + tail
  {
    ConcatCons(head, ms);
    Assoc(head, Concat(ms), rest);
  }

  lemma Assoc(a: seq<Byte>, b: seq<Byte>, c: seq<Byte>)
    ensures (a + b) + c == a + (b + c)
  {
  }

  /** Cutting is unique: any way to write a stream as messages and an incomplete rest is the one found. */
  lemma {:induction false} CutIsUnique(f: Format, ms: seq<seq<Byte>>, tail: seq<Byte>)
    requires ValidFormat(f)
    requires AllMessages(f, ms)
    requires !Whole(f, tail)
    ensures Messages(f, Concat(ms) + tail) == ms
    ensures Rest(f, Concat(ms) + tail) == tail
  {
    var s := Concat(ms) + tail;
    if ms == [] {
      assert s == tail;
    } else {
      assert s == ms[0] + (Concat(ms[1..]) + tail);
      assert s[f.lenAt..f.lenAt + 4] == ms[0][f.lenAt..f.lenAt + 4];
      assert s[|ms[0]|..] == Concat(ms[1..]) + tail;
      CutIsUnique(f, ms[1..], tail);
    }
  }

  /** Reading is independent of fragmentation: cutting a first fragment, keeping its rest and
      continuing with the next fragment gives the messages of the whole stream. */
  lemma {:induction false} CutIsIncremental(f: Format, a: seq<Byte>, b: seq<Byte>)
    requires ValidFormat(f)
    ensures Messages(f, a + b) == Messages(f, a) + Messages(f, Rest(f, a) + b)
    ensures Rest(f, a + b) == Rest(f, Rest(f, a) + b)
  {
    var first, kept := Messages(f, a), Rest(f, a);
    var second, rest := Messages(f, kept + b), Rest(f, kept + b);
    CutIsLossless(f, a);
    CutIsLossless(f, kept + b);
    ConcatAppend(first, second);
    Assoc(Concat(first), kept, b);
    Assoc(Concat(first), Concat(second), rest);
    assert a + b == Concat(first + second) + rest;
    CutIsUnique(f, first + second, rest);
  }

  // ---------------------------------------------------------------- the two codecs

  function EncodeFrame(f: Frame): (b: seq<Byte>)
    requires f.Encodable()
  {
    [f.kind] + EncodeU32(|f.body|) + f.body
  }

  function DecodeFrame(m: seq<Byte>): Frame
    requires |m| >= 5
  {
    Frame(m[0], m[5..])
  }

  function EncodeHead(h: Head): (b: seq<Byte>)
    requires h.Encodable()
  {
    [h.kind, h.act, 0, 0] + EncodeU32(|h.newData|) + EncodeU64(h.handled) + h.newData
  }

  function DecodeHead(m: seq<Byte>): Head
    requires |m| >= 16
  {
    Head(m[0], m[1], m[16..], DecodeU64(m[8..16]))
  }

  function EncodeFrames(fs: seq<Frame>): (ms: seq<seq<Byte>>)
    requires forall i :: 0 <= i < |fs| ==> fs[i].Encodable()
    ensures |ms| == |fs|
    ensures forall i :: 0 <= i < |fs| ==> ms[i] == EncodeFrame(fs[i])
  {
    if fs == [] then [] else [EncodeFrame(fs[0])] + EncodeFrames(fs[1..])
  }

  function EncodeHeads(hs: seq<Head>): (ms: seq<seq<Byte>>)
    requires forall i :: 0 <= i < |hs| ==> hs[i].Encodable()
    ensures |ms| == |hs|
    ensures forall i :: 0 <= i < |hs| ==> ms[i] == EncodeHead(hs[i])
  {
    if hs == [] then [] else [EncodeHead(hs[0])] + EncodeHeads(hs[1..])
  }

  function DecodeFrames(ms: seq<seq<Byte>>): (fs: seq<Frame>)
    requires forall i :: 0 <= i < |ms| ==> |ms[i]| >= 5
    ensures |fs| == |ms|
    ensures forall i :: 0 <= i < |ms| ==> fs[i] == DecodeFrame(ms[i])
  {
    if ms == [] then [] else [DecodeFrame(ms[0])] + DecodeFrames(ms[1..])
  }

  function DecodeHeads(ms: seq<seq<Byte>>): (hs: seq<Head>)
    requires forall i :: 0 <= i < |ms| ==> |ms[i]| >= 16
    ensures |hs| == |ms|
    ensures forall i :: 0 <= i < |ms| ==> hs[i] == DecodeHead(ms[i])
  {
    if ms == [] then [] else [DecodeHead(ms[0])] + DecodeHeads(ms[1..])
  }

  lemma FrameRoundTrip(f: Frame)
    requires f.Encodable()
    ensures IsMessage(FRAME, EncodeFrame(f))
    ensures DecodeFrame(EncodeFrame(f)) == f
  {
    U32RoundTrip(|f.body|);
    assert EncodeFrame(f)[1..5] == EncodeU32(|f.body|);
  }

  lemma HeadRoundTrip(h: Head)
    requires h.Encodable()
    ensures IsMessage(RESPONSE, EncodeHead(h))
    ensures DecodeHead(EncodeHead(h)) == h
  {
    U32RoundTrip(|h.newData|);
    U64RoundTrip(h.handled);
    assert EncodeHead(h)[4..8] == EncodeU32(|h.newData|);
    assert EncodeHead(h)[8..16] == EncodeU64(h.handled);
    assert EncodeHead(h)[16..] == h.newData;
  }

  // ---------------------------------------------------------------- the bytes on the wire

  /** The value of a run of bytes with the least significant one first. */
  function Value(s: seq<Byte>): nat {
    if s == [] then 0 else s[0] + 0x100 * Value(s[1..])
  }

  lemma ValueOfFour(b: seq<Byte>)
    requires |b| == 4
    ensures Value(b) == DecodeU32(b)
  {
    assert b[1..][1..] == b[2..] && b[2..][1..] == b[3..] && b[3..][1..] == [];
    assert Value(b[3..]) == b[3] as int;
    assert Value(b[2..]) == b[2] as int + 0x100 * Value(b[3..]);
  }

  lemma ValueAppend(a: seq<Byte>, b: seq<Byte>)
    requires |a| == 4
    ensures Value(a + b) == Value(a) + TWO32 * Value(b)
  {
    ValueOfFour(a);
    var s := a + b;
    assert s[1..][1..] == s[2..] && s[2..][1..] == s[3..] && s[3..][1..] == b;
    assert Value(s[3..]) == a[3] as int + 0x100 * Value(b);
    assert Value(s[2..]) == a[2] as int + 0x100 * Value(s[3..]);
    assert Value(s[1..]) == a[1] as int + 0x100 * Value(s[2..]);
  }

  /** Both integers of the wire format are little-endian, as the decoders read them off any bytes... */
  lemma LittleEndianDecoded(b: seq<Byte>)
    ensures |b| == 4 ==> DecodeU32(b) == Value(b)
    ensures |b| == 8 ==> DecodeU64(b) == Value(b)
  {
    if |b| == 4 {
      ValueOfFour(b);
    } else if |b| == 8 {
      ValueOfFour(b[..4]);
      ValueOfFour(b[4..]);
      ValueAppend(b[..4], b[4..]);
      assert b == b[..4] + b[4..];
    }
  }

  /** ... and as the encoders write them. */
  lemma LittleEndianEncoded(v: nat)
    ensures v < TWO32 ==> Value(EncodeU32(v)) == v
    ensures v < TWO64 ==> Value(EncodeU64(v)) == v
  {
    if v < TWO32 {
      U32RoundTrip(v);
      LittleEndianDecoded(EncodeU32(v));
    }
    if v < TWO64 {
      U64RoundTrip(v);
      LittleEndianDecoded(EncodeU64(v));
    }
  }

  /** What a frame of the proxy is, byte by byte. */
  lemma FrameLayout(f: Frame)
    requires f.Encodable()
    ensures var b := EncodeFrame(f);
            |b| == 5 + |f.body| && b[0] == f.kind && Value(b[1..5]) == |f.body| && b[5..] == f.body
  {
    LittleEndianEncoded(|f.body|);
    assert EncodeFrame(f)[1..5] == EncodeU32(|f.body|);
  }

  /** What a head of the handler is, byte by byte. */
  lemma HeadLayout(h: Head)
    requires h.Encodable()
    ensures var b := EncodeHead(h);
            && |b| == 16 + |h.newData| && b[0] == h.kind && b[1] == h.act && b[2] == b[3] == 0
            && Value(b[4..8]) == |h.newData| && Value(b[8..16]) == h.handled && b[16..] == h.newData
  {
    LittleEndianEncoded(|h.newData|);
    LittleEndianEncoded(h.handled);
    assert EncodeHead(h)[4..8] == EncodeU32(|h.newData|);
    assert EncodeHead(h)[8..16] == EncodeU64(h.handled);
  }

  /** How any bytes are read: where a message ends, and what is in a head. */
  lemma BytesAreReadSo(s: seq<Byte>)
    ensures |s| >= 5 ==> MessageLen(FRAME, s) == 5 + Value(s[1..5])
    ensures |s| >= 16 ==> MessageLen(RESPONSE, s) == 16 + Value(s[4..8])
    ensures |s| >= 5 ==> DecodeFrame(s) == Frame(s[0], s[5..])
    ensures |s| >= 16 ==> DecodeHead(s) == Head(s[0], s[1], s[16..], Value(s[8..16]))
  {
    if |s| >= 5 { LittleEndianDecoded(s[1..5]); }
    if |s| >= 16 {
      LittleEndianDecoded(s[4..8]);
      LittleEndianDecoded(s[8..16]);
    }
  }

  /** One client byte 7 as the proxy frames it, a response's empty head, and a verdict to block a
      response, with new data 9, after 258 bytes. */
  lemma LiteralMessages()
    ensures EncodeFrame(Frame(FROM_CLIENT_TO_SERVER, [7])) == [0, 1, 0, 0, 0, 7]
    ensures EncodeFrame(Frame(FROM_SERVER_TO_CLIENT, [])) == [1, 0, 0, 0, 0]
    ensures EncodeFrame(Frame(FOUR_TUPLE, [123, 125])) == [2, 2, 0, 0, 0, 123, 125]
    ensures EncodeHead(Head(FROM_SERVER_TO_CLIENT, BLOCK, [9], 258))
            == [1, 1, 0, 0, 1, 0, 0, 0, 2, 1, 0, 0, 0, 0, 0, 0, 9]
    ensures EncodeHead(Head(HEARTBEAT, PASS, [], 0)) == [3, 0, 0, 0, 0, 0, 0, 0, 0, 0, 0, 0, 0, 0, 0, 0]
  {
  }

  /** The handler, reading any fragment of what the proxy wrote, gets back exactly the frames that
      are complete in it; the undecoded remainder is the beginning of the next one. */
  lemma FramesRoundTrip(fs: seq<Frame>, tail: seq<Byte>)
    requires forall i :: 0 <= i < |fs| ==> fs[i].Encodable()
    requires !Whole(FRAME, tail)
    ensures var ms := Messages(FRAME, Concat(EncodeFrames(fs)) + tail);
            (forall i :: 0 <= i < |ms| ==> |ms[i]| >= 5) && DecodeFrames(ms) == fs
    ensures Rest(FRAME, Concat(EncodeFrames(fs)) + tail) == tail
  {
    forall i | 0 <= i < |fs|
      ensures IsMessage(FRAME, EncodeFrames(fs)[i]) && DecodeFrame(EncodeFrames(fs)[i]) == fs[i]
    {
      FrameRoundTrip(fs[i]);
    }
    CutIsUnique(FRAME, EncodeFrames(fs), tail);
  }

  /** The proxy gets back exactly the heads, each with the new data announced in it. */
  lemma HeadsRoundTrip(hs: seq<Head>, tail: seq<Byte>)
    requires forall i :: 0 <= i < |hs| ==> hs[i].Encodable()
    requires !Whole(RESPONSE, tail)
    ensures var ms := Messages(RESPONSE, Concat(EncodeHeads(hs)) + tail);
            (forall i :: 0 <= i < |ms| ==> |ms[i]| >= 16) && DecodeHeads(ms) == hs
    ensures Rest(RESPONSE, Concat(EncodeHeads(hs)) + tail) == tail
  {
    forall i | 0 <= i < |hs|
      ensures IsMessage(RESPONSE, EncodeHeads(hs)[i]) && DecodeHead(EncodeHeads(hs)[i]) == hs[i]
    {
      HeadRoundTrip(hs[i]);
    }
    CutIsUnique(RESPONSE, EncodeHeads(hs), tail);
  }

  /** The frame format is a bijection: whatever bytes arrive, the decoded frames encode to exactly
      the part of the stream that was cut off. */
  lemma FramesAreCanonical(s: seq<Byte>)
    ensures forall i :: 0 <= i < |Messages(FRAME, s)| ==> |Messages(FRAME, s)[i]| >= 5
    ensures var fs := DecodeFrames(Messages(FRAME, s));
            (forall i :: 0 <= i < |fs| ==> fs[i].Encodable()) && Concat(EncodeFrames(fs)) + Rest(FRAME, s) == s
  {
    CutIsLossless(FRAME, s);
    var ms := Messages(FRAME, s);
    assert forall i :: 0 <= i < |ms| ==> |ms[i]| >= 5 && IsMessage(FRAME, ms[i]);
    MessagesAreFrames(ms);
  }

  lemma FrameOfMessage(m: seq<Byte>)
    requires |m| >= 5 && IsMessage(FRAME, m)
    ensures DecodeFrame(m).Encodable() && EncodeFrame(DecodeFrame(m)) == m
  {
    U32Bijective(m[1..5]);
  }

  lemma MessagesAreFrames(ms: seq<seq<Byte>>)
    requires forall i :: 0 <= i < |ms| ==> |ms[i]| >= 5 && IsMessage(FRAME, ms[i])
    ensures var fs := DecodeFrames(ms);
            (forall i :: 0 <= i < |fs| ==> fs[i].Encodable()) && EncodeFrames(fs) == ms
  {
    var fs := DecodeFrames(ms);
    forall i | 0 <= i < |fs|
      ensures fs[i].Encodable() && EncodeFrame(fs[i]) == ms[i]
    {
      FrameOfMessage(ms[i]);
    }
    assert EncodeFrames(fs) == ms;
  }

  /** The complete frames of a stream. */
  function FramesIn(s: seq<Byte>): seq<Frame> {
    FramesAreCanonical(s);
    DecodeFrames(Messages(FRAME, s))
  }

  /** Frames come off a stream one at a time. */
  lemma FramesInTurn(head: seq<Byte>, body: seq<Byte>, tail: seq<Byte>)
    requires |head| == 5 && |body| == DecodeU32(head[1..5])
    ensures FramesIn(head + body + tail) == [DecodeFrame(head + body)] + FramesIn(tail)
    ensures Rest(FRAME, head + body + tail) == Rest(FRAME, tail)
  {
    var s := head + body + tail;
    FramesAreCanonical(tail);
    assert s[1..5] == head[1..5];
    assert s[..5 + |body|] == head + body && s[5 + |body|..] == tail;
    assert Messages(FRAME, s) == [head + body] + Messages(FRAME, tail);
    FramesAreCanonical(s);
    assert DecodeFrames(Messages(FRAME, s)) == [DecodeFrame(head + body)] + DecodeFrames(Messages(FRAME, tail));
  }

  lemma NoFrameIn(s: seq<Byte>)
    requires !Whole(FRAME, s)
    ensures FramesIn(s) == [] && Rest(FRAME, s) == s
  {
  }
}
