/** What goes out on a peer's socket. A write is started by one of the session's loops and is under
    way until its completion is seen; writes on one socket go out whole, in the order they were
    started. Closing the socket cuts the writes under way at some byte. */
module Outputs {
  import opened Wire

  datatype Owner = ClientLoop | ServerLoop | Reader

  /** One write: bytes of the other peer, or new data made by the handler. */
  datatype Chunk = Relayed(owner: Owner, data: seq<Byte>) | Injected(data: seq<Byte>)

  /** The writes that went out, and those under way. */
  datatype Out = Out(sent: seq<Chunk>, queue: seq<Chunk>)

  const NO_OUTPUT := Out([], [])

  /** Starting a write; one of no bytes completes at once and is never under way. */
  function Begin(o: Out, c: Chunk): Out {
    if c.data == [] then o else o.(queue := o.queue + [c])
  }

  predicate RelayAtFront(o: Out, owner: Owner) {
    o.queue != [] && o.queue[0].Relayed? && o.queue[0].owner == owner
  }

  predicate InjectionAtFront(o: Out, data: seq<Byte>) {
    o.queue != [] && o.queue[0] == Injected(data)
  }

  /** The oldest write under way completes. */
  function Finish(o: Out): Out {
    if o.queue == [] then o else Out(o.sent + [o.queue[0]], o.queue[1..])
  }

  /** The first `n` bytes of the writes under way. */
  function FirstBytes(q: seq<Chunk>, n: nat): seq<Chunk> {
    if q == [] || n == 0 then []
    else if q[0].data == [] then FirstBytes(q[1..], n)
    else if n < |q[0].data| then [q[0].(data := q[0].data[..n])]
    else [q[0]] + FirstBytes(q[1..], n - |q[0].data|)
  }

  /** Closing the socket: `n` bytes of the writes under way still get out, the others are lost. */
  function Shut(o: Out, n: nat): Out {
    Out(o.sent + FirstBytes(o.queue, n), [])
  }

  // ---------------------------------------------------------------- the peer's own bytes

  /** The other peer's bytes in a list of writes, with the handler's new data erased. */
  function Erase(cs: seq<Chunk>): seq<Byte> {
    if cs == [] then []
    else (if cs[0].Relayed? then cs[0].data else []) + Erase(cs[1..])
  }

  /** What the peer has of the other peer's bytes, and what it will have unless the socket closes. */
  function Arrived(o: Out): seq<Byte> { Erase(o.sent) }

  function Started(o: Out): seq<Byte> { Erase(o.sent) + Erase(o.queue) }

  function RelayedBytes(c: Chunk): seq<Byte> {
    if c.Relayed? then c.data else []
  }

  lemma EraseOne(c: Chunk)
    ensures Erase([c]) == RelayedBytes(c)
  {
    assert Erase([c]) == RelayedBytes(c) + Erase([]);
  }

  lemma {:induction false} EraseAppend(a: seq<Chunk>, b: seq<Chunk>)
    ensures Erase(a + b) == Erase(a) + Erase(b)
  {
    if a == [] {
      assert a + b == b;
    } else {
      EraseAppend(a[1..], b);
      assert (a + b)[0] == a[0] && (a + b)[1..] == a[1..] + b;
      Assoc(RelayedBytes(a[0]), Erase(a[1..]), Erase(b));
    }
  }

  lemma StartErases(o: Out, c: Chunk)
    ensures Started(Begin(o, c)) == Started(o) + RelayedBytes(c)
  {
    EraseAppend(o.queue, [c]);
    EraseOne(c);
    Assoc(Erase(o.sent), Erase(o.queue), RelayedBytes(c));
  }

  lemma FinishErases(o: Out)
    ensures Started(Finish(o)) == Started(o)
  {
    if o.queue != [] {
      EraseAppend(o.sent, [o.queue[0]]);
      EraseOne(o.queue[0]);
      Assoc(Erase(o.sent), RelayedBytes(o.queue[0]), Erase(o.queue[1..]));
    }
  }

  lemma {:induction false} FirstBytesErase(q: seq<Chunk>, n: nat)
    ensures Erase(FirstBytes(q, n)) <= Erase(q)
  {
    if q != [] && n > 0 {
      if q[0].data == [] {
        FirstBytesErase(q[1..], n);
      } else if n < |q[0].data| {
        EraseOne(q[0].(data := q[0].data[..n]));
      } else {
        var more := FirstBytes(q[1..], n - |q[0].data|);
        FirstBytesErase(q[1..], n - |q[0].data|);
        EraseAppend([q[0]], more);
        EraseOne(q[0]);
      }
    }
  }

  /** Between what arrived and what was started: nothing is made up or reordered by a close. */
  lemma ShutErases(o: Out, n: nat)
    ensures Started(Shut(o, n)) == Arrived(Shut(o, n))
    ensures Arrived(o) <= Arrived(Shut(o, n)) <= Started(o)
    ensures Arrived(Shut(o, 0)) == Arrived(o)
    ensures Erase(o.queue) == [] ==> Arrived(Shut(o, n)) == Arrived(o)
  {
    FirstBytesErase(o.queue, n);
    EraseAppend(o.sent, FirstBytes(o.queue, n));
    assert o.sent + [] == o.sent;
  }

  // ---------------------------------------------------------------- the writes of the peer's own bytes

  /** The relayed writes of a list. */
  function OnlyRelayed(cs: seq<Chunk>): seq<Chunk> {
    if cs == [] then []
    else IfRelayed(cs[0]) + OnlyRelayed(cs[1..])
  }

  function IfRelayed(c: Chunk): seq<Chunk> {
    if c.Relayed? then [c] else []
  }

  lemma AssocChunks(a: seq<Chunk>, b: seq<Chunk>, c: seq<Chunk>)
    ensures (a + b) + c == a + (b + c)
  {
  }

  lemma {:induction false} OnlyRelayedAppend(a: seq<Chunk>, b: seq<Chunk>)
    ensures OnlyRelayed(a + b) == OnlyRelayed(a) + OnlyRelayed(b)
  {
    if a == [] {
      assert a + b == b;
    } else {
      OnlyRelayedAppend(a[1..], b);
      assert (a + b)[0] == a[0] && (a + b)[1..] == a[1..] + b;
      AssocChunks(IfRelayed(a[0]), OnlyRelayed(a[1..]), OnlyRelayed(b));
    }
  }

  lemma OnlyRelayedOne(c: Chunk)
    ensures OnlyRelayed([c]) == IfRelayed(c)
  {
    assert [c][1..] == [];
  }

  lemma {:induction false} ErasedIsRelayed(cs: seq<Chunk>)
    ensures Erase(OnlyRelayed(cs)) == Erase(cs)
  {
    if cs != [] {
      ErasedIsRelayed(cs[1..]);
      if cs[0].Relayed? {
        EraseAppend([cs[0]], OnlyRelayed(cs[1..]));
        EraseOne(cs[0]);
      } else {
        assert OnlyRelayed(cs) == OnlyRelayed(cs[1..]);
      }
    }
  }

  lemma StartRelays(o: Out, c: Chunk)
    ensures OnlyRelayed(Begin(o, c).queue) == OnlyRelayed(o.queue) + if c.data == [] then [] else IfRelayed(c)
  {
    OnlyRelayedAppend(o.queue, [c]);
    OnlyRelayedOne(c);
  }

  /** Completing a relay takes it off the relayed writes under way; completing new data, nothing. */
  lemma FinishRelays(o: Out)
    ensures o.queue != [] && o.queue[0].Relayed? ==>
      OnlyRelayed(o.queue) != [] && OnlyRelayed(o.queue)[0] == o.queue[0]
      && OnlyRelayed(Finish(o).queue) == OnlyRelayed(o.queue)[1..]
    ensures o.queue != [] && o.queue[0].Injected? ==> OnlyRelayed(Finish(o).queue) == OnlyRelayed(o.queue)
  {
  }
}
