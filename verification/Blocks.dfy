/** The memory behind retained packets: bump-allocated blocks, and the deque of one direction, whose
    packets point into them. */
module Blocks {
  import opened Basics
  import opened Wire
  import opened Retention

  const DEFAULT_BLOCK_SIZE: nat := 1024 * 1024 * 2

  /** The size of the head written in front of every packet. */
  const HEAD: nat := 5

  class DataBlock {
    const capacity: nat
    const buffer: array<Byte>
    var used: nat

    ghost predicate Valid()
      reads this
    {
      used <= capacity == buffer.Length <= DEFAULT_BLOCK_SIZE
    }

    constructor (capacity: nat)
      requires capacity <= DEFAULT_BLOCK_SIZE
      ensures Valid() && this.capacity == capacity && used == 0 && fresh(buffer)
    {
      this.capacity := capacity;
      buffer := new Byte[capacity](_ => 0);
      used := 0;
    }

    function Available(): nat
      reads this
      requires Valid()
    {
      capacity - used
    }

    method UpdateAvailable(n: nat)
      requires Valid() && n <= Available()
      modifies this
      ensures Valid() && used == old(used) + n
    {
      used := used + n;
    }

    /** A write through a pointer into the buffer: exactly these bytes change. */
    method Poke(pos: nat, bytes: seq<Byte>)
      requires pos + |bytes| <= buffer.Length
      modifies buffer
      ensures buffer[pos..pos + |bytes|] == bytes
      ensures buffer[..pos] == old(buffer[..pos])
      ensures buffer[pos + |bytes|..] == old(buffer[pos + |bytes|..])
    {
      forall i | 0 <= i < |bytes| {
        buffer[pos + i] := bytes[i];
      }
    }

    /** The read lands behind the space of a head; then the space is claimed and the head written in
        front, so that the frame lies contiguous at the old write position. */
    method WriteFrame(kind: Byte, data: seq<Byte>) returns (frame: seq<Byte>)
      requires Valid() && HEAD + |data| <= Available()
      modifies this, buffer
      ensures Valid() && used == old(used) + HEAD + |data|
      ensures buffer[..old(used)] == old(buffer[..used])
      ensures buffer[old(used) + HEAD..used] == data
      ensures frame == EncodeFrame(Frame(kind, data))
    {
      var pos, n := used, |data|;
      Poke(pos + HEAD, data);
      ghost var read := buffer[..];
      assert read[..pos] == old(buffer[..pos]);
      UpdateAvailable(n + HEAD);
      Poke(pos, [kind] + EncodeU32(n));
      assert buffer[pos + HEAD..used] == buffer[pos + HEAD..][..n] == read[pos + HEAD..][..n] == data;
      frame := buffer[pos..pos + n + HEAD];
      assert frame == buffer[pos..pos + HEAD] + buffer[pos + HEAD..used];
    }

    /** Appending fills the free part from its start and leaves the used part alone. */
    method Append(bytes: seq<Byte>)
      requires Valid() && |bytes| <= Available()
      modifies this, buffer
      ensures Valid() && used == old(used) + |bytes|
      ensures buffer[..used] == old(buffer[..used]) + bytes
      ensures buffer[used..] == old(buffer[..])[used..]
    {
      var pos := used;
      forall i | 0 <= i < |bytes| {
        buffer[pos + i] := bytes[i];
      }
      used := used + |bytes|;
    }
  }

  /** A packet as stored: a run of bytes in a block's buffer, which it keeps alive. */
  datatype PacketRef = PacketRef(buf: array<Byte>, pos: nat, len: nat) {
    function End(): nat { pos + len }

    predicate Fits() { HEAD <= pos && End() <= buf.Length <= DEFAULT_BLOCK_SIZE }

    function Data(): seq<Byte>
      requires Fits()
      reads buf
    {
      buf[pos..End()]
    }
  }

  /** These packets hold these bytes. */
  ghost predicate Holds(ps: seq<PacketRef>, bytes: seq<Packet>)
    reads set i | 0 <= i < |ps| :: ps[i].buf
  {
    |ps| == |bytes| && forall i :: 0 <= i < |ps| ==> ps[i].Fits() && ps[i].Data() == bytes[i]
  }

  /** What asynchronous writing of a list of buffers puts on a socket. */
  method Gather(ps: seq<PacketRef>, ghost packets: seq<Packet>) returns (bytes: seq<Byte>)
    requires Holds(ps, packets)
    ensures bytes == Concat(packets)
  {
    bytes := [];
    for i := 0 to |ps|
      invariant bytes == Concat(packets[..i])
    {
      ConcatSnoc(packets[..i], packets[i]);
      assert packets[..i + 1] == packets[..i] + [packets[i]];
      var p := ps[i];
      bytes := bytes + p.buf[p.pos..p.End()];
    }
    assert packets[..|ps|] == packets;
  }

  /** Every packet, with the head in front of it, is apart from all others. */
  predicate Apart(ps: seq<PacketRef>) {
    && (forall i :: 0 <= i < |ps| ==> ps[i].len > 0)
    && (forall i, j :: 0 <= i < j < |ps| && ps[i].buf == ps[j].buf ==> ps[i].End() + HEAD <= ps[j].pos)
  }

  /** None of them lies in the part of a buffer that is still free. */
  predicate Below(ps: seq<PacketRef>, buf: array<Byte>, limit: nat) {
    forall i :: 0 <= i < |ps| && ps[i].buf == buf ==> ps[i].End() <= limit
  }

  /** The references to released bytes, and those left after clearing: as on the bytes themselves. */
  function ReleasedRefs(ps: seq<PacketRef>, count: nat, used: nat): seq<PacketRef>
    requires count <= |ps| && (used > 0 ==> count < |ps|)
  {
    if used == 0 then ps[..count] else ps[..count] + [PacketRef(ps[count].buf, ps[count].pos, used)]
  }

  function ClearedRefs(ps: seq<PacketRef>, count: nat, used: nat): seq<PacketRef>
    requires count <= |ps| && (used > 0 ==> count < |ps| && used < ps[count].len)
  {
    if used == 0 then ps[count..]
    else
      var p := ps[count];
      [PacketRef(p.buf, p.pos + used, p.len - used)] + ps[count + 1..]
  }

  /** A part of a packet is that part of its bytes. */
  lemma PartOfData(p: PacketRef, from: nat, to: nat)
    requires p.Fits() && from <= to <= p.len
    ensures var q := PacketRef(p.buf, p.pos + from, to - from); q.Fits() && q.Data() == p.Data()[from..to]
  {
  }

  lemma ReleasedHolds(ps: seq<PacketRef>, packets: seq<Packet>, count: nat, used: nat)
    requires Holds(ps, packets) && InRange(packets, count, used)
    ensures Holds(ReleasedRefs(ps, count, used), Released(packets, count, used))
  {
    if used > 0 {
      assert ps[count].Data() == packets[count];
      PartOfData(ps[count], 0, used);
    }
  }

  lemma ClearedHolds(ps: seq<PacketRef>, packets: seq<Packet>, count: nat, used: nat)
    requires Holds(ps, packets) && InRange(packets, count, used)
    ensures used > 0 ==> |packets[count]| == ps[count].len
    ensures Holds(ClearedRefs(ps, count, used), Clear(packets, count, used))
  {
    if used == 0 {
      HoldsDrop(ps, packets, count);
    } else {
      assert ps[count].Data() == packets[count];
      PartOfData(ps[count], used, ps[count].len);
      HoldsDrop(ps, packets, count + 1);
      HoldsCons(ClearedRefs(ps, count, used)[0], packets[count][used..], ps[count + 1..], packets[count + 1..]);
    }
  }

  lemma HoldsDrop(ps: seq<PacketRef>, packets: seq<Packet>, count: nat)
    requires Holds(ps, packets) && count <= |ps|
    ensures Holds(ps[count..], packets[count..])
  {
  }

  lemma HoldsCons(p: PacketRef, data: Packet, ps: seq<PacketRef>, packets: seq<Packet>)
    requires p.Fits() && p.Data() == data && Holds(ps, packets)
    ensures Holds([p] + ps, [data] + packets)
  {
  }

  /** Each packet left ends where it did, and starts no earlier. */
  lemma ClearedAt(ps: seq<PacketRef>, count: nat, used: nat, i: nat)
    requires count + i < |ps| && (used > 0 ==> used < ps[count].len)
    requires ps[count + i].len > 0
    ensures |ClearedRefs(ps, count, used)| + count == |ps|
    ensures var p, q := ps[count + i], ClearedRefs(ps, count, used)[i];
            q.buf == p.buf && q.End() == p.End() && q.pos >= p.pos && q.len > 0
  {
  }

  lemma ClearedApart(ps: seq<PacketRef>, count: nat, used: nat)
    requires Apart(ps) && count <= |ps| && (used > 0 ==> count < |ps| && used < ps[count].len)
    ensures |ClearedRefs(ps, count, used)| + count == |ps|
    ensures forall i :: 0 <= i < |ps| - count ==>
      && ClearedRefs(ps, count, used)[i].buf == ps[i + count].buf
      && ClearedRefs(ps, count, used)[i].End() == ps[i + count].End()
    ensures Apart(ClearedRefs(ps, count, used))
  {
    var left := ClearedRefs(ps, count, used);
    forall i | 0 <= i < |left|
      ensures left[i].buf == ps[i + count].buf && left[i].End() == ps[i + count].End()
      ensures left[i].pos >= ps[i + count].pos && left[i].len > 0
    {
      ClearedAt(ps, count, used, i);
    }
    forall i, j | 0 <= i < j < |left| && left[i].buf == left[j].buf
      ensures left[i].End() + HEAD <= left[j].pos
    {
      assert ps[i + count].End() + HEAD <= ps[j + count].pos;
    }
  }

  function Advance(r: Split, count: nat): Split {
    r.(count := count + r.count)
  }

  /** One turn of the loop that prepares a transfer. */
  lemma PrepareNext(ps: seq<Packet>, i: nat, handled: nat, ack: nat)
    requires i < |ps| && handled <= ack
    ensures |Concat(ps[i..])| == |ps[i]| + |Concat(ps[i + 1..])|
    ensures handled + |ps[i]| > ack ==> Prepare(ps[i..], handled, ack) == Split(0, ack - handled, handled)
    ensures handled + |ps[i]| <= ack ==>
      Prepare(ps[i..], handled, ack) == Advance(Prepare(ps[i + 1..], handled + |ps[i]|, ack), 1)
  {
    assert ps[i..][1..] == ps[i + 1..];
  }

  /** One turn in machine arithmetic: neither the sum nor the difference wraps, and the narrowing
      loses nothing. */
  lemma MachineTurn(packets: seq<Packet>, i: nat, total: U64, ack: U64, len: nat)
    requires i < |packets| && len == |packets[i]| < 0x8000_0000
    requires total <= ack && total + |Concat(packets[i..])| < TWO64
    ensures (total + len) % TWO64 == total + len
    ensures total + len + |Concat(packets[i + 1..])| < TWO64
    ensures total + len > ack ==> ToInt32((ack - total) % TWO64) == ack - total
    ensures Prepare(packets[i..], total, ack)
            == if total + len > ack then Split(0, ack - total, total)
               else Advance(Prepare(packets[i + 1..], total + len, ack), 1)
  {
    PrepareNext(packets, i, total, ack);
    NothingWraps(total, ack, len);
  }

  lemma NothingWraps(total: U64, ack: U64, len: nat)
    requires len < 0x8000_0000 && total <= ack && total + len < TWO64
    ensures (total + len) % TWO64 == total + len
    ensures total + len > ack ==> ToInt32((ack - total) % TWO64) == ack - total
  {
    if total + len > ack { MachineUsedIsExact(total, ack, len); }
  }

  /** Before each turn: the packets passed so far are those the split begins with. A count below the
      counter passes none. */
  predicate Passed(packets: seq<Packet>, handled: U64, ack: U64, count: nat, total: U64) {
    && count <= |packets| && handled + |Concat(packets)| < TWO64
    && if ack < handled then count == 0 && total == handled
       else && total <= ack && total + |Concat(packets[count..])| < TWO64
            && Prepare(packets, handled, ack) == Advance(Prepare(packets[count..], total, ack), count)
  }

  lemma TurnStops(packets: seq<Packet>, handled: U64, ack: U64, count: nat, total: U64, len: nat)
    requires Passed(packets, handled, ack, count, total) && count < |packets| && 0 < len == |packets[count]| < 0x8000_0000
    requires (total + len) % TWO64 > ack
    ensures var size := ToInt32((ack - total) % TWO64);
            && (Fits(packets, handled, ack) <==> 0 <= size < len)
            && (Fits(packets, handled, ack) ==> PrepareWrapping(packets, handled, ack) == Split(count, size, total))
            && (!Fits(packets, handled, ack) ==> ack < handled && count == 0 && total == handled && size == MachineUsed(handled, ack))
  {
    if ack < handled {
      assert packets[0] == packets[count];
      assert MachineUsed(handled, ack) == ToInt32((ack - total) % TWO64);
    } else {
      MachineTurn(packets, count, total, ack, len);
    }
  }

  /** With a count below the counter the first packet already stops the loop. */
  lemma FirstTurnStops(packets: seq<Packet>, handled: U64, ack: U64, total: U64)
    requires Passed(packets, handled, ack, 0, total) && ack < handled && packets != []
    ensures (total + |packets[0]|) % TWO64 > ack
  {
    assert |Concat(packets)| == |packets[0]| + |Concat(packets[1..])|;
  }

  lemma TurnGoesOn(packets: seq<Packet>, handled: U64, ack: U64, count: nat, total: U64, len: nat)
    requires Passed(packets, handled, ack, count, total) && count < |packets| && len == |packets[count]| < 0x8000_0000
    requires (total + len) % TWO64 <= ack
    ensures Passed(packets, handled, ack, count + 1, (total + len) % TWO64)
  {
    if ack < handled {
      FirstTurnStops(packets, handled, ack, total);
      assert false;
    }
    MachineTurn(packets, count, total, ack, len);
  }

  lemma LoopEnds(packets: seq<Packet>, handled: U64, ack: U64, total: U64)
    requires Passed(packets, handled, ack, |packets|, total)
    ensures Fits(packets, handled, ack) && PrepareWrapping(packets, handled, ack) == Split(|packets|, 0, total)
  {
  }

  /** Where the last buffer of a transfer ends: inside its packet or at a packet's end as it should, at
      the end of a packet of which the count covers nothing, or outside the packet. */
  datatype Reach = Inside | WholePacket | Outside

  /** The loop of prepare_transfer_packet in machine arithmetic, with wrapping 64-bit sums and
      differences and a narrowing to int, for every count. Where it fits it finds the specified split;
      else the count is below the counter, and the first buffer has the wrapped size: the whole first
      packet, or a size outside it. */
  method PrepareBuffers(stored: seq<PacketRef>, ghost packets: seq<Packet>, handled: U64, ack: U64)
    returns (buffers: seq<PacketRef>, total: U64, count: nat, used: int, reach: Reach)
    requires |stored| == |packets|
    requires forall i :: 0 <= i < |stored| ==> 0 < stored[i].len == |packets[i]| < 0x8000_0000
    requires handled + |Concat(packets)| < TWO64
    ensures reach == Inside <==> Fits(packets, handled, ack)
    ensures reach == Inside ==> used >= 0 && Split(count, used, total) == PrepareWrapping(packets, handled, ack)
    ensures reach == Inside ==> count <= |stored| && (used > 0 ==> count < |stored|) && buffers == ReleasedRefs(stored, count, used)
    ensures reach != Inside ==>
      && ack < handled && stored != [] && count == 0 && total == handled && used == MachineUsed(handled, ack)
      && (reach == WholePacket <==> used == stored[0].len) && (reach == Outside <==> used < 0 || used > stored[0].len)
      && buffers == if reach == WholePacket then [stored[0]] else []
  {
    buffers, total, count, used, reach := [], handled, 0, 0, Inside;
    assert packets[0..] == packets;
    while count < |stored|
      invariant count <= |stored| && buffers == stored[..count]
      invariant Passed(packets, handled, ack, count, total)
    {
      var pack := stored[count];
      if (total + pack.len) % TWO64 > ack {
        TurnStops(packets, handled, ack, count, total, pack.len);
        used := ToInt32((ack - total) % TWO64);
        if used == 0 {
          return;
        }
        if used < 0 || used > pack.len {
          reach := Outside;
          return;
        }
        buffers := buffers + [PacketRef(pack.buf, pack.pos, used)];
        if used == pack.len { reach := WholePacket; }
        return;
      }
      TurnGoesOn(packets, handled, ack, count, total, pack.len);
      buffers := buffers + [pack];
      total := (total + pack.len) % TWO64;
      count := count + 1;
    }
    LoopEnds(packets, handled, ack, total);
  }

  /** stored_data and handled_total_pkg_len of one direction. */
  class Direction {
    var stored: seq<PacketRef>
    var handled: U64
    ghost var contents: seq<Packet> // the bytes of the stored packets

    ghost predicate Valid()
      reads `stored, `contents, set i | 0 <= i < |stored| :: stored[i].buf
    {
      Holds(stored, contents) && Apart(stored)
    }

    constructor ()
      ensures Valid() && contents == [] && handled == 0
    {
      stored, handled, contents := [], 0, [];
    }

    /** inner_client_or_server_2proxy_2process before its read: a block with room for a head and at
        least 64 bytes. */
    method PrepareBlock(block: DataBlock?) returns (b: DataBlock)
      requires Valid()
      requires block != null ==> block.Valid() && Below(stored, block.buffer, block.used)
      ensures b.Valid() && b.Available() >= 69 && Below(stored, b.buffer, b.used)
      ensures b != block ==> fresh(b) && fresh(b.buffer)
      ensures b != block <==> block == null || old(block.Available()) < 69
      ensures b != block ==> b.used == 0 && b.Available() == 2_097_152
    {
      if block == null || block.Available() < 69 {
        b := new DataBlock(DEFAULT_BLOCK_SIZE);
      } else {
        b := block;
      }
    }

    /** The same, after `data` was read behind the space of the head: the packet is retained, and
        the head written in place in front of it makes the frame for the handler. */
    method StoreRead(block: DataBlock, kind: Byte, data: seq<Byte>) returns (frame: seq<Byte>)
      requires Valid() && block.Valid() && Below(stored, block.buffer, block.used)
      requires 0 < |data| <= block.Available() - HEAD
      modifies this`stored, this`contents, block, block.buffer
      ensures Valid() && block.Valid() && Below(stored, block.buffer, block.used)
      ensures block.used == old(block.used) + HEAD + |data|
      ensures contents == old(contents) + [data]
      ensures frame == EncodeFrame(Frame(kind, data))
    {
      ghost var pos, before, packets := block.used, stored, contents;
      frame := block.WriteFrame(kind, data);
      forall i | 0 <= i < |before|
        ensures before[i].Data() == packets[i]
      {
        var p := before[i];
        assert old(p.Data()) == packets[i];
        if p.buf == block.buffer {
          // the write started at or after the end of p
          assert p.Data() == block.buffer[..pos][p.pos..p.End()];
        }
      }
      var packet := PacketRef(block.buffer, block.used - |data|, |data|);
      stored := stored + [packet];
      contents := contents + [data];
      assert packet.Fits() && packet.Data() == data;
    }

    method PrepareTransferPacket(ack: U64) returns (buffers: seq<PacketRef>, count: nat, used: int, reach: Reach)
      requires Valid() && handled + |Concat(contents)| < TWO64
      modifies this`handled
      ensures reach == Inside <==> Fits(contents, old(handled), ack)
      ensures reach == Inside ==> used >= 0 && Split(count, used, handled) == PrepareWrapping(contents, old(handled), ack)
      ensures reach == Inside ==> buffers == ReleasedRefs(stored, count, used)
      ensures reach != Inside ==>
        && handled == old(handled) && ack < handled && stored != [] && count == 0 && used == MachineUsed(handled, ack)
        && (reach == WholePacket <==> used == |contents[0]|) && (reach == Outside <==> used < 0 || used > |contents[0]|)
        && buffers == if reach == WholePacket then [stored[0]] else []
    {
      assert forall i :: 0 <= i < |stored| ==> |stored[i].Data()| == |contents[i]|;
      buffers, handled, count, used, reach := PrepareBuffers(stored, contents, handled, ack);
    }

    /** clear_handled_packet: pops the handled packets and moves the start of a partly used one. */
    method ClearHandledPacket(count: nat, used: nat)
      requires Valid() && InRange(contents, count, used)
      modifies this`stored, this`contents
      ensures Valid()
      ensures contents == Clear(old(contents), count, used)
      ensures |stored| + count == |old(stored)|
      ensures forall i :: 0 <= i < |stored| ==>
        stored[i].buf == old(stored)[i + count].buf && stored[i].End() == old(stored)[i + count].End()
    {
      ghost var before, packets := stored, contents;
      var i := 0;
      while i < count
        invariant 0 <= i <= count
        invariant stored == before[i..]
      {
        stored := stored[1..];
        i := i + 1;
      }
      if used != 0 {
        var pkg := stored[0];
        stored := [PacketRef(pkg.buf, pkg.pos + used, pkg.len - used)] + stored[1..];
      }
      contents := Clear(packets, count, used);
      ClearedHolds(before, packets, count, used);
      ClearedApart(before, count, used);
      assert stored == ClearedRefs(before, count, used);
    }

    /** What a flush writes: everything stored, in order. */
    method FlushBytes() returns (bytes: seq<Byte>)
      requires Valid()
      ensures bytes == Concat(contents)
    {
      var buffers: seq<PacketRef> := [];
      for i := 0 to |stored|
        invariant buffers == stored[..i]
      {
        buffers := buffers + [stored[i]];
      }
      bytes := Gather(buffers, contents);
    }

    method Empty()
      modifies this`stored, this`contents
      ensures Valid() && stored == [] && contents == []
    {
      stored, contents := [], [];
    }
  }

  /** One read of a run: into the current block, or a new one when too little of it is free. */
  method RetainRead(d: Direction, block: DataBlock?, kind: Byte, stream: seq<Byte>, size: nat)
    returns (b: DataBlock, taken: nat)
    requires d.Valid()
    requires block != null ==> block.Valid() && Below(d.stored, block.buffer, block.used)
    modifies d`stored, d`contents
    modifies if block == null then {} else {block, block.buffer}
    ensures d.Valid() && b.Valid() && Below(d.stored, b.buffer, b.used)
    ensures b == block || (fresh(b) && fresh(b.buffer))
    ensures 64 <= size <= |stream| ==> taken >= 64
    ensures size <= 64 ==> taken == Min(size, |stream|)
    ensures taken <= |stream| && (taken == 0 <==> size == 0 || stream == [])
    ensures d.contents == old(d.contents) + if taken == 0 then [] else [stream[..taken]]
  {
    b := d.PrepareBlock(block);
    var room := b.Available() - HEAD;
    taken := Min(Min(size, room), |stream|);
    if taken > 0 {
      var frame := d.StoreRead(b, kind, stream[..taken]);
    }
  }

  /** Any run of reads: a stream arrives in pieces of whatever sizes the reads yield, through as many
      blocks as they fill. Every packet retained before or during the run stays intact: in bounds,
      apart from all others, and holding exactly the bytes that were read. */
  method RetainReads(d: Direction, kind: Byte, stream: seq<Byte>, sizes: seq<nat>) returns (taken: nat)
    requires d.Valid()
    modifies d`stored, d`contents
    ensures d.Valid() && old(d.contents) <= d.contents
    ensures taken <= |stream| && Concat(d.contents) == Concat(old(d.contents)) + stream[..taken]
    ensures (forall i :: 0 <= i < |sizes| ==> sizes[i] > 0) ==> taken >= Min(|sizes|, |stream|)
  {
    var block: DataBlock? := null;
    taken := 0;
    for i := 0 to |sizes|
      invariant d.Valid() && old(d.contents) <= d.contents && taken <= |stream|
      invariant block != null ==> fresh(block) && fresh(block.buffer) && block.Valid() && Below(d.stored, block.buffer, block.used)
      invariant Concat(d.contents) == Concat(old(d.contents)) + stream[..taken]
      invariant (forall j :: 0 <= j < |sizes| ==> sizes[j] > 0) ==> taken >= Min(i, |stream|)
    {
      ghost var before := d.contents;
      var b, n := RetainRead(d, block, kind, stream[taken..], sizes[i]);
      block := b;
      MoreRead(old(d.contents), before, d.contents, stream, taken, n);
      taken := taken + n;
    }
  }

  lemma MoreRead(first: seq<Packet>, before: seq<Packet>, after: seq<Packet>, stream: seq<Byte>, taken: nat, n: nat)
    requires taken + n <= |stream| && Concat(before) == Concat(first) + stream[..taken]
    requires after == before + if n == 0 then [] else [stream[taken..][..n]]
    ensures Concat(after) == Concat(first) + stream[..taken + n]
  {
    if n > 0 {
      var data := stream[taken..][..n];
      ConcatSnoc(before, data);
      Assoc(Concat(first), stream[..taken], data);
      assert stream[..taken] + data == stream[..taken + n];
    } else {
      assert after == before;
    }
  }
}
