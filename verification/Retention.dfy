/** Retained packets and cumulative acknowledgements, the same for both directions of a session.

    A packet is a run of bytes read from one peer and kept until the handler process has
    acknowledged it. An acknowledgement is a cumulative count of handled bytes; releasing splits
    the deque at that count. The functions here are the branches of the code; the reference they
    are compared with is plain take and drop on the flattened bytes. */
module Retention {
  import opened Basics
  import opened Wire

  type Packet = seq<Byte>

  predicate NonEmpty(ps: seq<Packet>) {
    forall i :: 0 <= i < |ps| ==> |ps[i]| > 0
  }

  /** What preparing a transfer yields: whole packets handled, bytes used of the next packet, and
      the counter after the call. */
  datatype Split = Split(count: nat, used: nat, handled: nat)

  function Prepare(ps: seq<Packet>, handled: nat, ack: nat): Split
    requires handled <= ack
  {
    if ps == [] then Split(0, 0, handled)
    else if handled + |ps[0]| > ack then Split(0, ack - handled, handled)
    else
      var r := Prepare(ps[1..], handled + |ps[0]|, ack);
      r.(count := r.count + 1)
  }

  /** Whether the split stays inside the deque and leaves at least a byte of the packet it splits. A
      count below the counter makes the subtraction wrap. What it yields may by luck lie inside the
      first packet; it may be exactly its length, and then the whole packet is written and an empty one
      left; otherwise the buffer handed out reaches outside the packet, which is undefined. */
  predicate Fits(ps: seq<Packet>, handled: nat, ack: nat) {
    handled <= ack || ps == [] || 0 <= MachineUsed(handled, ack) < |ps[0]|
  }

  /** The split for any count for which it fits. */
  function PrepareWrapping(ps: seq<Packet>, handled: nat, ack: nat): (r: Split)
    requires Fits(ps, handled, ack)
    ensures InRange(ps, r.count, r.used)
  {
    PrepareMeasures(ps, handled, if handled <= ack then ack else handled);
    if handled <= ack then Prepare(ps, handled, ack)
    else if ps == [] then Split(0, 0, handled)
    else Split(0, MachineUsed(handled, ack), handled)
  }

  /** The split points into the deque, and a partly used packet keeps at least one byte. */
  predicate InRange(ps: seq<Packet>, count: nat, used: nat) {
    count <= |ps| && (used > 0 ==> count < |ps| && used < |ps[count]|)
  }

  /** The buffers handed to the peer's socket. */
  function Released(ps: seq<Packet>, count: nat, used: nat): seq<Packet>
    requires InRange(ps, count, used)
  {
    if used == 0 then ps[..count] else ps[..count] + [ps[count][..used]]
  }

  /** The deque after the released packets are popped and the next one is trimmed. */
  function Clear(ps: seq<Packet>, count: nat, used: nat): seq<Packet>
    requires InRange(ps, count, used)
  {
    if used == 0 then ps[count..] else [ps[count][used..]] + ps[count + 1..]
  }

  lemma ConcatSplitAt(ps: seq<Packet>, i: nat)
    requires i <= |ps|
    ensures Concat(ps) == Concat(ps[..i]) + Concat(ps[i..])
  {
    assert ps == ps[..i] + ps[i..];
    ConcatAppend(ps[..i], ps[i..]);
  }

  lemma ConcatOne(p: Packet)
    ensures Concat([p]) == p
  {
    assert Concat([p]) == p + Concat([]);
  }

  lemma ConcatSnoc(ps: seq<Packet>, p: Packet)
    ensures Concat(ps + [p]) == Concat(ps) + p
  {
    ConcatAppend(ps, [p]);
    ConcatOne(p);
  }

  lemma ConcatNonEmpty(ps: seq<Packet>)
    requires NonEmpty(ps)
    ensures ps != [] <==> Concat(ps) != []
  {
  }

  /** Any split in range cuts the flattened deque in two without losing or reordering a byte. */
  lemma SplitConserves(ps: seq<Packet>, count: nat, used: nat)
    requires InRange(ps, count, used)
    ensures Concat(ps) == Concat(Released(ps, count, used)) + Concat(Clear(ps, count, used))
  {
    ConcatSplitAt(ps, count);
    if used > 0 {
      assert ps[count..] == [ps[count]] + ps[count + 1..];
      SplitInside(ps[..count], ps[count], ps[count + 1..], used);
    }
  }

  /** A split inside a packet. */
  lemma SplitInside(front: seq<Packet>, p: Packet, tail: seq<Packet>, used: nat)
    requires used <= |p|
    ensures Concat(front) + Concat([p] + tail) == Concat(front + [p[..used]]) + Concat([p[used..]] + tail)
  {
    ConcatCons(p, tail);
    ConcatCons(p[used..], tail);
    ConcatSnoc(front, p[..used]);
    Regroup(Concat(front), p, Concat(tail), used);
  }

  lemma Regroup(a: seq<Byte>, p: seq<Byte>, c: seq<Byte>, used: nat)
    requires used <= |p|
    ensures a + (p + c) == (a + p[..used]) + (p[used..] + c)
  {
    assert p == p[..used] + p[used..];
  }

  lemma ClearNonEmpty(ps: seq<Packet>, count: nat, used: nat)
    requires NonEmpty(ps) && InRange(ps, count, used)
    ensures NonEmpty(Clear(ps, count, used))
  {
  }

  /** A split that releases anything releases some bytes. */
  lemma ReleasedSome(ps: seq<Packet>, count: nat, used: nat)
    requires NonEmpty(ps) && InRange(ps, count, used) && (count > 0 || used > 0)
    ensures Concat(Released(ps, count, used)) != []
    ensures |Concat(Clear(ps, count, used))| < |Concat(ps)|
  {
    SplitConserves(ps, count, used);
    assert NonEmpty(Released(ps, count, used)) && Released(ps, count, used) != [];
    ConcatNonEmpty(Released(ps, count, used));
  }

  lemma {:induction false} PrepareMeasures(ps: seq<Packet>, handled: nat, ack: nat)
    requires handled <= ack
    ensures var r := Prepare(ps, handled, ack);
            && InRange(ps, r.count, r.used)
            && |Concat(Released(ps, r.count, r.used))| == Min(ack - handled, |Concat(ps)|)
            && r.handled + r.used == handled + Min(ack - handled, |Concat(ps)|)
    decreases |ps|
  {
    if ps != [] {
      var p, tail := ps[0], ps[1..];
      assert |Concat(ps)| == |p| + |Concat(tail)|;
      if handled + |p| > ack {
        var used := ack - handled;
        ConcatOne(p[..used]);
        assert ps[..0] + [p[..used]] == [p[..used]];
      } else {
        PrepareMeasures(tail, handled + |p|, ack);
        var r := Prepare(tail, handled + |p|, ack);
        ReleasedCons(ps, r.count, r.used);
      }
    }
  }

  lemma ReleasedCons(ps: seq<Packet>, count: nat, used: nat)
    requires ps != [] && InRange(ps[1..], count, used)
    ensures InRange(ps, count + 1, used)
    ensures Concat(Released(ps, count + 1, used)) == ps[0] + Concat(Released(ps[1..], count, used))
  {
    var tail := ps[1..];
    assert ps[..count + 1] == [ps[0]] + tail[..count];
    assert Released(ps, count + 1, used) == [ps[0]] + Released(tail, count, used);
    ConcatCons(ps[0], Released(tail, count, used));
  }

  /** Ack split exactness: an acknowledgement releases exactly the first bytes it newly covers, and
      keeps exactly the others, with no empty packet left behind. */
  lemma AckSplitIsExact(ps: seq<Packet>, handled: nat, ack: nat)
    requires NonEmpty(ps) && handled <= ack
    ensures var r := Prepare(ps, handled, ack);
            var k := Min(ack - handled, |Concat(ps)|);
            && InRange(ps, r.count, r.used)
            && Concat(Released(ps, r.count, r.used)) == Concat(ps)[..k]
            && Concat(Clear(ps, r.count, r.used)) == Concat(ps)[k..]
            && NonEmpty(Clear(ps, r.count, r.used))
            && r.handled == handled + k - r.used
  {
    var r := Prepare(ps, handled, ack);
    PrepareMeasures(ps, handled, ack);
    SplitConserves(ps, r.count, r.used);
    ClearNonEmpty(ps, r.count, r.used);
  }

  // ---------------------------------------------------------------- appends during an ack write

  /** Packets pushed while the released bytes are being written change neither what was released
      nor what clearing removes. */
  lemma AppendsCommuteWithClear(ps: seq<Packet>, more: seq<Packet>, count: nat, used: nat)
    requires InRange(ps, count, used)
    ensures InRange(ps + more, count, used)
    ensures Released(ps + more, count, used) == Released(ps, count, used)
    ensures Clear(ps + more, count, used) == Clear(ps, count, used) + more
  {
    assert (ps + more)[..count] == ps[..count];
    if used == 0 {
      assert (ps + more)[count..] == ps[count..] + more;
    } else {
      assert (ps + more)[count + 1..] == ps[count + 1..] + more;
    }
  }

  /** Whether the pushes come before or after the acknowledgement is handled makes a difference
      exactly when it acknowledges bytes that were not yet retained. */
  lemma {:induction false} OrderMattersOnlyForOverAck(ps: seq<Packet>, more: seq<Packet>, handled: nat, ack: nat)
    requires NonEmpty(ps) && NonEmpty(more) && more != [] && handled <= ack
    ensures Prepare(ps + more, handled, ack) == Prepare(ps, handled, ack) <==> ack - handled <= |Concat(ps)|
    decreases |ps|
  {
    if ps == [] {
      assert ps + more == more;
      if handled + |more[0]| <= ack {
        assert Prepare(more, handled, ack).count >= 1;
      }
    } else {
      var p, tail := ps[0], ps[1..];
      assert (ps + more)[0] == p && (ps + more)[1..] == tail + more;
      assert |Concat(ps)| == |p| + |Concat(tail)|;
      if handled + |p| <= ack {
        OrderMattersOnlyForOverAck(tail, more, handled + |p|, ack);
      }
    }
  }

  // ---------------------------------------------------------------- what the counter means

  /** One direction since its counter was last reset, with the history of what went in and out.
      `trims` is the total number of bytes released by splitting packets. */
  datatype Ledger = Ledger(packets: seq<Packet>, handled: nat, pushed: seq<Byte>, forwarded: seq<Byte>, trims: nat)

  datatype Op = Push(packet: Packet) | Ack(total: nat)

  /** A direction just after its counter was reset: nothing retained, nothing forwarded. */
  const EMPTY_LEDGER := Ledger([], 0, [], [], 0)

  /** A read never yields an empty packet, and the handler's count never falls below the counter. */
  predicate Admissible(q: Ledger, op: Op) {
    match op
    case Push(p) => |p| > 0
    case Ack(n) => q.handled <= n
  }

  function Apply(q: Ledger, op: Op): Ledger
    requires Admissible(q, op)
  {
    match op
    case Push(p) => q.(packets := q.packets + [p], pushed := q.pushed + p)
    case Ack(n) =>
      var r := Prepare(q.packets, q.handled, n);
      PrepareMeasures(q.packets, q.handled, n);
      Ledger(Clear(q.packets, r.count, r.used), r.handled, q.pushed,
             q.forwarded + Concat(Released(q.packets, r.count, r.used)), q.trims + r.used)
  }

  predicate AllAdmissible(q: Ledger, ops: seq<Op>)
    decreases |ops|
  {
    ops == [] || (Admissible(q, ops[0]) && AllAdmissible(Apply(q, ops[0]), ops[1..]))
  }

  function Run(q: Ledger, ops: seq<Op>): Ledger
    requires AllAdmissible(q, ops)
    decreases |ops|
  {
    if ops == [] then q else Run(Apply(q, ops[0]), ops[1..])
  }

  ghost predicate Balanced(q: Ledger) {
    && NonEmpty(q.packets)
    && q.forwarded + Concat(q.packets) == q.pushed
    && |q.forwarded| == q.handled + q.trims
  }

  lemma PushBalances(q: Ledger, p: Packet)
    requires Balanced(q) && |p| > 0
    ensures Balanced(Apply(q, Push(p)))
  {
    ConcatSnoc(q.packets, p);
    Assoc(q.forwarded, Concat(q.packets), p);
  }

  /** What an acknowledgement forwards and what it leaves make up what was there. */
  lemma ForwardedThenKept(forwarded: seq<Byte>, ps: seq<Packet>, count: nat, used: nat)
    requires InRange(ps, count, used)
    ensures (forwarded + Concat(Released(ps, count, used))) + Concat(Clear(ps, count, used)) == forwarded + Concat(ps)
  {
    SplitConserves(ps, count, used);
    Assoc(forwarded, Concat(Released(ps, count, used)), Concat(Clear(ps, count, used)));
  }

  lemma AckBalances(q: Ledger, n: nat)
    requires Balanced(q) && q.handled <= n
    ensures Balanced(Apply(q, Ack(n)))
    ensures |Apply(q, Ack(n)).forwarded| == |q.forwarded| + Min(n - q.handled, |Concat(q.packets)|)
  {
    var r := Prepare(q.packets, q.handled, n);
    PrepareMeasures(q.packets, q.handled, n);
    ClearNonEmpty(q.packets, r.count, r.used);
    ForwardedThenKept(q.forwarded, q.packets, r.count, r.used);
  }

  lemma ApplyBalances(q: Ledger, op: Op)
    requires Balanced(q) && Admissible(q, op)
    ensures Balanced(Apply(q, op))
  {
    match op {
      case Push(p) => PushBalances(q, p);
      case Ack(n) => AckBalances(q, n);
    }
  }

  /** Since the last reset the bytes forwarded by acknowledgements are the counter plus everything
      released by splits, and with what is retained they are the bytes read. */
  lemma {:induction false} CounterPlusTrims(q: Ledger, ops: seq<Op>)
    requires Balanced(q) && AllAdmissible(q, ops)
    ensures Balanced(Run(q, ops))
    ensures Run(q, ops).trims >= q.trims
    decreases |ops|
  {
    if ops != [] {
      ApplyBalances(q, ops[0]);
      CounterPlusTrims(Apply(q, ops[0]), ops[1..]);
    }
  }

  /** An acknowledgement ends on a packet boundary, or acknowledges everything retained. */
  ghost predicate Aligned(q: Ledger, op: Op) {
    op.Ack? ==> (exists j :: 0 <= j <= |q.packets| && op.total == q.handled + |Concat(q.packets[..j])|)
                || op.total >= q.handled + |Concat(q.packets)|
  }

  ghost predicate AllAligned(q: Ledger, ops: seq<Op>)
    requires AllAdmissible(q, ops)
    decreases |ops|
  {
    ops == [] || (Aligned(q, ops[0]) && AllAligned(Apply(q, ops[0]), ops[1..]))
  }

  lemma {:induction false} ConcatPrefixMonotone(ps: seq<Packet>, i: nat, j: nat)
    requires NonEmpty(ps) && i < j <= |ps|
    ensures |Concat(ps[..i])| < |Concat(ps[..j])|
  {
    ConcatSplitAt(ps[..j], i);
    assert ps[..j][..i] == ps[..i];
    ConcatNonEmpty(ps[..j][i..]);
  }

  /** Splitting happens exactly on unaligned acknowledgements. */
  lemma SplitsExactlyWhenUnaligned(q: Ledger, n: nat)
    requires NonEmpty(q.packets) && q.handled <= n
    ensures Aligned(q, Ack(n)) <==> Prepare(q.packets, q.handled, n).used == 0
  {
    var ps := q.packets;
    var r := Prepare(ps, q.handled, n);
    PrepareMeasures(ps, q.handled, n);
    if r.used == 0 {
      assert n >= q.handled + |Concat(ps)| || n == q.handled + |Concat(ps[..r.count])|;
    } else {
      InsideAPacketIsNoBoundary(ps, r.count, r.used);
      SplitConserves(ps, r.count, r.used);
      ConcatNonEmpty(Clear(ps, r.count, r.used));
    }
  }

  lemma InsideAPacketIsNoBoundary(ps: seq<Packet>, count: nat, used: nat)
    requires NonEmpty(ps) && InRange(ps, count, used) && used > 0
    ensures forall j :: 0 <= j <= |ps| ==> |Concat(ps[..j])| != |Concat(Released(ps, count, used))|
  {
    ConcatSnoc(ps[..count], ps[count][..used]);
    ConcatSnoc(ps[..count], ps[count]);
    assert ps[..count + 1] == ps[..count] + [ps[count]];
    forall j | 0 <= j <= |ps|
      ensures |Concat(ps[..j])| != |Concat(ps[..count])| + used
    {
      if j < count { ConcatPrefixMonotone(ps, j, count); }
      if j > count + 1 { ConcatPrefixMonotone(ps, count + 1, j); }
    }
  }

  lemma {:induction false} TrimsCountUnalignedAcks(q: Ledger, ops: seq<Op>)
    requires Balanced(q) && AllAdmissible(q, ops)
    ensures Run(q, ops).trims == q.trims <==> AllAligned(q, ops)
    decreases |ops|
  {
    if ops != [] {
      ApplyBalances(q, ops[0]);
      CounterPlusTrims(Apply(q, ops[0]), ops[1..]);
      TrimsCountUnalignedAcks(Apply(q, ops[0]), ops[1..]);
      if ops[0].Ack? {
        SplitsExactlyWhenUnaligned(q, ops[0].total);
      }
    }
  }

  /** An acknowledgement of bytes the proxy holds forwards exactly up to the acknowledged count if
      and only if every earlier acknowledgement since the reset was aligned; otherwise the proxy
      has by then released more than the handler acknowledged. */
  lemma AckForwardsItsCountIffEarlierAcksAligned(q0: Ledger, ops: seq<Op>, n: nat)
    requires Balanced(q0) && q0.trims == 0 && AllAdmissible(q0, ops)
    requires var q := Run(q0, ops); q.handled <= n <= q.handled + |Concat(q.packets)|
    ensures var q := Run(q0, ops);
            && |Apply(q, Ack(n)).forwarded| == n + q.trims
            && (|Apply(q, Ack(n)).forwarded| == n <==> AllAligned(q0, ops))
  {
    CounterPlusTrims(q0, ops);
    TrimsCountUnalignedAcks(q0, ops);
    CoveredAckForwards(Run(q0, ops), n);
  }

  lemma CoveredAckForwards(q: Ledger, n: nat)
    requires Balanced(q) && q.handled <= n <= q.handled + |Concat(q.packets)|
    ensures |Apply(q, Ack(n)).forwarded| == n + q.trims
  {
    AckBalances(q, n);
  }

  /** The counter itself equals the bytes forwarded exactly when no acknowledgement was unaligned. */
  lemma CounterIsForwardedIffAligned(q0: Ledger, ops: seq<Op>)
    requires Balanced(q0) && q0.trims == 0 && AllAdmissible(q0, ops)
    ensures Run(q0, ops).handled == |Run(q0, ops).forwarded| <==> AllAligned(q0, ops)
  {
    CounterPlusTrims(q0, ops);
    TrimsCountUnalignedAcks(q0, ops);
  }

  /** The results above start from a reset in particular. */
  lemma ResetIsBalanced()
    ensures Balanced(EMPTY_LEDGER) && EMPTY_LEDGER.trims == 0
  {
  }

  /** The smallest case: acknowledging one byte of a three-byte packet twice releases two bytes. */
  lemma RepeatedPartialAckReleasesTwice()
    ensures var ops := [Push([7, 8, 9]), Ack(1)];
            && AllAdmissible(EMPTY_LEDGER, ops)
            && Admissible(Run(EMPTY_LEDGER, ops), Ack(1))
            && Apply(Run(EMPTY_LEDGER, ops), Ack(1)).forwarded == [7, 8]
  {
    var q1 := Ledger([[7, 8, 9]], 0, [7, 8, 9], [], 0);
    var q2 := Ledger([[8, 9]], 0, [7, 8, 9], [7], 1);
    assert Apply(EMPTY_LEDGER, Push([7, 8, 9])) == q1;
    ConcatOne([7]);
    ConcatOne([8]);
    assert q1.packets[..0] + [[7]] == [[7]];
    assert Apply(q1, Ack(1)) == q2;
    assert q2.packets[..0] + [[8]] == [[8]];
    var ops := [Push([7, 8, 9]), Ack(1)];
    assert ops[1..] == [Ack(1)] && ops[1..][1..] == [];
    assert AllAdmissible(q2, []) && Run(q2, []) == q2;
    assert AllAdmissible(q1, ops[1..]) && Run(q1, ops[1..]) == q2;
  }

  // ---------------------------------------------------------------- machine arithmetic

  /** The bytes used of a packet as the machine computes them: wrapping subtraction, then narrowing. */
  function MachineUsed(handled: nat, ack: nat): int {
    ToInt32((ack - handled) % TWO64)
  }

  /** With acknowledgements that do not fall below the counter the machine value is the true
      difference: nothing wraps and the narrowing loses nothing. */
  lemma MachineUsedIsExact(handled: nat, ack: nat, len: nat)
    requires handled <= ack < handled + len
    requires len < 0x8000_0000
    ensures MachineUsed(handled, ack) == ack - handled
    ensures 0 <= MachineUsed(handled, ack) < len
  {
  }

  /** For any 64-bit counter and count for which the code's guard, itself a sum that wraps, splits a
      packet: the computed size lies inside the packet exactly when the count did not fall below the
      counter, or the guard's sum wrapped, or it fell below by a distance that happens to wrap back. */
  lemma MachineUsedInsidePacketIff(handled: nat, ack: nat, len: nat)
    requires handled < TWO64 && ack < TWO64 && 0 < len < 0x8000_0000
    requires (handled + len) % TWO64 > ack
    ensures 0 <= MachineUsed(handled, ack) < len
            <==> || handled <= ack || handled + len >= TWO64
                 || (handled - ack) % TWO32 == 0 || (handled - ack) % TWO32 > TWO32 - len
  {
    if handled + len >= TWO64 {
      assert (handled + len) % TWO64 == handled + len - TWO64;
      assert (ack - handled) % TWO64 == ack - handled + TWO64;
    } else if ack < handled {
      DistanceBelow(handled, ack);
    } else {
      MachineUsedIsExact(handled, ack, len);
    }
  }

  /** What the wrapped distance is modulo 2^32. */
  lemma DistanceBelow(handled: nat, ack: nat)
    requires ack < handled < TWO64
    ensures var m := (handled - ack) % TWO32;
            (ack - handled) % TWO64 % TWO32 == if m == 0 then 0 else TWO32 - m
  {
    var d := handled - ack;
    assert (ack - handled) % TWO64 == TWO64 - d;
    var q := d / TWO32;
    assert d == q * TWO32 + d % TWO32;
    if d % TWO32 == 0 {
      assert TWO64 - d == (TWO32 - q) * TWO32;
      assert (TWO64 - d) % TWO32 == 0;
    } else {
      assert TWO64 - d == (TWO32 - q - 1) * TWO32 + (TWO32 - d % TWO32);
      assert (TWO64 - d) % TWO32 == TWO32 - d % TWO32;
    }
  }

  /** What a count below the counter releases where it fits: bytes of the first packet only, as many as
      the difference is modulo 2^32, and the counter stays. */
  lemma WrappedAckReleases(ps: seq<Packet>, handled: nat, ack: nat)
    requires ack < handled && ps != [] && Fits(ps, handled, ack)
    ensures var r := PrepareWrapping(ps, handled, ack);
            && r.handled == handled && (handled + r.used - ack) % TWO32 == 0 && r.used < |ps[0]|
            && Concat(Released(ps, r.count, r.used)) == ps[0][..r.used]
            && Concat(Clear(ps, r.count, r.used)) == ps[0][r.used..] + Concat(ps[1..])
  {
    var r := PrepareWrapping(ps, handled, ack);
    CongruentDifference(handled, ack, r.used);
    ConcatOne(ps[0][..r.used]);
    ConcatCons(ps[0][r.used..], ps[1..]);
    assert ps[..0] + [ps[0][..r.used]] == [ps[0][..r.used]];
  }

  lemma CongruentDifference(handled: nat, ack: nat, used: nat)
    requires used == MachineUsed(handled, ack)
    ensures (handled + used - ack) % TWO32 == 0
  {
    var d, low := ack - handled, (ack - handled) % TWO64;
    MultipleOfTwo32(d / TWO64 * TWO32);
    assert d == low + d / TWO64 * TWO32 * TWO32;
    SumOfMultiples(used - low, low - d);
  }

  lemma MultipleOfTwo32(m: int)
    ensures (-m * TWO32) % TWO32 == 0
  {
  }

  lemma SumOfMultiples(a: int, b: int)
    requires a % TWO32 == 0 && b % TWO32 == 0
    ensures (a + b) % TWO32 == 0
  {
  }

  /** So for 64-bit values a caller can tell beforehand whether a count splits the deque properly... */
  lemma FitsIff(ps: seq<Packet>, handled: nat, ack: nat)
    requires handled < TWO64 && ack < TWO64 && ps != [] && 0 < |ps[0]| < 0x8000_0000
    ensures Fits(ps, handled, ack)
            <==> handled <= ack || (handled - ack) % TWO32 == 0 || (handled - ack) % TWO32 > TWO32 - |ps[0]|
  {
    if ack < handled { DistanceBelow(handled, ack); }
  }

  /** ... and whether it makes the code reach outside the packet, in front of it or behind. */
  lemma OutsideIff(handled: nat, ack: nat, len: nat)
    requires ack < handled < TWO64 && 0 < len < 0x8000_0000
    ensures MachineUsed(handled, ack) < 0 || MachineUsed(handled, ack) > len
            <==> 0 < (handled - ack) % TWO32 < TWO32 - len
  {
    DistanceBelow(handled, ack);
  }
}
