/** The resizable stream buffer: one vector, a get area and a put area inside it, positions that are
    brought up to date lazily, compaction by moving, growth up to a hard maximum. It behaves as a
    bounded first-in first-out queue of bytes.

    Positions are offsets into the vector; the beginnings of the two areas are never read by the
    code and are left out. */
module Streambuf {
  import opened Basics
  import opened Wire

  const DELTA: nat := 128
  const EOF: int := -1

  datatype Sb = Sb(store: seq<Byte>, gptr: nat, egptr: nat, pptr: nat, epptr: nat, maxSize: nat)

  function Zeros(n: nat): (z: seq<Byte>)
    ensures |z| == n
  {
    seq(n, _ => 0)
  }

  /** vector::resize */
  function Resize(s: seq<Byte>, n: nat): (r: seq<Byte>)
    ensures |r| == n
    ensures forall i :: 0 <= i < Min(n, |s|) ==> r[i] == s[i]
  {
    if n <= |s| then s[..n] else s + Zeros(n - |s|)
  }

  /** Positions in order, and the storage exactly as large as the end of the put area, or one. */
  predicate Valid(b: Sb) {
    && b.gptr <= b.egptr <= b.pptr <= b.epptr <= b.maxSize
    && |b.store| == Max(b.epptr, 1)
  }

  function Size(b: Sb): (n: nat)
    requires Valid(b)
    ensures n <= b.maxSize
  {
    b.pptr - b.gptr
  }

  /** The input sequence: the queue this buffer stands for. */
  function Contents(b: Sb): (q: seq<Byte>)
    requires Valid(b)
    ensures |q| == Size(b)
  {
    b.store[b.gptr..b.pptr]
  }

  function Create(maxSize: nat): Sb {
    var pend := Min(maxSize, DELTA);
    Sb(Zeros(Max(pend, 1)), 0, 0, 0, pend, maxSize)
  }

  // ---------------------------------------------------------------- reserve

  /** A state and whether length_error was thrown. */
  datatype Outcome = Outcome(b: Sb, thrown: bool)

  /** The existing contents moved to the start of the vector. */
  function Shift(b: Sb): (s: seq<Byte>)
    requires Valid(b)
    ensures |s| == |b.store|
  {
    if b.gptr > 0 then Contents(b) + b.store[Size(b)..] else b.store
  }

  lemma ShiftIs(b: Sb, s: seq<Byte>)
    requires Valid(b) && b.gptr > 0 && |s| == |b.store|
    requires forall j :: 0 <= j < Size(b) ==> s[j] == b.store[b.gptr + j]
    requires forall j :: Size(b) <= j < |s| ==> s[j] == b.store[j]
    ensures s == Shift(b)
  {
  }

  function Reserve(b: Sb, n: nat): Outcome
    requires Valid(b)
  {
    if n <= b.epptr - b.pptr then Outcome(b, false)
    else
      var pnext := Size(b);
      if n <= b.epptr - pnext then Outcome(Sb(Shift(b), 0, pnext, pnext, b.epptr, b.maxSize), false)
      else if n <= b.maxSize && pnext <= b.maxSize - n then
        var pend := pnext + n;
        Outcome(Sb(Resize(Shift(b), Max(pend, 1)), 0, pnext, pnext, pend, b.maxSize), false)
      else Outcome(b.(store := Shift(b)), true)
  }

  /** Reserving throws exactly when the contents and the request together exceed the maximum;
      otherwise it makes the room, through compaction and growth, and keeps the contents. */
  lemma ReserveContract(b: Sb, n: nat)
    requires Valid(b)
    ensures var r := Reserve(b, n);
            && Valid(r.b) && r.b.maxSize == b.maxSize
            && (r.thrown <==> Size(b) + n > b.maxSize)
            && (!r.thrown ==> Contents(r.b) == Contents(b) && n <= r.b.epptr - r.b.pptr)
  {
    var r := Reserve(b, n);
    if !r.thrown && r.b != b {
      assert forall i :: 0 <= i < Size(b) ==> r.b.store[i] == Contents(b)[i];
    }
  }

  /** Nothing moves while there is room. Otherwise the contents move to the start of the vector, and it
      grows as far as the request needs and no further. */
  lemma ReserveGrowsAsNeeded(b: Sb, n: nat)
    requires Valid(b) && Size(b) + n <= b.maxSize
    ensures var q := Reserve(b, n).b;
            if n <= b.epptr - b.pptr then q == b
            else q.gptr == 0 && q.egptr == q.pptr == Size(b) && q.epptr == Max(b.epptr, Size(b) + n)
  {
  }

  lemma ThrowOnlyShifts(b: Sb, n: nat)
    requires Valid(b) && Reserve(b, n).thrown
    ensures Reserve(b, n).b == b.(store := Shift(b)) && Valid(b.(store := Shift(b)))
  {
  }

  lemma OverlayAt(b: Sb, n: nat, i: nat)
    requires Valid(b) && Reserve(b, n).thrown && i < Size(b)
    ensures Valid(Reserve(b, n).b) && |Contents(Reserve(b, n).b)| == Size(b)
    ensures Contents(Reserve(b, n).b)[i]
            == if b.gptr + i < Size(b) then Contents(b)[b.gptr + i] else Contents(b)[i]
  {
    ThrowOnlyShifts(b, n);
    assert Contents(Reserve(b, n).b)[i] == Shift(b)[b.gptr + i];
  }

  /** What a failed call leaves: the shift happens before the throw, but the positions stay, so the
      contents are overwritten by their own tail from the old read position on. */
  lemma ThrowOverlaysContents(b: Sb, n: nat)
    requires Valid(b) && Reserve(b, n).thrown
    ensures Valid(Reserve(b, n).b)
    ensures var q, q' := Contents(b), Contents(Reserve(b, n).b);
            && |q'| == |q|
            && forall i :: 0 <= i < |q| ==> q'[i] == if b.gptr + i < |q| then q[b.gptr + i] else q[i]
  {
    ThrowOnlyShifts(b, n);
    var q, q' := Contents(b), Contents(Reserve(b, n).b);
    forall i | 0 <= i < |q|
      ensures q'[i] == if b.gptr + i < |q| then q[b.gptr + i] else q[i]
    {
      OverlayAt(b, n, i);
    }
  }

  /** So a failed call keeps the contents if and only if they repeat with the read offset as period;
      in particular always when nothing was consumed, or at least as much as is left. */
  lemma ThrowKeepsContentsIff(b: Sb, n: nat)
    requires Valid(b) && Reserve(b, n).thrown
    ensures Contents(Reserve(b, n).b) == Contents(b)
            <==> (forall i :: 0 <= i < Size(b) - b.gptr ==> Contents(b)[i] == Contents(b)[b.gptr + i])
    ensures b.gptr == 0 || Size(b) <= b.gptr ==> Contents(Reserve(b, n).b) == Contents(b)
  {
    ThrowOverlaysContents(b, n);
    var q, q' := Contents(b), Contents(Reserve(b, n).b);
    if forall i :: 0 <= i < Size(b) - b.gptr ==> q[i] == q[b.gptr + i] {
      forall i | 0 <= i < |q|
        ensures q'[i] == q[i]
      {
        OverlayAt(b, n, i);
        if b.gptr + i < |q| { assert q[i] == q[b.gptr + i]; }
      }
    } else {
      var i :| 0 <= i < Size(b) - b.gptr && q[i] != q[b.gptr + i];
      assert q'[i] == q[b.gptr + i];
    }
  }

  // ---------------------------------------------------------------- the operations

  /** The caller writing into the prepared buffer. */
  function Fill(b: Sb, data: seq<Byte>): Sb
    requires Valid(b) && |data| <= b.epptr - b.pptr
  {
    b.(store := b.store[..b.pptr] + data + b.store[b.pptr + |data|..])
  }

  function Commit(b: Sb, n: nat): Sb
    requires Valid(b)
  {
    var m := Min(n, b.epptr - b.pptr);
    b.(pptr := b.pptr + m, egptr := b.pptr + m)
  }

  function Consume(b: Sb, n: nat): Sb
    requires Valid(b)
  {
    var m := if b.gptr + n > b.pptr then b.pptr - b.gptr else n;
    b.(egptr := if b.egptr < b.pptr then b.pptr else b.egptr, gptr := b.gptr + m)
  }

  /** The state after, and the next character or EOF. */
  function Underflow(b: Sb): (Sb, int)
    requires Valid(b)
  {
    if b.gptr < b.pptr then (b.(egptr := b.pptr), b.store[b.gptr]) else (b, EOF)
  }

  /** The cast of a character value to char: the one byte that is equal to it modulo 256. */
  function ToChar(c: int): (r: Byte)
    ensures (r - c) % 256 == 0
  {
    c % 256
  }

  /** Room for at least one more character: to the end of the maximum, or the usual step. */
  function MakeRoom(b: Sb): Outcome
    requires Valid(b)
  {
    if b.pptr < b.epptr then Outcome(b, false)
    else if Size(b) < b.maxSize && b.maxSize - Size(b) < DELTA then Reserve(b, b.maxSize - Size(b))
    else Reserve(b, DELTA)
  }

  function Overflow(b: Sb, c: int): Outcome
    requires Valid(b)
  {
    if c == EOF then Outcome(b, false)
    else
      MakeRoomContract(b);
      var r := MakeRoom(b);
      if r.thrown then r else Outcome(PutChar(r.b, c), false)
  }

  /** What overflow returns when it does not throw; for EOF, some value other than EOF. */
  function OverflowReturns(c: int): int {
    if c == EOF then 0 else c
  }

  /** Storing at the put position; the get area's end is not brought up to date. */
  function PutChar(b: Sb, c: int): Sb
    requires Valid(b) && b.pptr < b.epptr
  {
    b.(store := b.store[b.pptr := ToChar(c)], pptr := b.pptr + 1)
  }

  function ReadSizeHelper(b: Sb, capacity: nat, limit: nat): nat
    requires Valid(b) && |b.store| <= capacity
  {
    Min(Max(512, capacity - Size(b)), Min(limit, b.maxSize - Size(b)))
  }

  lemma CommitAppends(b: Sb, data: seq<Byte>, n: nat)
    requires Valid(b) && n <= |data| <= b.epptr - b.pptr
    ensures Valid(Fill(b, data)) && Valid(Commit(Fill(b, data), n))
    ensures Contents(Commit(Fill(b, data), n)) == Contents(b) + data[..n]
  {
  }

  /** Committing more than the put area holds commits all of it. */
  lemma CommitSaturates(b: Sb, n: nat)
    requires Valid(b)
    ensures Valid(Commit(b, n))
    ensures Contents(Commit(b, n)) == Contents(b) + b.store[b.pptr..b.pptr + Min(n, b.epptr - b.pptr)]
    ensures n >= b.epptr - b.pptr ==> Commit(b, n).pptr == b.epptr
    ensures Commit(b, n).egptr == Commit(b, n).pptr
  {
  }

  lemma ConsumeDrops(b: Sb, n: nat)
    requires Valid(b)
    ensures Valid(Consume(b, n))
    ensures Contents(Consume(b, n)) == Contents(b)[Min(n, Size(b))..]
    ensures Consume(b, n).egptr == b.pptr && Consume(b, n).epptr == b.epptr
  {
  }

  lemma UnderflowPeeks(b: Sb)
    requires Valid(b)
    ensures Valid(Underflow(b).0) && Contents(Underflow(b).0) == Contents(b)
    ensures Underflow(b).1 == if Contents(b) == [] then EOF else Contents(b)[0]
    ensures if Contents(b) == [] then Underflow(b).0 == b else Underflow(b).0.egptr == b.pptr
  {
  }

  /** A character other than EOF is refused exactly when the buffer is full, and appended otherwise: as
      the byte it is, and a negative one as the byte it is a signed char of. */
  lemma OverflowContract(b: Sb, c: int)
    requires Valid(b)
    ensures Valid(Overflow(b, c).b)
    ensures c == EOF ==> Overflow(b, c) == Outcome(b, false)
    ensures c != EOF ==> (Overflow(b, c).thrown <==> Size(b) == b.maxSize)
    ensures c != EOF && Size(b) < b.maxSize ==>
      && (0 <= c < 256 ==> Contents(Overflow(b, c).b) == Contents(b) + [c])
      && (-256 <= c < 0 ==> Contents(Overflow(b, c).b) == Contents(b) + [c + 256])
      && Contents(Overflow(b, c).b) == Contents(b) + [c % 256]
    ensures Overflow(b, c).b.maxSize == b.maxSize
    ensures OverflowReturns(c) != EOF && (c != EOF ==> OverflowReturns(c) == c)
  {
    if c != EOF {
      MakeRoomContract(b);
      var r := MakeRoom(b);
      if !r.thrown { PutCharAppends(r.b, c); }
    }
  }

  lemma MakeRoomContract(b: Sb)
    requires Valid(b)
    ensures var r := MakeRoom(b);
            && Valid(r.b) && r.b.maxSize == b.maxSize
            && (r.thrown <==> Size(b) == b.maxSize)
            && (!r.thrown ==> Contents(r.b) == Contents(b) && r.b.pptr < r.b.epptr)
  {
    ReserveContract(b, if Size(b) < b.maxSize && b.maxSize - Size(b) < DELTA then b.maxSize - Size(b) else DELTA);
  }

  lemma PutCharAppends(b: Sb, c: int)
    requires Valid(b) && b.pptr < b.epptr
    ensures Valid(PutChar(b, c)) && Contents(PutChar(b, c)) == Contents(b) + [ToChar(c)]
  {
  }

  /** Where a character finds the put area full, room is made for up to 128, or for what the maximum
      still allows, and for as much as was consumed if that is more. */
  lemma OverflowMakesRoom(b: Sb, c: int)
    requires Valid(b) && c != EOF && b.pptr == b.epptr && Size(b) < b.maxSize
    ensures var q := Overflow(b, c).b;
            Valid(q) && q.epptr - q.pptr == Max(b.gptr, Min(128, b.maxSize - Size(b))) - 1
  {
    OverflowContract(b, c);
    ReserveGrowsAsNeeded(b, Min(128, b.maxSize - Size(b)));
  }

  /** With room there is no growth: only the character is stored. */
  lemma OverflowInRoom(b: Sb, c: int)
    requires Valid(b) && c != EOF && b.pptr < b.epptr
    ensures var q := Overflow(b, c).b;
            q.gptr == b.gptr && q.egptr == b.egptr && q.pptr == b.pptr + 1 && q.epptr == b.epptr
  {
  }

  /** read_size_helper proposes as much as the limit, the maximum, and the larger of 512 and the free
      capacity of the vector all allow. */
  lemma ReadSizeIsLargest(b: Sb, capacity: nat, limit: nat, n: nat)
    requires Valid(b) && |b.store| <= capacity
    ensures n <= ReadSizeHelper(b, capacity, limit)
            <==> n <= limit && Size(b) + n <= b.maxSize && (n <= 512 || Size(b) + n <= capacity)
  {
  }

  /** Preparing that never throws. */
  lemma ReadSizeNeverThrows(b: Sb, capacity: nat, limit: nat)
    requires Valid(b) && |b.store| <= capacity
    ensures !Reserve(b, ReadSizeHelper(b, capacity, limit)).thrown
    ensures ReadSizeHelper(b, capacity, limit) == 0 <==> limit == 0 || Size(b) == b.maxSize
  {
    ReserveContract(b, ReadSizeHelper(b, capacity, limit));
  }

  /** Positions are moved by a count narrowed to int: exactly, just when it is below 2^31. */
  lemma BumpIsExactIff(m: nat)
    requires m < TWO64
    ensures ToInt32(m) == m <==> m < 0x8000_0000
  {
  }

  // ---------------------------------------------------------------- refinement

  /** Prepare `n`, write `data` there and commit `k` of it; or one of the other operations. */
  datatype Op =
    | Append(n: nat, data: seq<Byte>, k: nat)
    | Drop(n: nat)
    | Peek
    | Put(c: int)

  predicate Admissible(op: Op) {
    op.Append? ==> op.k <= |op.data| <= op.n
  }

  /** The buffer after one operation, or None if it threw. */
  function Apply(b: Sb, op: Op): (r: Option<Sb>)
    requires Valid(b) && Admissible(op)
    ensures r.Some? ==> Valid(r.value) && r.value.maxSize == b.maxSize
  {
    match op
    case Append(n, data, k) =>
      ReserveContract(b, n);
      var r := Reserve(b, n);
      if r.thrown then None
      else
        CommitAppends(r.b, data, k);
        Some(Commit(Fill(r.b, data), k))
    case Drop(n) =>
      ConsumeDrops(b, n);
      Some(Consume(b, n))
    case Peek =>
      UnderflowPeeks(b);
      Some(Underflow(b).0)
    case Put(c) =>
      OverflowContract(b, c);
      if Overflow(b, c).thrown then None else Some(Overflow(b, c).b)
  }

  function Run(b: Sb, ops: seq<Op>): Option<Sb>
    requires Valid(b) && forall i :: 0 <= i < |ops| ==> Admissible(ops[i])
    decreases |ops|
  {
    if ops == [] then Some(b)
    else match Apply(b, ops[0])
      case None => None
      case Some(next) => Run(next, ops[1..])
  }

  /** The bounded queue. */
  function FifoApply(q: seq<Byte>, max: nat, op: Op): Option<seq<Byte>>
    requires Admissible(op)
  {
    match op
    case Append(n, data, k) => if |q| + n > max then None else Some(q + data[..k])
    case Drop(n) => Some(q[Min(n, |q|)..])
    case Peek => Some(q)
    case Put(c) => if c == EOF then Some(q) else if |q| == max then None else Some(q + [c % 256])
  }

  function FifoRun(q: seq<Byte>, max: nat, ops: seq<Op>): Option<seq<Byte>>
    requires forall i :: 0 <= i < |ops| ==> Admissible(ops[i])
    decreases |ops|
  {
    if ops == [] then Some(q)
    else match FifoApply(q, max, ops[0])
      case None => None
      case Some(next) => FifoRun(next, max, ops[1..])
  }

  lemma ApplyRefines(b: Sb, op: Op)
    requires Valid(b) && Admissible(op)
    ensures FifoApply(Contents(b), b.maxSize, op)
            == if Apply(b, op).None? then None else Some(Contents(Apply(b, op).value))
  {
    match op {
      case Append(n, data, k) =>
        ReserveContract(b, n);
        if !Reserve(b, n).thrown { CommitAppends(Reserve(b, n).b, data, k); }
      case Drop(n) => ConsumeDrops(b, n);
      case Peek => UnderflowPeeks(b);
      case Put(c) => OverflowContract(b, c);
    }
  }

  /** Refinement over whole runs: through any sequence of operations, with all the compaction and
      growth it causes, the buffer throws exactly where the bounded queue is full, and otherwise
      holds exactly the queue. */
  lemma {:induction false} RunRefines(b: Sb, ops: seq<Op>)
    requires Valid(b) && forall i :: 0 <= i < |ops| ==> Admissible(ops[i])
    ensures Run(b, ops).Some? ==> Valid(Run(b, ops).value)
    ensures FifoRun(Contents(b), b.maxSize, ops)
            == if Run(b, ops).None? then None else Some(Contents(Run(b, ops).value))
    decreases |ops|
  {
    if ops != [] {
      ApplyRefines(b, ops[0]);
      if Apply(b, ops[0]).Some? { RunRefines(Apply(b, ops[0]).value, ops[1..]); }
    }
  }

  lemma NewBufferRefines(maxSize: nat, ops: seq<Op>)
    requires forall i :: 0 <= i < |ops| ==> Admissible(ops[i])
    ensures Valid(Create(maxSize)) && Create(maxSize).epptr - Create(maxSize).pptr == Min(128, maxSize)
    ensures Run(Create(maxSize), ops).Some? ==> Valid(Run(Create(maxSize), ops).value)
    ensures FifoRun([], maxSize, ops)
            == if Run(Create(maxSize), ops).None? then None else Some(Contents(Run(Create(maxSize), ops).value))
  {
    RunRefines(Create(maxSize), ops);
    assert Contents(Create(maxSize)) == [];
  }

  lemma AppendFromStart(max: nat, data: seq<Byte>)
    requires |data| == max
    ensures var b := Create(max);
            && Valid(b) && Apply(b, Append(max, data, max)).Some?
            && Apply(b, Append(max, data, max)).value.gptr == 0
            && Contents(Apply(b, Append(max, data, max)).value) == data
  {
    var b := Create(max);
    assert Contents(b) == [];
    ReserveContract(b, max);
    CommitAppends(Reserve(b, max).b, data, max);
    assert [] + data[..max] == data;
  }

  lemma DropOne(b: Sb)
    requires Valid(b) && b.gptr == 0 && Size(b) > 0
    ensures Apply(b, Drop(1)).Some? && Apply(b, Drop(1)).value.gptr == 1
    ensures Contents(Apply(b, Drop(1)).value) == Contents(b)[1..]
  {
    ConsumeDrops(b, 1);
  }

  /** Reachable buffers whose contents a failed prepare overwrites: after filling a new buffer and
      consuming one byte, preparing as much again throws, and every byte but the last is replaced by
      its successor. With 1, 2, 3 the remaining 2, 3 become 3, 3. */
  lemma FailedPrepareOverwrites(max: nat, data: seq<Byte>)
    requires |data| == max >= 2
    ensures var b := Create(max);
            && Valid(b) && Run(b, [Append(max, data, max), Drop(1)]).Some?
            && var full := Run(b, [Append(max, data, max), Drop(1)]).value;
               && Valid(full) && Contents(full) == data[1..]
               && Reserve(full, max + 1).thrown
               && Contents(Reserve(full, max + 1).b) == data[2..] + [data[max - 1]]
               && (data == [1, 2, 3] ==> Contents(Reserve(full, max + 1).b) == [3, 3])
  {
    AppendFromStart(max, data);
    var ops := [Append(max, data, max), Drop(1)];
    var b1 := Apply(Create(max), ops[0]).value;
    DropOne(b1);
    var b2 := Apply(b1, Drop(1)).value;
    TwoSteps(Create(max), ops[0], b1, ops[1], b2);
    OverwrittenByOne(b2, max + 1, data);
  }

  lemma OverwrittenByOne(b: Sb, n: nat, data: seq<Byte>)
    requires Valid(b) && b.gptr == 1 && |data| >= 2 && Contents(b) == data[1..] && n > b.maxSize
    ensures Reserve(b, n).thrown && Contents(Reserve(b, n).b) == data[2..] + [data[|data| - 1]]
  {
    ReserveContract(b, n);
    var left, last := Contents(Reserve(b, n).b), |data| - 2;
    OverlayAt(b, n, last);
    forall i | 0 <= i < last
      ensures left[i] == data[i + 2]
    {
      OverlayAt(b, n, i);
      assert Contents(b)[1 + i] == data[1..][1 + i];
    }
    assert left[last] == data[1..][last];
  }

  lemma TwoSteps(b: Sb, op: Op, b1: Sb, op1: Op, b2: Sb)
    requires Valid(b) && Admissible(op) && Admissible(op1) && Apply(b, op) == Some(b1) && Valid(b1) && Apply(b1, op1) == Some(b2)
    ensures Run(b, [op, op1]) == Some(b2)
  {
    assert [op, op1][1..] == [op1] && [op1][1..] == [];
    assert Valid(b2) && Run(b2, []) == Some(b2);
    assert Run(b1, [op1]) == Some(b2);
  }

  // ---------------------------------------------------------------- the class

  class BasicStreambuf {
    const maxSize: nat
    var buffer: array<Byte>
    var gptr: nat
    var egptr: nat
    var pptr: nat
    var epptr: nat

    ghost function View(): Sb
      reads this, buffer
    {
      Sb(buffer[..], gptr, egptr, pptr, epptr, maxSize)
    }

    constructor (maxSize: nat)
      ensures View() == Create(maxSize) && fresh(buffer)
    {
      var pend := Min(maxSize, DELTA);
      this.maxSize := maxSize;
      buffer := new Byte[Max(pend, 1)](_ => 0);
      gptr, egptr, pptr, epptr := 0, 0, 0, pend;
      new;
      assert buffer[..] == Zeros(Max(pend, 1));
    }

    /** memmove of the contents to the start of the vector, front to back. */
    method MoveToFront()
      requires Valid(View()) && gptr > 0
      modifies buffer
      ensures buffer[..] == Shift(old(View()))
    {
      ghost var was := buffer[..];
      var n := pptr - gptr;
      for i := 0 to n
        invariant forall j :: 0 <= j < i ==> buffer[j] == was[gptr + j]
        invariant forall j :: i <= j < buffer.Length ==> buffer[j] == was[j]
      {
        buffer[i] := buffer[gptr + i];
      }
      ShiftIs(old(View()), buffer[..]);
    }

    method Grow(n: nat)
      requires n >= buffer.Length
      modifies this`buffer
      ensures fresh(buffer) && buffer[..] == Resize(old(buffer[..]), n)
    {
      var larger := new Byte[n](_ => 0);
      forall i | 0 <= i < buffer.Length {
        larger[i] := buffer[i];
      }
      assert larger[..] == Resize(buffer[..], n);
      buffer := larger;
    }

    method ReserveSpace(n: nat) returns (thrown: bool)
      requires Valid(View())
      modifies this, buffer
      ensures Outcome(View(), thrown) == Reserve(old(View()), n)
      ensures buffer == old(buffer) || fresh(buffer)
    {
      if n <= epptr - pptr {
        return false;
      }
      var pnext, pend := pptr, epptr;
      if gptr > 0 {
        pnext := pnext - gptr;
        MoveToFront();
      }
      if n > pend - pnext {
        if n <= maxSize && pnext <= maxSize - n {
          pend := pnext + n;
          Grow(Max(pend, 1));
        } else {
          return true;
        }
      }
      gptr, egptr := 0, pnext;
      pptr, epptr := pnext, pend;
      return false;
    }

    /** prepare, as far as it changes the buffer; the room returned is the start of the put area. */
    method PrepareRoom(n: nat) returns (thrown: bool)
      requires Valid(View())
      modifies this, buffer
      ensures Outcome(View(), thrown) == Reserve(old(View()), n)
      ensures Valid(View()) && (thrown <==> |old(Contents(View()))| + n > maxSize)
      ensures !thrown ==> Contents(View()) == old(Contents(View())) && n <= epptr - pptr
      ensures buffer == old(buffer) || fresh(buffer)
    {
      ReserveContract(View(), n);
      thrown := ReserveSpace(n);
    }

    /** The caller writes into the room it was given. */
    method WriteRoom(data: seq<Byte>)
      requires Valid(View()) && |data| <= epptr - pptr
      modifies buffer
      ensures View() == Fill(old(View()), data)
    {
      forall i | 0 <= i < |data| {
        buffer[pptr + i] := data[i];
      }
    }

    /** commit; the position is moved by an int, so by less than 2^31 (BumpIsExactIff). */
    method CommitRoom(n: nat)
      requires Valid(View()) && Min(n, epptr - pptr) < 0x8000_0000
      modifies this`pptr, this`egptr
      ensures View() == Commit(old(View()), n)
    {
      var m := Min(n, epptr - pptr);
      pptr := pptr + ToInt32(m);
      egptr := pptr;
    }

    method ConsumeBytes(n: nat)
      requires Valid(View()) && Min(n, pptr - gptr) < 0x8000_0000
      modifies this`gptr, this`egptr
      ensures View() == Consume(old(View()), n)
    {
      if egptr < pptr {
        egptr := pptr;
      }
      var m := n;
      if gptr + m > pptr {
        m := pptr - gptr;
      }
      gptr := gptr + ToInt32(m);
    }

    method UnderflowChar() returns (c: int)
      requires Valid(View())
      modifies this`egptr
      ensures (View(), c) == Underflow(old(View()))
    {
      if gptr < pptr {
        egptr := pptr;
        return buffer[gptr];
      }
      return EOF;
    }

    method OverflowChar(c: int) returns (thrown: bool, r: int)
      requires Valid(View())
      modifies this, buffer
      ensures Outcome(View(), thrown) == Overflow(old(View()), c)
      ensures !thrown ==> r == OverflowReturns(c)
      ensures buffer == old(buffer) || fresh(buffer)
    {
      if c == EOF {
        return false, 0;
      }
      r := c;
      MakeRoomContract(View());
      thrown := EnsureRoom();
      if !thrown {
        StoreChar(c);
      }
    }

    method EnsureRoom() returns (thrown: bool)
      requires Valid(View())
      modifies this, buffer
      ensures Outcome(View(), thrown) == MakeRoom(old(View()))
      ensures buffer == old(buffer) || fresh(buffer)
    {
      if pptr != epptr {
        return false;
      }
      var size := pptr - gptr;
      if size < maxSize && maxSize - size < DELTA {
        thrown := ReserveSpace(maxSize - size);
      } else {
        thrown := ReserveSpace(DELTA);
      }
    }

    method StoreChar(c: int)
      requires Valid(View()) && pptr < epptr
      modifies this`pptr, buffer
      ensures View() == PutChar(old(View()), c)
    {
      buffer[pptr] := ToChar(c);
      pptr := pptr + 1;
    }
  }
}
