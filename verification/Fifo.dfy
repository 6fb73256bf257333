/**
 The byte fifo of src/frontends/common/fifo.c: a buffer with two indices that at least doubles
 when it is full and is halved when at most a fourth of it is in use.
 */
module Fifo {

  const SIZE_MAX := 0xFFFF_FFFF_FFFF_FFFF
  const HALF_MAX := SIZE_MAX / 2

  // ------------------------------------------------------------------ indices alone

  /** lower, upper and capacity; `copied` counts the bytes that growing and halving have moved,
      taking a realloc to copy every byte that both sizes have in common. */
  datatype Shape = Shape(lower: nat, upper: nat, capacity: nat, copied: nat)

  predicate Valid(s: Shape) { s.lower <= s.upper <= s.capacity <= HALF_MAX }

  datatype Outcome = Done | Refused | AssertFails

  /** The capacity that fifo_write asks for; the product wraps around. */
  function Wanted(s: Shape, bytes: nat): nat { (s.upper + bytes) * 2 % (SIZE_MAX + 1) }

  /** fifo_write of so many bytes.  `memory` tells whether realloc succeeds. */
  function WriteShape(s: Shape, bytes: nat, memory: bool): (Shape, Outcome)
    requires Valid(s)
  {
    if s.upper + bytes <= s.capacity then (s.(upper := s.upper + bytes), Done)
    else if Wanted(s, bytes) > HALF_MAX || !memory then (s, Refused)
    else
      var kept := if Wanted(s, bytes) < s.capacity then Wanted(s, bytes) else s.capacity;
      var t := s.(capacity := Wanted(s, bytes), copied := s.copied + kept);
      if s.upper + bytes > t.capacity then (t, AssertFails) else (t.(upper := s.upper + bytes), Done)
  }

  /** halve_fifo */
  function HalveShape(s: Shape, memory: bool): Shape
    requires Valid(s)
  {
    if s.capacity < 8 then s
    else
      var len := s.upper - s.lower;
      var t := Shape(0, len, s.capacity, s.copied + len);
      if memory then t.(capacity := s.capacity / 2, copied := t.copied + s.capacity / 2) else t
  }

  /** fifo_read of up to so many bytes. */
  function ReadShape(s: Shape, bytes: nat, memory: bool): Shape
    requires Valid(s)
  {
    var len := s.upper - s.lower;
    if len == 0 then s
    else
      var n := if bytes > len then len else bytes;
      var t := s.(lower := s.lower + n);
      if len - n <= s.capacity / 4 then HalveShape(t, memory) else t
  }

  /** The last assert of fifo_write fails exactly when doubling has wrapped around: with at most
      half the address space in use and the bytes the caller may pass, this takes a fifo and a
      write of at least half the address space together. */
  lemma WriteAssertFailsIff(s: Shape, bytes: nat, memory: bool)
    requires Valid(s) && bytes < HALF_MAX
    ensures WriteShape(s, bytes, memory).1 == AssertFails <==>
            memory && s.upper + bytes > HALF_MAX && 2 * (s.upper + bytes) - (SIZE_MAX + 1) <= HALF_MAX
    ensures WriteShape(s, bytes, memory).1 != AssertFails ==> Valid(WriteShape(s, bytes, memory).0)
  {
  }

  /** The asserts of fifo_read and halve_fifo never fail: the new capacity holds what is left. */
  lemma ReadIsValid(s: Shape, bytes: nat, memory: bool)
    requires Valid(s)
    ensures Valid(ReadShape(s, bytes, memory))
    ensures var r := ReadShape(s, bytes, memory);
            r.upper - r.lower == s.upper - s.lower - if bytes > s.upper - s.lower then s.upper - s.lower else bytes
  {
  }

  // -------------------------------------------------------------- amortised cost

  /** What is set aside for later copying, in half bytes. */
  function Potential(s: Shape): nat {
    3 * s.capacity + if 2 * s.upper > s.capacity then 5 * (2 * s.upper - s.capacity) else 0
  }

  /** A write pays for its own growth and sets aside at most five bytes of copying per byte. */
  lemma WritePays(s: Shape, bytes: nat, memory: bool)
    requires Valid(s) && bytes < HALF_MAX && WriteShape(s, bytes, memory).1 != AssertFails
    ensures var (r, o) := WriteShape(s, bytes, memory);
            2 * r.copied + Potential(r) <= 2 * s.copied + Potential(s) + if o == Done then 10 * bytes else 0
  {
    WriteAssertFailsIff(s, bytes, memory);
  }

  /** A read never costs more than has been set aside, provided shrinking succeeds. */
  lemma ReadPays(s: Shape, bytes: nat)
    requires Valid(s)
    ensures var r := ReadShape(s, bytes, true);
            2 * r.copied + Potential(r) <= 2 * s.copied + Potential(s)
  {
  }

  // ------------------------------------------------------------------ whole runs

  datatype Op = Put(data: seq<int>, memory: bool) | Get(n: nat, memory: bool) | EraseTail(n: nat)

  /** The indices together with the bytes they delimit and everything read so far. */
  datatype Model = Model(shape: Shape, queue: seq<int>, read: seq<int>)

  const EMPTY := Model(Shape(0, 0, 0, 0), [], [])

  predicate ModelOk(m: Model) { Valid(m.shape) && |m.queue| == m.shape.upper - m.shape.lower }

  /** fifo_erase_tail */
  function EraseShape(s: Shape, n: nat): Shape
    requires Valid(s)
  {
    if s.upper - s.lower < n then s else s.(upper := s.upper - n)
  }

  /** A write that cannot make the doubling wrap around. */
  predicate Fits(m: Model, op: Op) { op.Put? ==> m.shape.upper + |op.data| <= HALF_MAX && |op.data| < HALF_MAX }

  function Do(m: Model, op: Op): (r: Model)
    requires ModelOk(m) && Fits(m, op)
    ensures ModelOk(r)
  {
    match op
    case Put(data, memory) =>
      WriteAssertFailsIff(m.shape, |data|, memory);
      var (s, o) := WriteShape(m.shape, |data|, memory);
      Model(s, if o == Done then m.queue + data else m.queue, m.read)
    case Get(n, memory) =>
      ReadIsValid(m.shape, n, memory);
      var k := if n > |m.queue| then |m.queue| else n;
      Model(ReadShape(m.shape, n, memory), m.queue[k..], m.read + m.queue[..k])
    case EraseTail(n) =>
      Model(EraseShape(m.shape, n), if n <= |m.queue| then m.queue[..|m.queue| - n] else m.queue, m.read)
  }

  predicate RunFits(m: Model, ops: seq<Op>)
    requires ModelOk(m)
    decreases |ops|
  {
    ops == [] || (Fits(m, ops[0]) && RunFits(Do(m, ops[0]), ops[1..]))
  }

  function Run(m: Model, ops: seq<Op>): (r: Model)
    requires ModelOk(m) && RunFits(m, ops)
    ensures ModelOk(r)
    decreases |ops|
  {
    if ops == [] then m else Run(Do(m, ops[0]), ops[1..])
  }

  /** The bytes of a write that is accepted. */
  function Accepted(m: Model, op: Op): seq<int>
    requires ModelOk(m)
  {
    if op.Put? && WriteShape(m.shape, |op.data|, op.memory).1 == Done then op.data else []
  }

  function Written(m: Model, ops: seq<Op>): seq<int>
    requires ModelOk(m) && RunFits(m, ops)
    decreases |ops|
  {
    if ops == [] then [] else Accepted(m, ops[0]) + Written(Do(m, ops[0]), ops[1..])
  }

  /** A tape with everything that was accepted and not erased again; the first `taken` bytes have
      been read. */
  datatype Tape = Tape(all: seq<int>, taken: nat)

  /** Writes go to the end of the tape, reads move on, erasures take back from the end what has not been
      read; nothing else ever happens to a byte. */
  function OnTape(t: Tape, op: Op, accepted: bool): (r: Tape)
    requires t.taken <= |t.all|
    ensures r.taken <= |r.all|
  {
    match op
    case Put(data, _) => if accepted then t.(all := t.all + data) else t
    case Get(n, _) => if n > |t.all| - t.taken then t.(taken := |t.all|) else t.(taken := t.taken + n)
    case EraseTail(n) => if n <= |t.all| - t.taken then t.(all := t.all[..|t.all| - n]) else t
  }

  /** Whether a write is accepted depends on the indices and on memory only. */
  function RunTape(m: Model, t: Tape, ops: seq<Op>): (r: Tape)
    requires ModelOk(m) && RunFits(m, ops) && t.taken <= |t.all|
    ensures r.taken <= |r.all|
    decreases |ops|
  {
    if ops == [] then t
    else
      var accepted := ops[0].Put? && WriteShape(m.shape, |ops[0].data|, ops[0].memory).1 == Done;
      RunTape(Do(m, ops[0]), OnTape(t, ops[0], accepted), ops[1..])
  }

  predicate OfTape(m: Model, t: Tape) {
    t.taken <= |t.all| && m.read == t.all[..t.taken] && m.queue == t.all[t.taken..]
  }

  /** First in, first out: over any run of writes, reads and erasures, what has been read is the front of
      the tape and what is queued is the rest of it. */
  lemma {:induction false} FirstInFirstOut(m: Model, t: Tape, ops: seq<Op>)
    requires ModelOk(m) && RunFits(m, ops) && OfTape(m, t)
    ensures OfTape(Run(m, ops), RunTape(m, t, ops))
    decreases |ops|
  {
    if ops != [] {
      var accepted := ops[0].Put? && WriteShape(m.shape, |ops[0].data|, ops[0].memory).1 == Done;
      DoOnTape(m, t, ops[0], accepted);
      hide Do, OnTape, OfTape, ModelOk, WriteShape;
      FirstInFirstOut(Do(m, ops[0]), OnTape(t, ops[0], accepted), ops[1..]);
    }
  }

  lemma DoOnTape(m: Model, t: Tape, op: Op, accepted: bool)
    requires ModelOk(m) && Fits(m, op) && OfTape(m, t)
    requires accepted <==> op.Put? && WriteShape(m.shape, |op.data|, op.memory).1 == Done
    ensures OfTape(Do(m, op), OnTape(t, op, accepted))
  {
    hide WriteShape, ReadShape, EraseShape;
    match op
    case Put(data, _) =>
      assert (t.all + data)[..t.taken] == t.all[..t.taken];
      assert (t.all + data)[t.taken..] == t.all[t.taken..] + data;
    case Get(n, _) =>
      var k := if n > |m.queue| then |m.queue| else n;
      assert t.all[..t.taken] + t.all[t.taken..][..k] == t.all[..t.taken + k];
      assert t.all[t.taken..][k..] == t.all[t.taken + k..];
    case EraseTail(n) =>
      if n <= |m.queue| {
        assert m.queue[..|m.queue| - n] == t.all[..|t.all| - n][t.taken..];
      }
  }

  /** Without erasures this comes to: what has been read and what is still queued is what was accepted,
      in order. */
  lemma {:induction false} NothingIsLost(m: Model, ops: seq<Op>)
    requires ModelOk(m) && RunFits(m, ops) && forall op :: op in ops ==> !op.EraseTail?
    ensures var r := Run(m, ops);
            r.read + r.queue == m.read + m.queue + Written(m, ops)
    decreases |ops|
  {
    if ops != [] {
      OneInOneOut(m, ops[0]);
      RunUnfolds(m, ops);
      hide *;
      var d := Do(m, ops[0]);
      NothingIsLost(d, ops[1..]);
      Regroup(m.read + m.queue, Accepted(m, ops[0]), Written(d, ops[1..]));
    }
  }

  lemma RunUnfolds(m: Model, ops: seq<Op>)
    requires ModelOk(m) && RunFits(m, ops) && ops != []
    ensures Fits(m, ops[0]) && RunFits(Do(m, ops[0]), ops[1..]) && Run(m, ops) == Run(Do(m, ops[0]), ops[1..])
    ensures Written(m, ops) == Accepted(m, ops[0]) + Written(Do(m, ops[0]), ops[1..])
  {
    hide Do, Accepted;
  }

  lemma Regroup(a: seq<int>, b: seq<int>, c: seq<int>)
    ensures (a + b) + c == a + (b + c)
  {
  }

  lemma OneInOneOut(m: Model, op: Op)
    requires ModelOk(m) && Fits(m, op) && !op.EraseTail?
    ensures Do(m, op).read + Do(m, op).queue == m.read + m.queue + Accepted(m, op)
  {
    hide WriteShape, ReadShape;
  }

  /** Erasing right after a write takes back the newest bytes. */
  lemma EraseUndoesWrite(m: Model, data: seq<int>, memory: bool)
    requires ModelOk(m) && Fits(m, Put(data, memory)) && WriteShape(m.shape, |data|, memory).1 == Done
    ensures var w := Do(m, Put(data, memory));
            Do(w, EraseTail(|data|)).queue == m.queue && Do(w, EraseTail(|data|)).read == m.read
  {
    assert (m.queue + data)[..|m.queue|] == m.queue;
  }

  /** Amortised linear time: in any run of writes, reads and erasures in which shrinking succeeds,
      growing and halving copy at most five bytes per byte written. */
  lemma {:induction false} CopyingIsLinear(m: Model, ops: seq<Op>)
    requires ModelOk(m) && RunFits(m, ops) && forall op :: op in ops ==> op.Get? ==> op.memory
    ensures 2 * Run(m, ops).shape.copied + Potential(Run(m, ops).shape)
            <= 2 * m.shape.copied + Potential(m.shape) + 10 * |Written(m, ops)|
    decreases |ops|
  {
    hide Potential, Do, Accepted;
    if ops != [] {
      DoPays(m, ops[0]);
      CopyingIsLinear(Do(m, ops[0]), ops[1..]);
    }
  }

  lemma DoPays(m: Model, op: Op)
    requires ModelOk(m) && Fits(m, op) && (op.Get? ==> op.memory)
    ensures var r := Do(m, op);
            2 * r.shape.copied + Potential(r.shape) <= 2 * m.shape.copied + Potential(m.shape) + 10 * |Accepted(m, op)|
  {
    if op.Put? {
      WriteAssertFailsIff(m.shape, |op.data|, op.memory);
      hide Potential, WriteShape;
      WritePays(m.shape, |op.data|, op.memory);
    } else if op.Get? {
      hide Potential, ReadShape;
      ReadPays(m.shape, op.n);
    }
  }

  lemma CopyingFromEmpty(ops: seq<Op>)
    requires RunFits(EMPTY, ops) && forall op :: op in ops ==> op.Get? ==> op.memory
    ensures Run(EMPTY, ops).shape.copied <= 5 * |Written(EMPTY, ops)|
  {
    CopyingIsLinear(EMPTY, ops);
  }

  /** k reads of one byte each with no memory for shrinking. */
  function Drain(s: Shape, k: nat): (r: Shape)
    requires Valid(s)
    ensures Valid(r)
  {
    if k == 0 then s
    else
      ReadIsValid(Drain(s, k - 1), 1, false);
      ReadShape(Drain(s, k - 1), 1, false)
  }

  /** The proviso is needed: when realloc refuses to shrink, emptying a fifo byte by byte moves all
      the remaining bytes each time. */
  lemma {:induction false} FailedShrinkingIsQuadratic(s: Shape, k: nat)
    requires Valid(s) && s.lower == 0 && s.capacity >= 8 && 4 * s.upper <= s.capacity && k <= s.upper
    ensures var r := Drain(s, k);
            && r.lower == 0 && r.upper == s.upper - k && r.capacity == s.capacity
            && 2 * r.copied == 2 * s.copied + k * (2 * s.upper - k - 1)
  {
    if k > 0 {
      FailedShrinkingIsQuadratic(s, k - 1);
      var len := s.upper - k;
      assert k * (2 * s.upper - k - 1) == (k - 1) * (2 * s.upper - (k - 1) - 1) + 2 * len by {
        Telescope(s.upper, k);
      }
    }
  }

  lemma Telescope(u: nat, k: nat)
    ensures k * (2 * u - k - 1) == (k - 1) * (2 * u - (k - 1) - 1) + 2 * (u - k)
  {
  }

  // ------------------------------------------------------- the code, step by step

  /** struct fifo */
  class Buffer {
    var buf: array<int>
    var lower: nat
    var upper: nat
    ghost var copied: nat

    ghost function S(): Shape
      reads this
    {
      Shape(lower, upper, buf.Length, copied)
    }

    ghost predicate Ok()
      reads this
    {
      Valid(S())
    }

    /** The bytes in the fifo, oldest first. */
    ghost function Contents(): seq<int>
      requires Ok()
      reads this, buf
    {
      buf[lower..upper]
    }

    /** fifo_create */
    constructor ()
      ensures Ok() && Contents() == [] && S() == Shape(0, 0, 0, 0) && fresh(buf)
    {
      buf := new int[0];
      lower, upper, copied := 0, 0, 0;
    }

    /** realloc when it succeeds: a new buffer with as much of the old one as fits. */
    method Resize(capacity: nat)
      requires capacity <= HALF_MAX
      modifies `buf, `copied
      ensures fresh(buf) && buf.Length == capacity
      ensures copied == old(copied) + if capacity < old(buf.Length) then capacity else old(buf.Length)
      ensures forall i :: 0 <= i < capacity && i < old(buf.Length) ==> buf[i] == old(buf[i])
    {
      var n := if capacity < buf.Length then capacity else buf.Length;
      var newbuf := new int[capacity];
      var i := 0;
      while i < n
        invariant 0 <= i <= n
        invariant forall k :: 0 <= k < i ==> newbuf[k] == old(buf[k])
        invariant unchanged(this) && unchanged(buf)
      {
        newbuf[i] := buf[i];
        i := i + 1;
      }
      buf := newbuf;
      copied := copied + n;
    }

    /** fifo_write */
    method Write(data: seq<int>, memory: bool) returns (r: Outcome)
      requires Ok() && |data| < HALF_MAX
      modifies this, buf
      ensures S() == WriteShape(old(S()), |data|, memory).0 && r == WriteShape(old(S()), |data|, memory).1
      ensures buf == old(buf) || fresh(buf)
      ensures r != AssertFails ==> Ok() && Contents() == if r == Done then old(Contents()) + data else old(Contents())
    {
      if upper + |data| > buf.Length {
        var newcapacity := (upper + |data|) * 2 % (SIZE_MAX + 1);
        if newcapacity > HALF_MAX {
          return Refused;
        }
        if !memory {
          return Refused;
        }
        Resize(newcapacity);
      }
      if upper + |data| > buf.Length {
        return AssertFails;
      }
      assert buf[lower..upper] == old(buf[lower..upper]);
      Copy(data);
      upper := upper + |data|;
      return Done;
    }

    /** memcpy behind the last byte. */
    method Copy(data: seq<int>)
      requires lower <= upper && upper + |data| <= buf.Length
      modifies buf
      ensures buf[lower..upper + |data|] == old(buf[lower..upper]) + data
    {
      var i := 0;
      while i < |data|
        invariant 0 <= i <= |data|
        invariant forall k :: lower <= k < upper ==> buf[k] == old(buf[k])
        invariant forall k :: upper <= k < upper + i ==> buf[k] == data[k - upper]
      {
        buf[upper + i] := data[i];
        i := i + 1;
      }
    }

    /** halve_fifo */
    method Halve(memory: bool)
      requires Ok() && upper - lower <= buf.Length / 4
      modifies this, buf
      ensures Ok() && S() == HalveShape(old(S()), memory) && Contents() == old(Contents())
      ensures buf == old(buf) || fresh(buf)
    {
      if buf.Length < 8 {
        return;
      }
      var len := upper - lower;
      MoveDown(len);
      copied := copied + len;
      lower, upper := 0, len;
      assert Contents() == old(Contents());
      if memory {
        Resize(buf.Length / 2);
        assert buf[0..len] == old(Contents());
      }
    }

    /** memmove to the start of the buffer; source and destination may overlap. */
    method MoveDown(len: nat)
      requires lower + len <= buf.Length
      modifies buf
      ensures buf[0..len] == old(buf[lower..lower + len])
    {
      ghost var was := buf[lower..lower + len];
      var i := 0;
      while i < len
        invariant 0 <= i <= len
        invariant forall k :: 0 <= k < i ==> buf[k] == was[k]
        invariant forall k :: i <= k < len ==> buf[lower + k] == was[k]
      {
        buf[i] := buf[lower + i];
        i := i + 1;
      }
    }

    /** fifo_read */
    method Read(bytes: nat, memory: bool) returns (data: seq<int>)
      requires Ok()
      modifies this, buf
      ensures Ok() && S() == ReadShape(old(S()), bytes, memory)
      ensures buf == old(buf) || fresh(buf)
      ensures var n := if bytes > |old(Contents())| then |old(Contents())| else bytes;
              data == old(Contents())[..n] && Contents() == old(Contents())[n..]
    {
      var len := upper - lower;
      if len == 0 {
        return [];
      }
      var n := if bytes > len then len else bytes;
      data := buf[lower..lower + n];
      assert data == old(Contents())[..n];
      lower := lower + n;
      assert Contents() == old(Contents())[n..];
      if upper - lower <= buf.Length / 4 {
        Halve(memory);
      }
    }

    /** fifo_erase_tail */
    method Erase(bytes: nat) returns (ok: bool)
      requires Ok()
      modifies `upper
      ensures Ok() && S() == EraseShape(old(S()), bytes) && ok == (bytes <= |old(Contents())|)
      ensures Contents() == if ok then old(Contents())[..|old(Contents())| - bytes] else old(Contents())
    {
      if upper - lower < bytes {
        return false;
      }
      upper := upper - bytes;
      return true;
    }

    /** One operation of a run: the buffer does what the sequence-level queue does. */
    method Step(op: Op, ghost m: Model) returns (out: seq<int>)
      requires Ok() && ModelOk(m) && m.shape == S() && m.queue == Contents() && Fits(m, op)
      modifies this, buf
      ensures Ok() && (buf == old(buf) || fresh(buf))
      ensures var r := Do(m, op); r.shape == S() && r.queue == Contents() && r.read == m.read + out
    {
      hide HalveShape, Valid;
      out := [];
      match op {
        case Put(data, memory) =>
          WriteAssertFailsIff(m.shape, |data|, memory);
          hide WriteShape;
          var o := Write(data, memory);
        case Get(n, memory) =>
          hide ReadShape;
          out := Read(n, memory);
        case EraseTail(n) =>
          hide EraseShape;
          var ok := Erase(n);
      }
    }

    /** A whole run: what is read and what is left in the buffer is what the tape says. */
    method RunAll(ops: seq<Op>) returns (out: seq<int>)
      requires Ok() && RunFits(Model(S(), Contents(), []), ops)
      modifies this, buf
      ensures Ok() && (buf == old(buf) || fresh(buf))
      ensures var t := RunTape(old(Model(S(), Contents(), [])), Tape(old(Contents()), 0), ops);
              out == t.all[..t.taken] && Contents() == t.all[t.taken..]
      ensures S() == Run(old(Model(S(), Contents(), [])), ops).shape
    {
      hide Do, OfTape;
      ghost var start := Model(S(), Contents(), []);
      ghost var m := start;
      out := [];
      var i := 0;
      assert ops[0..] == ops;
      while i < |ops|
        invariant 0 <= i <= |ops| && Ok() && (buf == old(buf) || fresh(buf))
        invariant ModelOk(m) && m.shape == S() && m.queue == Contents() && m.read == out
        invariant RunFits(m, ops[i..]) && Run(m, ops[i..]) == Run(start, ops)
      {
        assert ops[i..][0] == ops[i] && ops[i..][1..] == ops[i + 1..];
        var more := Step(ops[i], m);
        m := Do(m, ops[i]);
        out := out + more;
        i := i + 1;
      }
      assert m == Run(start, ops);
      AllOnTape(start, ops);
    }
  }

  lemma AllOnTape(m: Model, ops: seq<Op>)
    requires ModelOk(m) && RunFits(m, ops) && m.read == []
    ensures var r, t := Run(m, ops), RunTape(m, Tape(m.queue, 0), ops);
            r.read == t.all[..t.taken] && r.queue == t.all[t.taken..]
  {
    assert m.queue[..0] == [] && m.queue[0..] == m.queue;
    FirstInFirstOut(m, Tape(m.queue, 0), ops);
  }

  /** A write that does not fit makes room for twice what is then there; a read gives half of the room back when at most
      a quarter of at least eight bytes is left in use. */
  lemma CapacityChanges(s: Shape, bytes: nat, memory: bool)
    requires Valid(s)
    ensures var w := WriteShape(s, bytes, memory).0;
            && (s.upper + bytes <= s.capacity ==> w.capacity == s.capacity)
            && (s.upper + bytes > s.capacity && memory && 2 * (s.upper + bytes) <= 0x7FFF_FFFF_FFFF_FFFF ==>
                  w.capacity == 2 * (s.upper + bytes) && WriteShape(s, bytes, memory).1 == Done)
            && (s.upper + bytes > s.capacity && !memory ==> w == s)
    ensures var r, rest := ReadShape(s, bytes, memory), if bytes > s.upper - s.lower then 0 else s.upper - s.lower - bytes;
            r.capacity == if memory && s.capacity >= 8 && s.lower < s.upper && rest <= s.capacity / 4
                          then s.capacity / 2 else s.capacity
  {
  }
}
