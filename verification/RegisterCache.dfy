/**
 The register cache of src/compiler.c: 68k registers live in x86 registers with lazy byte order and
 lazy constant offsets.  The compile-time tables (struct register_mapping) and the run-time effect of
 the emitted x86 instructions are kept side by side, so that "the value a 68k register has for the
 program" can be stated.  MOVE.L is modelled down to the choice of registers, because there the
 byte orders meet.
 */
module RegisterCache {

  // --------------------------------------------------------------- 32-bit words

  type Byte = b: int | 0 <= b < 256

  /** A 32-bit word as its four bytes, most significant first. */
  datatype Word = Word(b3: Byte, b2: Byte, b1: Byte, b0: Byte)

  const ZERO := Word(0, 0, 0, 0)
  const WRAP := 0x1_0000_0000

  function ToInt(w: Word): (n: int)
    ensures 0 <= n < WRAP
  {
    w.b3 * 0x100_0000 + w.b2 * 0x1_0000 + w.b1 * 0x100 + w.b0
  }

  lemma LastDigit(a: int, b: int, c: Byte, d: Byte)
    requires 256 * a + c == 256 * b + d
    ensures a == b && c == d
  {
  }

  lemma ToIntInjective(v: Word, w: Word)
    requires ToInt(v) == ToInt(w)
    ensures v == w
  {
    LastDigit((v.b3 * 256 + v.b2) * 256 + v.b1, (w.b3 * 256 + w.b2) * 256 + w.b1, v.b0, w.b0);
    LastDigit(v.b3 * 256 + v.b2, w.b3 * 256 + w.b2, v.b1, w.b1);
    LastDigit(v.b3, w.b3, v.b2, w.b2);
  }

  function Low(s: int): (b: Byte)
    requires 0 <= s < 512
  {
    if s < 256 then s else s - 256
  }

  function Carry(s: int): (c: int)
    requires 0 <= s < 512
    ensures 0 <= c <= 1
  {
    if s < 256 then 0 else 1
  }

  /** Addition byte by byte; like C and the x86 it wraps around. */
  function Add(v: Word, w: Word): Word {
    var s0 := v.b0 + w.b0;
    var s1 := v.b1 + w.b1 + Carry(s0);
    var s2 := v.b2 + w.b2 + Carry(s1);
    var s3 := v.b3 + w.b3 + Carry(s2);
    Word(Low(s3), Low(s2), Low(s1), Low(s0))
  }

  /** Two's complement. */
  function Neg(v: Word): Word {
    Add(Word(255 - v.b3, 255 - v.b2, 255 - v.b1, 255 - v.b0), Word(0, 0, 0, 1))
  }

  function Sub(v: Word, w: Word): Word {
    Add(v, Neg(w))
  }

  lemma AddIsModular(v: Word, w: Word)
    ensures IsSum(ToInt(Add(v, w)), ToInt(v), ToInt(w))
  {
  }

  lemma NegIsModular(v: Word)
    ensures ToInt(Neg(v)) == if v == ZERO then 0 else WRAP - ToInt(v)
  {
    AddIsModular(Word(255 - v.b3, 255 - v.b2, 255 - v.b1, 255 - v.b0), Word(0, 0, 0, 1));
  }

  lemma AddZero(v: Word)
    ensures Add(v, ZERO) == v
  {
  }

  ghost predicate IsSum(r: int, v: int, w: int) {
    r == if v + w < WRAP then v + w else v + w - WRAP
  }

  lemma SumsAgree(v: int, o: int, n: int, p: int, vo: int, pn: int, l: int, r: int)
    requires 0 <= v < WRAP && 0 <= o < WRAP && 0 <= p < WRAP
    requires n == if o == 0 then 0 else WRAP - o
    requires IsSum(vo, v, o) && IsSum(pn, p, n) && IsSum(l, vo, pn) && IsSum(r, v, p)
    ensures l == r
  {
  }

  /** Adding to the register what is taken from the offset leaves the sum alone. */
  lemma AddSubCancels(v: Word, offset: Word, pending: Word)
    ensures Add(Add(v, offset), Sub(pending, offset)) == Add(v, pending)
  {
    var vo, n := Add(v, offset), Neg(offset);
    var pn := Add(pending, n);
    AddIsModular(v, offset);
    NegIsModular(offset);
    AddIsModular(pending, n);
    AddIsModular(vo, pn);
    AddIsModular(v, pending);
    SumsAgree(ToInt(v), ToInt(offset), ToInt(n), ToInt(pending), ToInt(vo), ToInt(pn),
              ToInt(Add(vo, pn)), ToInt(Add(v, pending)));
    ToIntInjective(Add(vo, pn), Add(v, pending));
  }

  /** lea with the negated offset undoes lea with the offset. */
  lemma AddNegCancels(v: Word, offset: Word)
    ensures Add(Add(v, offset), Sub(ZERO, offset)) == v
  {
    AddSubCancels(v, offset, ZERO);
    AddZero(v);
  }

  // ---------------------------------------------------------------- byte order

  const BO_NORMAL := 0
  const BO_SWAPPED_LONG := 1
  const BO_SWAPPED_WORD := 2

  /** The x86 registers are numbered 0..7; masks of registers are sets here. */
  const R_ESP := 4
  function AddressRegs(): set<int> { {5, 6, 7} }
  function AllRegs(): set<int> { {0, 1, 2, 3, 4, 5, 6, 7} }

  /** No preference means all registers. */
  function Preferred(preferred: set<int>): set<int> { if preferred == {} then AllRegs() else preferred }

  lemma Preferences()
    ensures Preferred({}) == AllRegs() && Preferred(AddressRegs()) == AddressRegs()
  {
    assert 5 in AddressRegs();
  }

  /** bswapl */
  function SwapLong(v: Word): Word { Word(v.b0, v.b1, v.b2, v.b3) }

  /** rolw $8 */
  function SwapWord(v: Word): Word { Word(v.b3, v.b2, v.b0, v.b1) }

  /** Swapping according to a byte-order tag; each swap is its own inverse. */
  function Swap(v: Word, order: int): (w: Word)
    ensures order == BO_NORMAL ==> w == v
  {
    if order == BO_SWAPPED_LONG then SwapLong(v)
    else if order == BO_SWAPPED_WORD then SwapWord(v)
    else v
  }

  // ------------------------------------------------------------ the whole state

  /** The compile-time tables, and the x86 registers and 68k home slots (D0..D7, A0..A7)
      that the emitted instructions work on. */
  datatype Tables = Tables(
    dregMap: seq<int>, aregMap: seq<int>,
    constOffset: seq<Word>, dirty: seq<bool>, cacheReg: seq<int>, crData: seq<bool>,
    locked: seq<int>, users: seq<int>, byteOrder: seq<int>,
    x86: seq<Word>, home: seq<Word>)

  ghost predicate Shape(t: Tables) {
    && |t.dregMap| == 8 && |t.aregMap| == 8 && |t.constOffset| == 8 && |t.dirty| == 8
    && |t.cacheReg| == 8 && |t.crData| == 8 && |t.locked| == 8 && |t.users| == 8
    && |t.byteOrder| == 8 && |t.x86| == 8 && |t.home| == 16
    && (forall x :: 0 <= x < 8 ==> 0 <= t.byteOrder[x] <= 2)
    && (forall x :: 0 <= x < 8 ==> -1 <= t.cacheReg[x] < 8)
    && t.cacheReg[R_ESP] == -1
  }

  /** The place of a 68k register in regs.regs: D0..D7, then A0..A7. */
  function Slot(isData: bool, reg: int): (s: int)
    requires 0 <= reg < 8
    ensures 0 <= s < 16 && s % 8 == reg && (s < 8 <==> isData)
  {
    if isData then reg else 8 + reg
  }

  /** The x86 register caching the 68k register with home slot s, or -1. */
  ghost function MapOf(t: Tables, s: int): int
    requires Shape(t) && 0 <= s < 16
  {
    if s < 8 then t.dregMap[s] else t.aregMap[s - 8]
  }

  /** The home slot of the 68k register cached in x, or -1. */
  ghost function SlotOf(t: Tables, x: int): (s: int)
    requires Shape(t) && 0 <= x < 8
    ensures -1 <= s < 16
  {
    if t.cacheReg[x] == -1 then -1 else if t.crData[x] then t.cacheReg[x] else 8 + t.cacheReg[x]
  }

  /** The two maps are inverse to each other on mapped registers. */
  ghost predicate Inverse(t: Tables)
    requires Shape(t)
  {
    && (forall x :: 0 <= x < 8 && SlotOf(t, x) != -1 ==> MapOf(t, SlotOf(t, x)) == x)
    && (forall s :: 0 <= s < 16 && MapOf(t, s) != -1 ==> 0 <= MapOf(t, s) < 8 && SlotOf(t, MapOf(t, s)) == s)
  }

  /** A clean cached register, whatever its byte order, stands for the number in its home
      slot, apart from the constant offset that has not been added yet. */
  ghost predicate CleanMeansHome(t: Tables)
    requires Shape(t)
  {
    forall x :: 0 <= x < 8 && SlotOf(t, x) != -1 && !t.dirty[x] ==>
      t.home[SlotOf(t, x)] == Plain(t, x)
  }

  /** A locked register has a user, so it is never handed out as free; r_ESP always has one. */
  ghost predicate LocksHaveUsers(t: Tables)
    requires Shape(t)
  {
    && (forall x :: 0 <= x < 8 ==> 0 <= t.users[x] && 0 <= t.locked[x] <= 2 && (t.locked[x] != 0 ==> t.users[x] > 0))
    && t.users[R_ESP] > 0
  }

  ghost predicate Valid(t: Tables) {
    Shape(t) && Inverse(t) && CleanMeansHome(t) && LocksHaveUsers(t)
  }

  /** The content of an x86 register in 68k terms, without the pending offset. */
  ghost function Plain(t: Tables, x: int): Word
    requires Shape(t) && 0 <= x < 8
  {
    Swap(t.x86[x], t.byteOrder[x])
  }

  /** The value a 68k register has for the program. */
  ghost function Logical(t: Tables, s: int): Word
    requires Shape(t) && Inverse(t) && 0 <= s < 16
  {
    var x := MapOf(t, s);
    if x == -1 then t.home[s] else Add(Plain(t, x), t.constOffset[x])
  }

  /** All sixteen logical values. */
  ghost function Values(t: Tables): (v: seq<Word>)
    requires Shape(t) && Inverse(t)
    ensures |v| == 16
  {
    seq(16, s requires 0 <= s < 16 => Logical(t, s))
  }

  // ---------------------------------------------------------------------- memory

  /** RAM by address; what is not listed reads as zero. */
  type Memory = map<int, Byte>

  function Address(a: Word, k: nat): int { (ToInt(a) + k) % WRAP }

  function ByteAt(mem: Memory, a: Word, k: nat): Byte {
    if Address(a, k) in mem then mem[Address(a, k)] else 0
  }

  /** A long as the 68k reads it: the most significant byte first. */
  function GetLong(mem: Memory, a: Word): Word {
    Word(ByteAt(mem, a, 0), ByteAt(mem, a, 1), ByteAt(mem, a, 2), ByteAt(mem, a, 3))
  }

  function PutLong(mem: Memory, a: Word, v: Word): Memory {
    mem[Address(a, 0) := v.b3][Address(a, 1) := v.b2][Address(a, 2) := v.b1][Address(a, 3) := v.b0]
  }

  /** movl from memory: the x86 reads the least significant byte first. */
  function Load32(mem: Memory, a: Word): Word {
    Word(ByteAt(mem, a, 3), ByteAt(mem, a, 2), ByteAt(mem, a, 1), ByteAt(mem, a, 0))
  }

  /** movl to memory */
  function Store32(mem: Memory, a: Word, v: Word): Memory {
    mem[Address(a, 0) := v.b0][Address(a, 1) := v.b1][Address(a, 2) := v.b2][Address(a, 3) := v.b3]
  }

  /** Swapping on one side only is what the byte order of the 68k needs. */
  lemma SwappedAccess(mem: Memory, a: Word, v: Word)
    ensures SwapLong(Load32(mem, a)) == GetLong(mem, a)
    ensures Store32(mem, a, SwapLong(v)) == PutLong(mem, a, v)
    ensures SwapLong(SwapLong(v)) == v
  {
  }

  /** A long in memory: four bytes at consecutive addresses, which wrap around at 2^32, the most significant
      one first. */
  lemma LongInMemory(mem: Memory, a: Word, v: Word)
    ensures var m, at := PutLong(mem, a, v), ToInt(a);
            var b1, b2, b3 := (at + 1) % 0x1_0000_0000, (at + 2) % 0x1_0000_0000, (at + 3) % 0x1_0000_0000;
            && m.Keys == mem.Keys + {at, b1, b2, b3}
            && m[at] == v.b3 && m[b1] == v.b2 && m[b2] == v.b1 && m[b3] == v.b0
            && (forall i :: i in mem && i !in {at, b1, b2, b3} ==> m[i] == mem[i])
            && GetLong(m, a) == v
    ensures ToInt(v) == 0x100_0000 * v.b3 + 0x1_0000 * v.b2 + 0x100 * v.b1 + v.b0
  {
    Apart(ToInt(a));
    Weights(v);
    Addresses(a);
    hide ToInt, Address;
  }

  lemma Addresses(a: Word)
    ensures Address(a, 0) == ToInt(a) && Address(a, 1) == (ToInt(a) + 1) % WRAP
    ensures Address(a, 2) == (ToInt(a) + 2) % WRAP && Address(a, 3) == (ToInt(a) + 3) % WRAP
  {
    Apart(ToInt(a));
    hide ToInt;
  }

  lemma Weights(v: Word)
    ensures ToInt(v) == 0x100_0000 * v.b3 + 0x1_0000 * v.b2 + 0x100 * v.b1 + v.b0
  {
  }

  lemma Apart(at: nat)
    requires at < WRAP
    ensures var b1, b2, b3 := (at + 1) % WRAP, (at + 2) % WRAP, (at + 3) % WRAP;
            at % WRAP == at && at != b1 && at != b2 && at != b3 && b1 != b2 && b1 != b3 && b2 != b3
  {
  }

  /** The byte orders: a swapped long has its bytes in the opposite order, a swapped word its two low ones. */
  lemma SwapsAre(v: Word)
    ensures Swap(v, 0) == v && Swap(v, 1) == Word(v.b0, v.b1, v.b2, v.b3) && Swap(v, 2) == Word(v.b3, v.b2, v.b0, v.b1)
    ensures SwapLong(v) == Swap(v, 1)
  {
  }

  /** struct register_mapping, with the registers, home slots and memory that the emitted code works on. */
  class RegisterMapping {
    var t: Tables
    var mem: Memory

    /** The tables as m68k_compile_block sets them up (r_ESP is never available). */
    constructor (home0: seq<Word>, x860: seq<Word>, mem0: Memory)
      requires |home0| == 16 && |x860| == 8
      ensures Valid(t) && Values(t) == home0 && mem == mem0
      ensures Fresh(t) && forall x :: 0 <= x < 8 ==> t.cacheReg[x] == -1
    {
      t := Tables(seq(8, _ => -1), seq(8, _ => -1), seq(8, _ => ZERO), seq(8, _ => false),
                  seq(8, _ => -1), seq(8, _ => false),
                  seq(8, i => if i == R_ESP then 2 else 0), seq(8, i => if i == R_ESP then 1 else 0),
                  seq(8, _ => BO_NORMAL), x860, home0);
      mem := mem0;
    }

    /** compile_force_byteorder: re-swaps a register to the wanted byte order. */
    method ForceByteOrder(x: int, desired: int)
      requires Shape(t) && -2 <= x < 8 && 0 <= desired <= 2
      modifies this`t
      ensures t == old(t).(x86 := t.x86, byteOrder := t.byteOrder) && Shape(t)
      ensures x < 0 ==> t == old(t)
      ensures x >= 0 ==> t.x86 == old(t.x86)[x := t.x86[x]] && t.byteOrder == old(t.byteOrder)[x := desired]
      ensures x >= 0 ==> Plain(t, x) == Plain(old(t), x)
    {
      if x < 0 || t.byteOrder[x] == desired { return; }
      if t.byteOrder[x] == BO_SWAPPED_LONG {
        t := t.(x86 := t.x86[x := SwapLong(t.x86[x])]);
      } else if t.byteOrder[x] == BO_SWAPPED_WORD {
        t := t.(x86 := t.x86[x := SwapWord(t.x86[x])]);
      }
      if desired == BO_SWAPPED_LONG {
        t := t.(x86 := t.x86[x := SwapLong(t.x86[x])]);
      } else if desired == BO_SWAPPED_WORD {
        t := t.(x86 := t.x86[x := SwapWord(t.x86[x])]);
      }
      t := t.(byteOrder := t.byteOrder[x := desired]);
    }

    /** The same in a consistent state: no number changes. */
    method Reorder(x: int, desired: int)
      requires Valid(t) && 0 <= x < 8 && 0 <= desired <= 2
      modifies this`t
      ensures Valid(t) && Values(t) == Values(old(t)) && t.byteOrder[x] == desired
      ensures t == old(t).(x86 := old(t.x86)[x := t.x86[x]], byteOrder := old(t.byteOrder)[x := desired])
      ensures forall y :: 0 <= y < 8 ==> Plain(t, y) == Plain(old(t), y)
      ensures BookOf(t) == Ordered(BookOf(old(t)), x, desired)
    {
      ForceByteOrder(x, desired);
      ForceKeeps(old(t), t, x);
      OrderedBook(old(t), t, x);
      hide BookOf, Ordered;
    }

    /** compile_lea_reg_with_offset */
    method Lea(dst: int, src: int, offset: Word)
      requires Shape(t) && 0 <= dst < 8 && 0 <= src < 8
      modifies this`t
      ensures t == old(t).(x86 := old(t.x86)[dst := Add(old(t.x86[src]), offset)]) && Shape(t)
    {
      t := t.(x86 := t.x86[dst := Add(t.x86[src], offset)]);
    }

    /** compile_offset_reg: adds a constant to an x86 register; if the register caches a
        68k register the pending offset absorbs the change. */
    method OffsetReg(x: int, offset: Word)
      requires Valid(t) && -2 <= x < 8
      modifies this`t
      ensures t == old(t).(constOffset := t.constOffset, dirty := t.dirty, byteOrder := t.byteOrder, x86 := t.x86)
      ensures Valid(t) && Values(t) == Values(old(t))
      ensures x >= 0 ==> Plain(t, x) == Add(Plain(old(t), x), offset)
      ensures forall y :: 0 <= y < 8 && y != x ==> Plain(t, y) == Plain(old(t), y)
    {
      hide Add;
      if offset == ZERO || x == -1 || x == -2 {
        if x >= 0 { AddZero(Plain(t, x)); }
        return;
      }
      ForceByteOrder(x, BO_NORMAL);
      if t.cacheReg[x] != -1 {
        t := t.(constOffset := t.constOffset[x := Sub(t.constOffset[x], offset)]);
        t := t.(dirty := t.dirty[x := true]);
      }
      Lea(x, x, offset);
      OffsetKeeps(old(t), t, x, offset);
    }

    /** get_unused_x86_register: the first register that neither caches nor is in use. */
    method GetUnused() returns (x: int)
      requires Shape(t)
      modifies this`t
      ensures t == old(t).(byteOrder := t.byteOrder)
      ensures -1 <= x < 8
      ensures x == -1 ==> t == old(t) && forall y :: 0 <= y < 8 ==> t.cacheReg[y] != -1 || t.users[y] > 0
      ensures x >= 0 ==> t == old(t).(byteOrder := old(t.byteOrder)[x := BO_NORMAL])
                         && t.cacheReg[x] == -1 && t.users[x] <= 0
                         && forall y :: 0 <= y < x ==> t.cacheReg[y] != -1 || t.users[y] > 0
    {
      x := 0;
      while x < 8
        invariant 0 <= x <= 8
        invariant forall y :: 0 <= y < x ==> t.cacheReg[y] != -1 || t.users[y] > 0
      {
        if t.cacheReg[x] == -1 && t.users[x] <= 0 {
          t := t.(byteOrder := t.byteOrder[x := BO_NORMAL]);
          return;
        }
        x := x + 1;
      }
      x := -1;
    }

    /** sync_reg: writes a cached value to its home slot when that is out of date.  With
        mayClobber the offset is added to the register itself, otherwise the register keeps
        its value and a spare register, if there is one, carries the sum. */
    method SyncReg(x: int, slot: int, offset: Word, isDirty: bool, mayClobber: bool)
      requires Shape(t) && 0 <= x < 8 && 0 <= slot < 16 && t.cacheReg[x] != -1
      requires isDirty || t.home[slot] == Plain(t, x)
      modifies this`t
      ensures t == old(t).(x86 := t.x86, byteOrder := t.byteOrder, home := t.home) && Shape(t)
      ensures t.home == old(t.home)[slot := Add(Plain(old(t), x), offset)]
      ensures Plain(t, x) == if mayClobber then Add(Plain(old(t), x), offset) else Plain(old(t), x)
      ensures if isDirty || offset != ZERO then t.byteOrder[x] == BO_NORMAL
              else t.x86[x] == old(t.x86[x]) && t.byteOrder[x] == old(t.byteOrder[x])
      ensures forall y :: 0 <= y < 8 && y != x && (mayClobber || t.cacheReg[y] != -1 || t.users[y] > 0) ==>
                t.x86[y] == old(t.x86[y]) && t.byteOrder[y] == old(t.byteOrder[y])
    {
      hide Add;
      AddZero(Plain(t, x));
      var dst := x;
      var store := isDirty;
      if isDirty || offset != ZERO {
        ForceByteOrder(x, BO_NORMAL);
      }
      if offset != ZERO {
        if mayClobber {
          Lea(x, x, offset);
          store := true;
        } else {
          var tmp := GetUnused();
          if tmp != -1 {
            Lea(tmp, x, offset);
            dst := tmp;
            store := true;
          } else {
            Lea(x, x, offset);
            t := t.(home := t.home[slot := t.x86[x]]);
            AddNegCancels(Plain(old(t), x), offset);
            Lea(x, x, Sub(ZERO, offset));
            return;
          }
        }
      }
      if store {
        t := t.(home := t.home[slot := t.x86[dst]]);
      }
    }

    /** The table entry of an x86 register that caches nothing. */
    method ClearEntry(x: int)
      requires Shape(t) && 0 <= x < 8
      modifies this`t
      ensures t == old(t).(dirty := old(t.dirty)[x := false], cacheReg := old(t.cacheReg)[x := -1],
                               constOffset := old(t.constOffset)[x := ZERO],
                               byteOrder := old(t.byteOrder)[x := BO_NORMAL])
      ensures Shape(t)
    {
      t := t.(dirty := t.dirty[x := false]);
      t := t.(cacheReg := t.cacheReg[x := -1]);
      t := t.(constOffset := t.constOffset[x := ZERO]);
      t := t.(byteOrder := t.byteOrder[x := BO_NORMAL]);
    }

    /** remove_x86r_from_cache: drops a register from the cache after syncing it. */
    method RemoveFromCache(x: int, mayClobber: bool)
      requires Valid(t) && -1 <= x < 8
      modifies this`t
      ensures t.crData == old(t.crData) && t.locked == old(t.locked) && t.users == old(t.users)
      ensures Valid(t) && Values(t) == Values(old(t))
      ensures x == -1 || old(t.cacheReg[x]) == -1 ==> t == old(t)
      ensures x >= 0 && old(t.cacheReg[x]) != -1 ==> Removed(old(t), t, x, mayClobber)
      ensures BookOf(t) == Emptied(BookOf(old(t)), x)
    {
      hide Add, BookOf, EntryOf, CleanMeansHome, Inverse, LocksHaveUsers, Values, Logical, Plain, SlotOf, Unmapped;
      if x == -1 { return; }
      EntryIs(t, x);
      var reg := t.cacheReg[x];
      if reg == -1 { return; }
      SyncOut(x, mayClobber);
      ghost var mid := t;
      ClearEntry(x);
      ThenCleared(old(t), mid, t, x, mayClobber);
      RemovalKeeps(old(t), t, x, mayClobber);
      RemovedBook(old(t), t, x, mayClobber);
    }

    /** The two arms of it: the map forgets the register, and its value goes home. */
    method SyncOut(x: int, mayClobber: bool)
      requires Valid(t) && 0 <= x < 8 && t.cacheReg[x] != -1
      modifies this`t
      ensures Shape(t) && Unmapped(old(t), t, x, mayClobber)
    {
      if !t.dirty[x] {
        CleanIsHome(t, x);
      }
      hide Add, CleanMeansHome, Inverse, LocksHaveUsers;
      var reg := t.cacheReg[x];
      if t.crData[x] {
        t := t.(dregMap := t.dregMap[reg := -1]);
        SyncReg(x, reg, t.constOffset[x], t.dirty[x], mayClobber);
      } else {
        t := t.(aregMap := t.aregMap[reg := -1]);
        SyncReg(x, 8 + reg, t.constOffset[x], t.dirty[x], mayClobber);
      }
    }

    /** The body shared by get_free_x86_register and get_typed_x86_register once a register
        has been chosen. */
    method FreeEntry(x: int)
      requires Valid(t) && 0 <= x < 8
      modifies this`t
      ensures t.crData == old(t.crData) && t.locked == old(t.locked) && t.users == old(t.users)
      ensures Valid(t) && Values(t) == Values(old(t)) && Freed(old(t), t, x)
      ensures BookOf(t) == Emptied(BookOf(old(t)), x)
    {
      hide BookOf;
      RemoveFromCache(x, true);
      ghost var mid := t;
      ClearEntry(x);
      ClearKeeps(mid, t, x);
      FreedFromRemoved(old(t), mid, t, x);
      FreedBook(old(t), t, x);
    }

    /** get_free_x86_register: a preferred register that caches nothing, else a preferred
        one, else any; never one in use.  What the chosen register cached is synced first. */
    method GetFree(preferred: set<int>) returns (x: int)
      requires Valid(t)
      modifies this`t
      ensures t.crData == old(t.crData) && t.locked == old(t.locked) && t.users == old(t.users)
      ensures -1 <= x < 8 && (x == -1 <==> !HasFree(old(t)))
      ensures Valid(t) && Values(t) == Values(old(t))
      ensures x == -1 ==> t == old(t)
      ensures x >= 0 ==> t.users[x] == 0 && Freed(old(t), t, x) && BestChoice(old(t), preferred, x)
      ensures x == Pick(BookOf(old(t)), preferred, 0) && BookOf(t) == Emptied(BookOf(old(t)), x)
    {
      hide BookOf, Inverse, CleanMeansHome, Values, Freed;
      x := -1;
      var cnt := 0;
      while cnt < 24
        invariant 0 <= cnt <= 24 && t == old(t)
        invariant forall c :: 0 <= c < cnt ==> Rejected(t, preferred, c)
        invariant Pick(BookOf(t), preferred, cnt) == Pick(BookOf(t), preferred, 0)
      {
        x := cnt % 8;
        PickStep(t, preferred, cnt);
        if !((cnt < 16 && x !in preferred) || (cnt < 8 && t.cacheReg[x] != -1) || t.users[x] > 0) {
          ChoiceIsBest(t, preferred, cnt);
          FreeEntry(x);
          return;
        }
        cnt := cnt + 1;
      }
      NoneIsFree(t, preferred);
      x := -1;
    }

    /** compile_unlock_reg */
    method Unlock(x: int)
      requires Valid(t) && -2 <= x < 8 && (x >= 0 ==> t.users[x] > 0 && x != R_ESP)
      modifies this`t
      ensures t == old(t).(locked := t.locked, users := t.users)
      ensures Valid(t) && Values(t) == Values(old(t))
      ensures x >= 0 ==> t.users == old(t.users)[x := old(t.users[x]) - 1]
      ensures x >= 0 ==> t.locked == if t.users[x] == 0 then old(t.locked)[x := 0] else old(t.locked)
    {
      if x >= 0 {
        t := t.(users := t.users[x := t.users[x] - 1]);
        if t.users[x] == 0 {
          t := t.(locked := t.locked[x := 0]);
        }
        LocksKeep(old(t), t);
      }
    }

    /** The cache entry of an x86 register that now holds a 68k register. */
    method Enter(x: int, reg: int, isData: bool)
      requires Shape(t) && 0 <= x < 8 && 0 <= reg < 8 && x != R_ESP
      modifies this`t
      ensures t == old(t).(dregMap := t.dregMap, aregMap := t.aregMap,
                               cacheReg := old(t.cacheReg)[x := reg], crData := old(t.crData)[x := isData])
      ensures Shape(t) && Remapped(old(t), t, Slot(isData, reg), x)
    {
      t := t.(cacheReg := t.cacheReg[x := reg]);
      t := t.(crData := t.crData[x := isData]);
      if isData {
        t := t.(dregMap := t.dregMap[reg := x]);
      } else {
        t := t.(aregMap := t.aregMap[reg := x]);
      }
    }

    /** The part of get_and_lock_68k_reg for a register that is not cached. */
    method Load(reg: int, isData: bool, want: set<int>) returns (x: int)
      requires Valid(t) && 0 <= reg < 8 && HasFree(t) && MapOf(t, Slot(isData, reg)) == -1
      modifies this`t
      ensures t.locked == old(t.locked) && t.users == old(t.users)
      ensures Valid(t) && Values(t) == Values(old(t))
      ensures 0 <= x < 8 && MapOf(t, Slot(isData, reg)) == x && t.constOffset[x] == ZERO && t.users[x] == 0
      ensures forall y :: 0 <= y < 8 && t.users[y] > 0 ==> Plain(t, y) == Plain(old(t), y)
      ensures (BookOf(t), x) == Loaded(BookOf(old(t)), want, Slot(isData, reg))
    {
      hide Inverse, CleanMeansHome, LocksHaveUsers, Values, Logical, SlotOf, Plain, BestChoice, Freed, HasFree,
           MapOf, Misread, BookOf, Pick, Emptied, Held;
      x := GetFree(want);
      ghost var mid := t;
      FreeIsNotEsp(old(t), x);
      t := t.(x86 := t.x86[x := t.home[Slot(isData, reg)]]);
      Enter(x, reg, isData);
      EmptiedHeld(BookOf(old(t)), want);
      LoadStep(old(t), mid, t, want, x, Slot(isData, reg));
    }

    /** Copies a cached value, pending offset included, to another register. */
    method CopyOut(x: int, newr: int) returns (changed: bool)
      requires Shape(t) && 0 <= x < 8 && 0 <= newr < 8 && x != newr
      modifies this`t
      ensures t == old(t).(x86 := t.x86, byteOrder := t.byteOrder) && Shape(t)
      ensures changed <==> t.constOffset[x] != ZERO
      ensures Plain(t, newr) == Add(Plain(old(t), x), t.constOffset[x]) && Plain(t, x) == Plain(old(t), x)
      ensures t.byteOrder[newr] == t.byteOrder[x] == if changed then BO_NORMAL else old(t.byteOrder[x])
      ensures forall z :: 0 <= z < 8 && z != x && z != newr ==>
                t.x86[z] == old(t.x86[z]) && t.byteOrder[z] == old(t.byteOrder[z])
    {
      hide Add;
      AddZero(Plain(t, x));
      changed := false;
      if t.constOffset[x] == ZERO {
        t := t.(x86 := t.x86[newr := t.x86[x]]);
      } else {
        ForceByteOrder(x, BO_NORMAL);
        Lea(newr, x, t.constOffset[x]);
        changed := true;
      }
      t := t.(byteOrder := t.byteOrder[newr := t.byteOrder[x]]);
    }

    /** Takes the old register out of the cache and makes the new one the cache register. */
    method Rehome(x: int, newr: int, reg: int, isData: bool, changed: bool)
      requires Shape(t) && 0 <= x < 8 && 0 <= newr < 8 && x != newr && newr != R_ESP && 0 <= reg < 8
      modifies this`t
      ensures t == old(t).(dregMap := t.dregMap, aregMap := t.aregMap,
                               cacheReg := old(t.cacheReg)[x := -1][newr := reg],
                               crData := old(t.crData)[x := isData][newr := isData],
                               constOffset := old(t.constOffset)[x := ZERO][newr := ZERO],
                               dirty := old(t.dirty)[x := false][newr := changed || old(t.dirty[x])])
      ensures Shape(t) && Remapped(old(t), t, Slot(isData, reg), newr)
    {
      t := t.(cacheReg := t.cacheReg[x := -1]);
      t := t.(crData := t.crData[x := isData]);
      t := t.(constOffset := t.constOffset[x := ZERO]);
      var oldDirty := changed || t.dirty[x];
      t := t.(dirty := t.dirty[x := false]);
      t := t.(constOffset := t.constOffset[newr := ZERO]);
      t := t.(dirty := t.dirty[newr := oldDirty]);
      Enter(newr, reg, isData);
    }

    /** The part of get_and_lock_68k_reg that gives a cached register a new place because the
        old one is locked by somebody else. */
    method Transfer(x: int, reg: int, isData: bool, want: set<int>) returns (newr: int)
      requires Valid(t) && 0 <= reg < 8 && HasFree(t)
      requires 0 <= x < 8 && MapOf(t, Slot(isData, reg)) == x && t.users[x] > 0
      modifies this`t
      ensures t.locked == old(t.locked) && t.users == old(t.users)
      ensures Valid(t) && Values(t) == Values(old(t))
      ensures 0 <= newr < 8 && MapOf(t, Slot(isData, reg)) == newr && t.constOffset[newr] == ZERO && t.users[newr] == 0
      ensures forall y :: 0 <= y < 8 && t.users[y] > 0 ==> Plain(t, y) == Plain(old(t), y)
      ensures t.cacheReg[x] == -1
      ensures newr == Pick(BookOf(old(t)), want, 0) && BookOf(t) == Moved(BookOf(old(t)), x, newr)
    {
      hide Add, CleanMeansHome, Values, Logical, BestChoice, Swap, Misread, BookOf, Pick, Emptied, Moved;
      EntryIs(t, x);
      newr := GetFree(want);
      ghost var mid := t;
      assert SlotOf(mid, x) == Slot(isData, reg);
      var oldDirty := CopyOut(x, newr);
      Rehome(x, newr, reg, isData, oldDirty);
      assert Transferred(mid, t, x, newr, Slot(isData, reg));
      TransferKeeps(mid, t, x, newr, Slot(isData, reg));
      MovedBook(mid, t, x, newr, Slot(isData, reg), oldDirty);
      MovedAnyway(BookOf(old(t)), x, newr);
    }

    /** Adds the pending offset to the register. */
    method Materialise(x: int)
      requires Valid(t) && 0 <= x < 8
      modifies this`t
      ensures t == old(t).(constOffset := t.constOffset, dirty := t.dirty, byteOrder := t.byteOrder, x86 := t.x86)
      ensures Valid(t) && Values(t) == Values(old(t)) && t.constOffset[x] == ZERO
      ensures t.byteOrder[x] == BO_NORMAL && t.dirty[x]
      ensures BookOf(t) == Settled(BookOf(old(t)), x)
      ensures forall y :: 0 <= y < 8 && y != x ==> Plain(t, y) == Plain(old(t), y)
    {
      hide Add;
      ForceByteOrder(x, BO_NORMAL);
      Lea(x, x, t.constOffset[x]);
      t := t.(constOffset := t.constOffset[x := ZERO]);
      t := t.(dirty := t.dirty[x := true]);
      MaterialiseKeeps(old(t), t, x);
      SettledBook(old(t), t, x);
      hide BookOf, Settled;
    }

    /** lock_reg: only ever adds a compatible lock. */
    method LockReg(x: int, lockType: int)
      requires Valid(t) && 0 <= x < 8 && 1 <= lockType <= 2
      requires t.locked[x] == 0 || (t.locked[x] == 1 && lockType == 1)
      modifies this`t
      ensures Valid(t) && Values(t) == Values(old(t))
      ensures t == old(t).(locked := old(t.locked)[x := lockType], users := old(t.users)[x := old(t.users[x]) + 1])
      ensures LockedKept(old(t), t)
      ensures BookOf(t) == Locked(BookOf(old(t)), x, lockType)
    {
      t := t.(locked := t.locked[x := lockType]);
      t := t.(users := t.users[x := t.users[x] + 1]);
      LocksKeep(old(t), t);
      LockedBook(old(t), t, x, lockType);
      hide BookOf;
    }

    /** The first half of get_and_lock_68k_reg: an x86 register that holds the 68k register and
        that the new lock does not conflict with.  A pending offset that is not wanted is only
        left in a register nobody has locked (the source would report "modifying locked reg"). */
    method Place(reg: int, isData: bool, want: set<int>, noOffset: bool, lockType: int) returns (x: int)
      requires Valid(t) && 0 <= reg < 8 && 1 <= lockType <= 2
      requires NeedsNew(t, Slot(isData, reg), noOffset, lockType) ==> HasFree(t)
      modifies this`t
      ensures t.locked == old(t.locked) && t.users == old(t.users)
      ensures Valid(t) && Values(t) == Values(old(t))
      ensures 0 <= x < 8 && MapOf(t, Slot(isData, reg)) == x && x != R_ESP && t.cacheReg[x] != -1
      ensures t.locked[x] == 0 || (t.locked[x] == 1 && lockType == 1)
      ensures noOffset && t.constOffset[x] != ZERO ==> t.locked[x] == 0
      ensures forall y :: 0 <= y < 8 && t.users[y] > 0 ==> Plain(t, y) == Plain(old(t), y)
      ensures (BookOf(t), x) == Placed(BookOf(old(t)), want, Slot(isData, reg), noOffset, lockType)
    {
      WhereIsMap(t, Slot(isData, reg));
      x := if isData then t.dregMap[reg] else t.aregMap[reg];
      if x != -1 {
        EntryIs(t, x);
      }
      hide BookOf, Where, Pick, Moved, Loaded, EntryOf;
      if x == -1 {
        x := Load(reg, isData, want);
      } else {
        if t.locked[x] == 2 || (t.locked[x] == 1 && (lockType == 2 || (t.constOffset[x] != ZERO && noOffset))) {
          x := Transfer(x, reg, isData, want);
        }
      }
      assert SlotOf(t, x) == Slot(isData, reg);
    }

    /** get_and_lock_68k_reg: brings a 68k register into an x86 register and locks it
        (1 shared, 2 exclusive).  The value of every 68k register and the content of every
        register locked by somebody else stay the same. */
    method GetAndLock(reg: int, isData: bool, preferred: set<int>, noOffset: bool, lockType: int)
      returns (x: int)
      requires Valid(t) && 0 <= reg < 8 && 1 <= lockType <= 2
      requires NeedsNew(t, Slot(isData, reg), noOffset, lockType) ==> HasFree(t)
      modifies this`t
      ensures Valid(t) && Values(t) == Values(old(t))
      ensures InLocked(old(t), t, Slot(isData, reg), x, noOffset, lockType)
      ensures (BookOf(t), x) == Got(BookOf(old(t)), Preferred(preferred), Slot(isData, reg), noOffset, lockType)
    {
      hide Inverse, CleanMeansHome, LocksHaveUsers, Values, NeedsNew, HasFree, MapOf, In, InLocked, LockedKept,
           BookOf, Wanted, Locked, Got, Preferred;
      x := PlaceWanted(reg, isData, Preferred(preferred), noOffset, lockType);
      ghost var placed := t;
      PlacedFits(old(t), placed, Slot(isData, reg), x, noOffset, lockType);
      LockReg(x, lockType);
      ThenLocked(old(t), placed, t, Slot(isData, reg), x, noOffset, lockType);
      GotFrom(BookOf(old(t)), Preferred(preferred), Slot(isData, reg), noOffset, lockType);
    }

    /** The same, with the pending offset added if it is not wanted. */
    method PlaceWanted(reg: int, isData: bool, want: set<int>, noOffset: bool, lockType: int) returns (x: int)
      requires Valid(t) && 0 <= reg < 8 && 1 <= lockType <= 2
      requires NeedsNew(t, Slot(isData, reg), noOffset, lockType) ==> HasFree(t)
      modifies this`t
      ensures Valid(t) && Values(t) == Values(old(t))
      ensures In(old(t), t, Slot(isData, reg), x, noOffset, lockType)
      ensures (BookOf(t), x) == Wanted(BookOf(old(t)), want, Slot(isData, reg), noOffset, lockType)
    {
      LockedInUse(t);
      hide Add, Inverse, CleanMeansHome, LocksHaveUsers, Values, Logical, Swap, Plain, SlotOf, HasFree, Misread,
           NeedsNew, BookOf, Placed, Settled, EntryOf;
      x := Place(reg, isData, want, noOffset, lockType);
      EntryIs(t, x);
      if noOffset && t.constOffset[x] != ZERO {
        Materialise(x);
      }
    }

    /** One round of the sync_reg_cache loop, for an x86 register in the cache. */
    method SyncOne(i: int, flush: bool)
      requires Valid(t) && 0 <= i < 8 && t.cacheReg[i] != -1
      modifies this`t
      ensures t.dirty == old(t.dirty) && t.crData == old(t.crData) && t.locked == old(t.locked) && t.users == old(t.users)
      ensures Valid(t) && Values(t) == Values(old(t)) && Synced(old(t), t, i, flush)
      ensures BookOf(t) == SyncedEntry(BookOf(old(t)), i, flush)
    {
      hide Add, CleanMeansHome, LocksHaveUsers, Values, Logical, Swap, BookOf, SyncedEntry;
      if !t.dirty[i] {
        CleanIsHome(t, i);
      }
      var cr68k := t.cacheReg[i];
      ghost var s := SlotOf(t, i);
      if t.crData[i] {
        SyncReg(i, cr68k, t.constOffset[i], t.dirty[i], true);
        if flush {
          t := t.(dregMap := t.dregMap[cr68k := -1]);
        }
      } else {
        SyncReg(i, 8 + cr68k, t.constOffset[i], t.dirty[i], true);
        if flush {
          t := t.(aregMap := t.aregMap[cr68k := -1]);
        }
      }
      if flush {
        t := t.(cacheReg := t.cacheReg[i := -1]);
      }
      t := t.(constOffset := t.constOffset[i := ZERO]);
      SyncedKeeps(old(t), t, i, flush);
      SyncedBook(old(t), t, i, flush);
    }

    /** sync_reg_cache: afterwards every home slot holds the logical value of its 68k
        register; with flush nothing is cached any more. */
    method SyncRegCache(flush: bool)
      requires Valid(t)
      modifies this`t
      ensures t.crData == old(t.crData) && t.locked == old(t.locked) && t.users == old(t.users)
      ensures Valid(t) && Values(t) == Values(old(t))
      ensures t.home == Values(old(t))
      ensures flush ==> (forall x :: 0 <= x < 8 ==> t.cacheReg[x] == -1)
                        && (forall s :: 0 <= s < 16 ==> MapOf(t, s) == -1)
      ensures !flush ==> t.dregMap == old(t.dregMap) && t.aregMap == old(t.aregMap) && t.cacheReg == old(t.cacheReg)
      ensures BookOf(t) == AllSynced(BookOf(old(t)), flush)
    {
      hide Inverse, CleanMeansHome, Logical, Values, Plain, LocksHaveUsers, BookOf, EntryOf, Cleaned;
      var i := 0;
      while i < 8
        invariant 0 <= i <= 8
        invariant Valid(t) && Values(t) == Values(old(t))
        invariant t.users == old(t.users) && t.locked == old(t.locked) && t.crData == old(t.crData)
                  && t.dirty == old(t.dirty)
        invariant forall x :: 0 <= x < i ==> UpToDate(t, x) && (flush ==> t.cacheReg[x] == -1)
        invariant BookOf(t) == SyncedTo(BookOf(old(t)), flush, i)
        invariant !flush ==> t.dregMap == old(t.dregMap) && t.aregMap == old(t.aregMap) && t.cacheReg == old(t.cacheReg)
      {
        EntryIs(t, i);
        if t.cacheReg[i] != -1 {
          ghost var before := t;
          SyncOne(i, flush);
          UpToDateStable(before, t, i, flush);
        }
        i := i + 1;
      }
      ghost var last := t;
      t := t.(dirty := seq(8, _ => false));
      CleanedKeeps(last, t);
      CleanedBook(last, t);
    }

    /** compile_prepareea for -(An) and (An)+: the address register is changed by adjusting
        its pending offset only.  The effective address is the register plus `offs`. */
    method StepAddress(reg: int, delta: Word, predecrement: bool, preferred: set<int>) returns (x: int, offs: Word)
      requires Valid(t) && 0 <= reg < 8
      requires NeedsNew(t, 8 + reg, false, 1) ==> HasFree(t)
      modifies this`t
      ensures Valid(t) && 0 <= x < 8
      ensures Values(t) == Values(old(t))[8 + reg := Step(Values(old(t))[8 + reg], delta, predecrement)]
      ensures predecrement ==> IsSum(ToInt(Values(old(t))[8 + reg]), ToInt(Values(t)[8 + reg]), ToInt(delta))
      ensures !predecrement ==> IsSum(ToInt(Values(t)[8 + reg]), ToInt(Values(old(t))[8 + reg]), ToInt(delta))
      ensures Add(Plain(t, x), offs) == Values(if predecrement then t else old(t))[8 + reg]
      ensures BookOf(t) == Stepped(BookOf(old(t)), reg, delta, predecrement, Preferred(preferred))
    {
      Preferences();
      hide Add, LocksHaveUsers, CleanMeansHome, HasFree, Swap, BookOf, Got, NeedsNew, Preferred, AllRegs, AddressRegs;
      x := GetAndLock(reg, false, preferred, false, 1);
      ghost var mid := t;
      assert Values(mid)[8 + reg] == Logical(mid, 8 + reg);
      ForceByteOrder(x, BO_NORMAL);
      if predecrement {
        t := t.(constOffset := t.constOffset[x := Sub(t.constOffset[x], delta)]);
        offs := t.constOffset[x];
      } else {
        offs := t.constOffset[x];
        t := t.(constOffset := t.constOffset[x := Add(t.constOffset[x], delta)]);
      }
      StepKeeps(mid, t, x, 8 + reg, delta, predecrement);
      SteppedBook(mid, t, x, delta, predecrement);
      StepIsModular(Values(old(t))[8 + reg], delta, predecrement);
      hide Step;
    }

    /** Takes a 68k register out of the cache, whichever x86 register it is in.  Registers in
        use keep their content. */
    method Evict(reg: int, isData: bool)
      requires Valid(t) && 0 <= reg < 8
      modifies this`t
      ensures t.crData == old(t.crData) && t.locked == old(t.locked) && t.users == old(t.users)
      ensures Valid(t) && Values(t) == Values(old(t)) && MapOf(t, Slot(isData, reg)) == -1
      ensures forall y :: 0 <= y < 8 && old(t.cacheReg[y]) == -1 ==> t.cacheReg[y] == -1
      ensures forall y :: 0 <= y < 8 && t.users[y] > 0 && old(SlotOf(t, y)) != Slot(isData, reg) ==>
                t.x86[y] == old(t.x86[y]) && t.byteOrder[y] == old(t.byteOrder[y])
      ensures BookOf(t) == Evicted(BookOf(old(t)), Slot(isData, reg))
    {
      var cur := if isData then t.dregMap[reg] else t.aregMap[reg];
      assert MapOf(t, Slot(isData, reg)) == cur;
      WhereIsMap(t, Slot(isData, reg));
      hide BookOf, Where;
      if cur >= 0 {
        assert SlotOf(t, cur) == Slot(isData, reg);
        RemoveFromCache(cur, false);
      }
    }

    /** genastore to a register: the x86 register holding the result becomes the cache
        register of the destination.  The caller still holds its lock on that register. */
    method WriteBack(reg: int, isData: bool, dataReg: int, offs: Word)
      requires Valid(t) && 0 <= reg < 8 && 0 <= dataReg < 8 && t.users[dataReg] > 0 && dataReg != R_ESP
      modifies this`t
      ensures t.locked == old(t.locked) && t.users == old(t.users)
      ensures Valid(t)
      ensures Values(t) == Values(old(t))[Slot(isData, reg) :=
                Add(if SlotOf(old(t), dataReg) != Slot(isData, reg) && Misread(old(t), dataReg)
                    then old(t.x86[dataReg]) else Plain(old(t), dataReg), offs)]
      ensures MapOf(t, Slot(isData, reg)) == dataReg
      ensures BookOf(t) == Written(BookOf(old(t)), dataReg, Slot(isData, reg), offs, old(t.byteOrder[dataReg]))
    {
      var cur := if isData then t.dregMap[reg] else t.aregMap[reg];
      ghost var s := Slot(isData, reg);
      assert cur == MapOf(t, s);
      MappedIff(t, s, dataReg);
      EntryIs(t, dataReg);
      hide Inverse, CleanMeansHome, LocksHaveUsers, Values, Logical, SlotOf, Plain, Add, Misread, BookOf,
           EntryOf, Adopted, Evicted, Emptied;
      if dataReg != cur {
        TakeOver(reg, isData, dataReg, offs);
      } else {
        t := t.(constOffset := t.constOffset[dataReg := offs]);
        t := t.(dirty := t.dirty[dataReg := true]);
        OverwriteKeeps(old(t), t, dataReg, s);
        OverwrittenBook(old(t), t, dataReg, s, old(t.byteOrder[dataReg]));
      }
    }

    /** The result register is not the cache register of the destination yet. */
    method TakeOver(reg: int, isData: bool, dataReg: int, offs: Word)
      requires Valid(t) && 0 <= reg < 8 && 0 <= dataReg < 8 && t.users[dataReg] > 0 && dataReg != R_ESP
      requires SlotOf(t, dataReg) != Slot(isData, reg)
      modifies this`t
      ensures t.locked == old(t.locked) && t.users == old(t.users)
      ensures Valid(t) && MapOf(t, Slot(isData, reg)) == dataReg
      ensures Values(t) == Values(old(t))[Slot(isData, reg) :=
                Add(if Misread(old(t), dataReg) then old(t.x86[dataReg]) else Plain(old(t), dataReg), offs)]
      ensures BookOf(t) == Adopted(Evicted(Emptied(BookOf(old(t)), dataReg), Slot(isData, reg)), dataReg,
                                   Slot(isData, reg), offs,
                                   if old(t.cacheReg[dataReg]) == -1 then old(t.byteOrder[dataReg]) else BO_NORMAL)
    {
      RemovedIsUnmapped(t, dataReg);
      hide Inverse, CleanMeansHome, LocksHaveUsers, Values, Logical, SlotOf, Plain, Add, Removed, Misread,
           BookOf, EntryOf, Adopted, Evicted, Emptied;
      RemoveFromCache(dataReg, false);
      ghost var removed := t;
      Evict(reg, isData);
      ghost var mid := t;
      Enter(dataReg, reg, isData);
      t := t.(constOffset := t.constOffset[dataReg := offs]);
      t := t.(dirty := t.dirty[dataReg := true]);
      WriteBackStep(old(t), removed, mid, t, dataReg, Slot(isData, reg));
      AdoptedBook(mid, t, dataReg, Slot(isData, reg));
    }

    /** The locks of one instruction are dropped at the start of the next. */
    method NewInstruction()
      requires Valid(t)
      modifies this`t
      ensures Valid(t) && Values(t) == Values(old(t)) && Fresh(t)
      ensures t == old(t).(locked := t.locked, users := t.users)
      ensures BookOf(t) == Renewed(BookOf(old(t)))
    {
      t := t.(users := NoUsers());
      t := t.(locked := [0, 0, 0, 0, 2, 0, 0, 0]);
      LocksKeep(old(t), t);
      RenewedBook(old(t), t);
      hide BookOf;
    }

    // ------------------------------------------------------- MOVE.L, instruction by instruction

    /** compile_prepareea for d(An), and for (An) with disp zero. */
    method PrepareAddress(areg: int, disp: Word) returns (a: int, offs: Word)
      requires Valid(t) && Fresh(t) && 0 <= areg < 8
      modifies this`t
      ensures Valid(t) && Values(t) == Values(old(t))
      ensures 0 <= a < 8 && a != R_ESP && t.users == NoUsers()[a := NoUsers()[a] + 1] && t.locked[a] == 1
      ensures Add(Plain(t, a), offs) == Add(Values(t)[8 + areg], disp)
      ensures MapOf(t, 8 + areg) == a && (BookOf(t), a) == Prepared(BookOf(old(t)), areg)
    {
      assert t.users[0] <= 0;
      assert HasFree(t);
      Preferences();
      assert t.users == NoUsers();
      hide Add, BookOf, Got, Ordered, HasFree, NeedsNew, Inverse, LocksHaveUsers, CleanMeansHome, Values,
           Logical, SlotOf, Plain, Preferred, AllRegs, AddressRegs, NoUsers, Fresh;
      a := GetAndLock(areg, false, AddressRegs(), false, 1);
      ghost var mid := t;
      CachedSum(mid, 8 + areg);
      Reorder(a, BO_NORMAL);
      offs := Add(t.constOffset[a], disp);
      AddAssociates(Plain(t, a), t.constOffset[a], disp);
    }

    /** MOVE.L Rn,d(An): the register is left in swapped order. */
    method StoreLong(reg: int, isData: bool, areg: int, disp: Word)
      requires Valid(t) && Fresh(t) && 0 <= reg < 8 && 0 <= areg < 8
      modifies this
      ensures Valid(t) && Values(t) == Values(old(t))
      ensures mem == PutLong(old(mem), Add(Values(old(t))[8 + areg], disp), Values(old(t))[Slot(isData, reg)])
      ensures BookOf(t) == AfterStore(BookOf(old(t)), Slot(isData, reg), areg)
    {
      Preferences();
      hide Add, PutLong, Store32, Inverse, CleanMeansHome, LocksHaveUsers, Logical, SlotOf, Values, HasFree,
           NeedsNew, BookOf, Prepared, Got, Ordered, Preferred, AllRegs, AddressRegs, NoUsers;
      var a, offs := PrepareAddress(areg, disp);
      OneUser(t, a);
      ghost var ready := t;
      var x := GetAndLock(reg, isData, {}, true, 2);
      ghost var both := t;
      CachedValue(both, Slot(isData, reg));
      Reorder(x, BO_SWAPPED_LONG);
      Reorder(a, BO_NORMAL);
      SwappedAccess(mem, Add(t.x86[a], offs), Plain(both, x));
      mem := Store32(mem, Add(t.x86[a], offs), t.x86[x]);
    }

    /** A free register for exclusive use; registers in use keep their content. */
    method TakeFree() returns (x: int)
      requires Valid(t) && HasFree(t)
      modifies this`t
      ensures t.crData == old(t.crData)
      ensures Valid(t) && Values(t) == Values(old(t))
      ensures 0 <= x < 8 && x != R_ESP && t.cacheReg[x] == -1 && old(t.users[x]) == 0 && t.users == old(t.users)[x := 1]
      ensures forall y :: 0 <= y < 8 && old(t.users[y]) > 0 ==> Plain(t, y) == Plain(old(t), y)
      ensures forall s :: 0 <= s < 16 && MapOf(old(t), s) == -1 ==> MapOf(t, s) == -1
      ensures (BookOf(t), x) == Taken(BookOf(old(t))) && t.byteOrder[x] == BO_NORMAL
    {
      Preferences();
      hide Add, Inverse, CleanMeansHome, Values, Logical, Swap, SlotOf, HasFree, BestChoice, BookOf, Pick,
           Emptied, Locked, Preferred, AllRegs, AddressRegs;
      x := GetFree(AllRegs());
      LockReg(x, 2);
    }

    /** Fills a register that caches nothing. */
    method Fill(x: int, v: Word, order: int)
      requires Valid(t) && 0 <= x < 8 && t.cacheReg[x] == -1 && 0 <= order <= 2
      modifies this`t
      ensures Valid(t) && Values(t) == Values(old(t)) && Plain(t, x) == Swap(v, order)
      ensures t == old(t).(x86 := old(t.x86)[x := v], byteOrder := old(t.byteOrder)[x := order])
      ensures BookOf(t) == BookOf(old(t))
    {
      hide Inverse, CleanMeansHome, Values, Logical, Swap, SlotOf;
      t := t.(x86 := t.x86[x := v]);
      t := t.(byteOrder := t.byteOrder[x := order]);
      ScratchKeeps(old(t), t, x);
      ScratchBook(old(t), t, x);
      hide BookOf;
    }

    /** compile_fetchmem for a long. */
    method FetchMem(a: int, offs: Word) returns (x: int)
      requires Valid(t) && HasFree(t) && 0 <= a < 8 && t.users[a] > 0
      modifies this`t
      ensures t.crData == old(t.crData)
      ensures Valid(t) && Values(t) == Values(old(t))
      ensures 0 <= x < 8 && x != R_ESP && x != a && t.cacheReg[x] == -1 && t.users[x] > 0
      ensures Plain(t, x) == GetLong(mem, Add(Plain(old(t), a), offs))
      ensures (BookOf(t), x) == Fetched(BookOf(old(t)), a)
    {
      hide Add, GetLong, Load32, Inverse, CleanMeansHome, Values, Logical, SlotOf, HasFree, MapOf, BookOf,
           Taken, Ordered;
      x := TakeFree();
      Reorder(a, BO_NORMAL);
      SwappedAccess(mem, Add(t.x86[a], offs), ZERO);
      Fill(x, Load32(mem, Add(t.x86[a], offs)), BO_SWAPPED_LONG);
    }

    /** MOVE.L d(An),Rn: the value stays in the order in which it was read if the destination
        is in that order already. */
    method LoadLong(reg: int, isData: bool, areg: int, disp: Word)
      requires Valid(t) && Fresh(t) && 0 <= reg < 8 && 0 <= areg < 8
      modifies this`t
      ensures Valid(t)
      ensures Values(t) == Values(old(t))[Slot(isData, reg) := GetLong(mem, Add(Values(old(t))[8 + areg], disp))]
      ensures BookOf(t) == AfterLoad(BookOf(old(t)), Slot(isData, reg), areg)
    {
      hide Add, GetLong, Load32, Plain, BookOf, Prepared, LoadedFresh, LoadedOver, Inverse, CleanMeansHome,
           LocksHaveUsers, Values, Logical, HasFree, SlotOf, Where, NoUsers;
      var a, offs := PrepareAddress(areg, disp);
      OneUser(t, a);
      LockedInUse(t);
      WhereIsMap(t, Slot(isData, reg));
      var cur := if isData then t.dregMap[reg] else t.aregMap[reg];
      if cur == -1 {
        LoadFresh(reg, isData, a, offs);
      } else {
        LoadOver(reg, isData, a, offs);
      }
    }

    /** The destination is not cached: the fetched value becomes its cache register. */
    method LoadFresh(reg: int, isData: bool, a: int, offs: Word)
      requires Valid(t) && HasFree(t) && 0 <= a < 8 && t.users[a] > 0 && 0 <= reg < 8
      modifies this`t
      ensures Valid(t)
      ensures Values(t) == Values(old(t))[Slot(isData, reg) := GetLong(mem, Add(Plain(old(t), a), offs))]
      ensures BookOf(t) == LoadedFresh(BookOf(old(t)), Slot(isData, reg), a)
    {
      Preferences();
      hide Add, GetLong, Inverse, CleanMeansHome, LocksHaveUsers, Values, Logical, Swap, BestChoice, BookOf,
           Fetched, Written, Ordered, Pick, Preferred, AllRegs, AddressRegs;
      var e := -1;
      OrderedNone();
      if isData {
        e := GetFree(AllRegs());
      }
      var x := FetchMem(a, offs);
      if e >= 0 {
        Reorder(e, BO_NORMAL);
      }
      Reorder(x, BO_NORMAL);
      AddZero(Plain(t, x));
      WriteBack(reg, isData, x, ZERO);
    }

    /** The destination is cached. */
    method LoadOver(reg: int, isData: bool, a: int, offs: Word)
      requires Valid(t) && 0 <= a < 8 && a != R_ESP && t.users == NoUsers()[a := NoUsers()[a] + 1]
               && t.locked[a] == 1 && 0 <= reg < 8
      requires MapOf(t, Slot(isData, reg)) != -1
      modifies this`t
      ensures Valid(t)
      ensures Values(t) == Values(old(t))[Slot(isData, reg) := GetLong(mem, Add(Plain(old(t), a), offs))]
      ensures BookOf(t) == LoadedOver(BookOf(old(t)), Slot(isData, reg), a)
    {
      hide Add, GetLong, Load32, Inverse, CleanMeansHome, LocksHaveUsers, Values, Logical, SlotOf, HasFree,
           NeedsNew, BookOf, DestLocked, Fetched, Written, Ordered, Refilled, NoUsers;
      OneUser(t, a);
      var d, scrambled := LockDest(reg, isData);
      if scrambled {
        Reorder(a, BO_NORMAL);
        SwappedAccess(mem, Add(t.x86[a], offs), ZERO);
        Refill(d, reg, isData, Load32(mem, Add(t.x86[a], offs)), BO_SWAPPED_LONG);
      } else {
        TwoUsers(t, a, d);
        LockedInUse(t);
        var x := FetchMem(a, offs);
        Reorder(d, BO_NORMAL);
        Reorder(x, BO_NORMAL);
        AddZero(Plain(t, x));
        WriteBack(reg, isData, x, ZERO);
      }
    }

    /** The cached destination of compile_loadeas; a data register in swapped order
        makes the operation a scrambled one (MOVEA is never scrambled). */
    method LockDest(dst: int, isData: bool) returns (xd: int, scrambled: bool)
      requires Valid(t) && HasFree(t) && 0 <= dst < 8 && MapOf(t, Slot(isData, dst)) != -1
      modifies this`t
      ensures Valid(t) && Values(t) == Values(old(t))
      ensures InLocked(old(t), t, Slot(isData, dst), xd, true, 2)
      ensures scrambled ==> isData && t.byteOrder[xd] == BO_SWAPPED_LONG
      ensures (BookOf(t), xd, scrambled) == DestLocked(BookOf(old(t)), Slot(isData, dst))
    {
      Preferences();
      hide Inverse, CleanMeansHome, LocksHaveUsers, Values, HasFree, NeedsNew, LockedKept, BookOf, EntryOf, Got,
           Ordered, Preferred, AllRegs, AddressRegs, MapOf;
      xd := GetAndLock(dst, isData, {}, true, 2);
      ghost var got := t;
      EntryIs(t, xd);
      scrambled := isData && t.byteOrder[xd] == BO_SWAPPED_LONG;
      if t.byteOrder[xd] != BO_NORMAL && t.byteOrder[xd] != BO_SWAPPED_LONG {
        Reorder(xd, BO_NORMAL);
        ThenReordered(old(t), got, t, Slot(isData, dst), xd);
      }
    }

    /** Overwrites the cache register of a 68k register. */
    method Refill(x: int, reg: int, isData: bool, v: Word, order: int)
      requires Valid(t) && 0 <= x < 8 && 0 <= reg < 8 && MapOf(t, Slot(isData, reg)) == x
      requires t.constOffset[x] == ZERO && 0 <= order <= 2
      modifies this`t
      ensures t == old(t).(dirty := t.dirty, byteOrder := t.byteOrder, x86 := t.x86)
      ensures Valid(t) && Values(t) == Values(old(t))[Slot(isData, reg) := Swap(v, order)]
      ensures BookOf(t) == Refilled(BookOf(old(t)), x, order)
    {
      hide Inverse, CleanMeansHome, Values, Logical, Swap, SlotOf, LocksHaveUsers, BookOf, Refilled;
      t := t.(x86 := t.x86[x := v]);
      t := t.(byteOrder := t.byteOrder[x := order]);
      t := t.(dirty := t.dirty[x := true]);
      RefillKeeps(old(t), t, x, Slot(isData, reg));
      RefilledBook(old(t), t, x);
    }

    /** MOVE.L Rs,Rd: exactly one combination of table entries reverses the bytes. */
    method MoveLong(reg: int, isData: bool, dst: int, dstData: bool)
      requires Valid(t) && Fresh(t) && 0 <= reg < 8 && 0 <= dst < 8
      modifies this`t
      ensures Valid(t)
      ensures var v, s, d := Values(old(t)), Slot(isData, reg), Slot(dstData, dst);
              Values(t) == v[d := if Reverses(BookOf(old(t)), s, d) then SwapLong(v[s]) else v[s]]
      ensures BookOf(t) == AfterMove(BookOf(old(t)), Slot(isData, reg), Slot(dstData, dst))
    {
      WhereIsMap(t, Slot(isData, reg));
      WhereIsMap(t, Slot(dstData, dst));
      NotReversed(BookOf(t), Slot(isData, reg), Slot(dstData, dst));
      hide Add, SwapLong, BookOf, MovedFromHome, MovedToHome, MovedCached, Where, Reverses, Inverse,
           CleanMeansHome, LocksHaveUsers, Values, Logical, HasFree, NeedsNew, SlotOf, Swap;
      var from := if isData then t.dregMap[reg] else t.aregMap[reg];
      var to := if dstData then t.dregMap[dst] else t.aregMap[dst];
      if from == -1 {
        MoveFromHome(reg, isData, dst, dstData);
      } else if to == -1 {
        MoveToHome(reg, isData, dst, dstData);
      } else {
        MoveCached(reg, isData, dst, dstData);
      }
    }

    /** The destination is not cached: the register of the source becomes its cache register. */
    method MoveToHome(reg: int, isData: bool, dst: int, dstData: bool)
      requires Valid(t) && Fresh(t) && 0 <= reg < 8 && 0 <= dst < 8
      requires MapOf(t, Slot(isData, reg)) != -1 && MapOf(t, Slot(dstData, dst)) == -1
      modifies this`t
      ensures Valid(t)
      ensures Values(t) == Values(old(t))[Slot(dstData, dst) := Values(old(t))[Slot(isData, reg)]]
      ensures BookOf(t) == MovedToHome(BookOf(old(t)), Slot(isData, reg), Slot(dstData, dst))
    {
      FreeHasRoom(t);
      Preferences();
      hide Add, BookOf, Got, Ordered, Written, Inverse, CleanMeansHome, LocksHaveUsers, Values, Logical,
           HasFree, NeedsNew, SlotOf, Swap, Preferred, AllRegs, AddressRegs;
      var x := GetAndLock(reg, isData, {}, true, 2);
      CachedValue(t, Slot(isData, reg));
      Reorder(x, BO_NORMAL);
      AddZero(Plain(t, x));
      WriteBack(dst, dstData, x, ZERO);
    }

    /** The source is read straight from its home slot. */
    method MoveFromHome(reg: int, isData: bool, dst: int, dstData: bool)
      requires Valid(t) && Fresh(t) && 0 <= reg < 8 && 0 <= dst < 8 && MapOf(t, Slot(isData, reg)) == -1
      modifies this`t
      ensures Valid(t)
      ensures Values(t) == Values(old(t))[Slot(dstData, dst) := Values(old(t))[Slot(isData, reg)]]
      ensures BookOf(t) == MovedFromHome(BookOf(old(t)), Slot(dstData, dst))
    {
      ghost var s, d := Slot(isData, reg), Slot(dstData, dst);
      assert t.users[0] <= 0;
      Uncached(t, s);
      var to := if dstData then t.dregMap[dst] else t.aregMap[dst];
      assert to == MapOf(t, d);
      FreeHasRoom(t);
      WhereIsMap(t, s);
      WhereIsMap(t, d);
      if s != d {
        OthersStay(BookOf(t), AllRegs(), d, s);
      }
      Preferences();
      hide Add, Inverse, CleanMeansHome, LocksHaveUsers, Values, Logical, SlotOf, BestChoice, Swap, HasFree,
           NeedsNew, BookOf, Pick, Emptied, Adopted, Got, Refilled, Where, Preferred, AllRegs, AddressRegs;
      if to == -1 {
        var x := GetFree(AllRegs());
        Uncached(t, s);
        Adopt(x, dst, dstData, t.home[Slot(isData, reg)]);
      } else {
        NotLocked(t, d);
        var x := GetAndLock(dst, dstData, {}, true, 2);
        WhereIsMap(t, s);
        Uncached(t, s);
        Refill(x, dst, dstData, t.home[Slot(isData, reg)], BO_NORMAL);
      }
    }

    /** An empty register becomes the cache register of a 68k register that is not cached. */
    method Adopt(x: int, reg: int, isData: bool, v: Word)
      requires Valid(t) && 0 <= x < 8 && x != R_ESP && t.cacheReg[x] == -1 && 0 <= reg < 8
      requires MapOf(t, Slot(isData, reg)) == -1
      modifies this`t
      ensures t.locked == old(t.locked) && t.users == old(t.users) && t.home == old(t.home)
      ensures Valid(t) && Values(t) == Values(old(t))[Slot(isData, reg) := v]
      ensures BookOf(t) == Adopted(BookOf(old(t)), x, Slot(isData, reg), ZERO, BO_NORMAL)
    {
      hide Inverse, CleanMeansHome, Values, Logical, SlotOf, LocksHaveUsers, Add, BookOf, Adopted;
      Enter(x, reg, isData);
      t := t.(constOffset := t.constOffset[x := ZERO]);
      t := t.(x86 := t.x86[x := v]);
      t := t.(byteOrder := t.byteOrder[x := BO_NORMAL]);
      t := t.(dirty := t.dirty[x := true]);
      ghost var filled := old(t).(x86 := old(t.x86)[x := v], byteOrder := old(t.byteOrder)[x := BO_NORMAL]);
      ScratchKeeps(old(t), filled, x);
      AddZero(v);
      AdoptKeeps(filled, t, x, Slot(isData, reg));
      ScratchBook(old(t), filled, x);
      AdoptedBook(filled, t, x, Slot(isData, reg));
    }

    /** Both registers are cached. */
    method MoveCached(reg: int, isData: bool, dst: int, dstData: bool)
      requires Valid(t) && Fresh(t) && 0 <= reg < 8 && 0 <= dst < 8
      requires MapOf(t, Slot(isData, reg)) != -1 && MapOf(t, Slot(dstData, dst)) != -1
      modifies this`t
      ensures Valid(t)
      ensures var v, s, d := Values(old(t)), Slot(isData, reg), Slot(dstData, dst);
              Values(t) == v[d := if Reverses(BookOf(old(t)), s, d) then SwapLong(v[s]) else v[s]]
      ensures BookOf(t) == MovedCached(BookOf(old(t)), Slot(isData, reg), Slot(dstData, dst))
    {
      CachedMove(t, Slot(isData, reg), Slot(dstData, dst));
      hide Add, CleanMeansHome, Inverse, Values, Logical, LocksHaveUsers, SlotOf, SwapLong, BookOf, EntryOf,
           BothLocked, MoveWritten, Reverses;
      var xd, xs, scrambled := LockBoth(reg, isData, dst, dstData);
      LockedInUse(t);
      EntryIs(t, xs);
      StoreMoved(reg, isData, dst, dstData, xd, xs, if scrambled then BO_SWAPPED_LONG else BO_NORMAL);
    }

    /** The first part of compile_loadeas: both registers locked, and whether the operation is done
        in swapped order. */
    method LockBoth(reg: int, isData: bool, dst: int, dstData: bool) returns (xd: int, xs: int, scrambled: bool)
      requires Valid(t) && Fresh(t) && 0 <= reg < 8 && 0 <= dst < 8
      requires MapOf(t, Slot(isData, reg)) != -1 && MapOf(t, Slot(dstData, dst)) != -1
      modifies this`t
      ensures Valid(t) && Values(t) == Values(old(t))
      ensures BothIn(t, Slot(isData, reg), xd, xs)
      ensures (BookOf(t), xd, xs, scrambled) == BothLocked(BookOf(old(t)), Slot(isData, reg), Slot(dstData, dst))
    {
      NotLocked(t, Slot(dstData, dst));
      hide Inverse, CleanMeansHome, LocksHaveUsers, Values, HasFree, NeedsNew, InLocked, BothIn, BookOf,
           DestLocked, Got, MapOf, Fresh;
      var possible: bool;
      xd, possible := LockDest(dst, dstData);
      ghost var mid := t;
      OneInUse(old(t), mid, Slot(dstData, dst), xd);
      xs, scrambled := LockSource(reg, isData, possible);
      ThenBoth(old(t), mid, t, Slot(isData, reg), Slot(dstData, dst), xd, xs);
    }

    /** The cached source; the operation is only scrambled if this is not in normal order either. */
    method LockSource(reg: int, isData: bool, possible: bool) returns (xs: int, scrambled: bool)
      requires Valid(t) && HasFree(t) && 0 <= reg < 8
      modifies this`t
      ensures Valid(t) && Values(t) == Values(old(t))
      ensures InLocked(old(t), t, Slot(isData, reg), xs, true, 2)
      ensures var (f, x) := Got(BookOf(old(t)), AllRegs(), Slot(isData, reg), true, 2);
              BookOf(t) == f && xs == x && (scrambled <==> possible && Used(f, x) && f.e[x].order != BO_NORMAL)
    {
      Preferences();
      hide Inverse, CleanMeansHome, LocksHaveUsers, Values, HasFree, NeedsNew, LockedKept, BookOf, Got, EntryOf,
           MapOf, Preferred, AllRegs, AddressRegs;
      xs := GetAndLock(reg, isData, {}, true, 2);
      EntryIs(t, xs);
      scrambled := possible && t.byteOrder[xs] != BO_NORMAL;
    }

    /** The end of compile_loadeas and compile_storeea for a source in an x86 register. */
    method StoreMoved(reg: int, isData: bool, dst: int, dstData: bool, xd: int, xs: int, order: int)
      requires Valid(t) && 0 <= reg < 8 && 0 <= dst < 8 && 0 <= xd < 8 && 0 <= xs < 8
               && (order == BO_NORMAL || order == BO_SWAPPED_LONG)
      requires t.users[xs] > 0 && xs != R_ESP && MapOf(t, Slot(isData, reg)) == xs && t.constOffset[xs] == ZERO
      requires xd == xs ==> Slot(isData, reg) == Slot(dstData, dst)
      modifies this`t
      ensures t.locked == old(t.locked) && t.users == old(t.users)
      ensures Valid(t)
      ensures var v, s, d := Values(old(t)), Slot(isData, reg), Slot(dstData, dst);
              Values(t) == v[d := if s != d && order != BO_NORMAL && !old(t.dirty[xs]) then SwapLong(v[s]) else v[s]]
      ensures BookOf(t) == MoveWritten(BookOf(old(t)), xd, xs, Slot(dstData, dst), order)
    {
      ghost var s := Slot(isData, reg);
      assert SlotOf(t, xs) == s;
      CachedValue(t, s);
      hide Add, CleanMeansHome, LocksHaveUsers, Inverse, Values, Logical, BookOf, Ordered, Written;
      Reorder(xd, order);
      Reorder(xs, order);
      AddZero(Plain(t, xs));
      AddZero(t.x86[xs]);
      WriteBack(dst, dstData, xs, ZERO);
    }
  }

  // ------------------------------------------------------------ value-level lemmas

  /** Moving an amount between a register and its pending offset changes no logical value. */
  lemma OffsetKeeps(t: Tables, u: Tables, x: int, offset: Word)
    requires Valid(t) && 0 <= x < 8 && Shape(u)
    requires u == t.(x86 := t.x86[x := Add(Plain(t, x), offset)], byteOrder := t.byteOrder[x := BO_NORMAL],
                     constOffset := u.constOffset, dirty := u.dirty)
    requires if t.cacheReg[x] == -1 then u.constOffset == t.constOffset && u.dirty == t.dirty
             else u.constOffset == t.constOffset[x := Sub(t.constOffset[x], offset)] && u.dirty == t.dirty[x := true]
    ensures Valid(u) && Values(u) == Values(t)
  {
    hide Add;
    assert forall y :: 0 <= y < 8 ==> SlotOf(u, y) == SlotOf(t, y);
    assert forall s :: 0 <= s < 16 ==> MapOf(u, s) == MapOf(t, s);
    forall s | 0 <= s < 16 ensures Logical(u, s) == Logical(t, s) {
      if MapOf(t, s) == x {
        assert SlotOf(t, x) == s;
        AddSubCancels(Plain(t, x), offset, t.constOffset[x]);
      }
    }
  }

  // -------------------------------------------- what the compiler keeps book of

  /** An x86 register as far as the 68k registers go. */
  datatype Cached = Empty | Holds(slot: int, dirty: bool, offset: Word, order: int)

  type Cache = e: seq<Cached> | |e| == 8 witness [Empty, Empty, Empty, Empty, Empty, Empty, Empty, Empty]

  /** All that decides what is emitted next: what the x86 registers hold, which of them are in use, and
      the locks.  No data of the program is in it. */
  datatype Book = Book(e: Cache, busy: set<int>, locks: seq<int>)

  ghost function EntryOf(t: Tables, x: int): Cached
    requires Shape(t) && 0 <= x < 8
  {
    if t.cacheReg[x] == -1 then Empty else Holds(SlotOf(t, x), t.dirty[x], t.constOffset[x], t.byteOrder[x])
  }

  ghost function BookOf(t: Tables): (b: Book)
    requires Shape(t)
  {
    Book(seq(8, x requires 0 <= x < 8 => EntryOf(t, x)), (set x | 0 <= x < 8 && t.users[x] > 0), t.locked)
  }

  function WhereFrom(b: Book, s: int, i: nat): (x: int)
    requires i <= 8
    ensures x == -1 || (i <= x < 8 && b.e[x].Holds? && b.e[x].slot == s)
    ensures x == -1 ==> forall y :: i <= y < 8 && b.e[y].Holds? ==> b.e[y].slot != s
    decreases 8 - i
  {
    if i == 8 then -1 else if b.e[i].Holds? && b.e[i].slot == s then i else WhereFrom(b, s, i + 1)
  }

  /** The register that holds slot s, or -1. */
  function Where(b: Book, s: int): (x: int)
    ensures -1 <= x < 8
  {
    WhereFrom(b, s, 0)
  }

  /** The 24-step search of get_free_x86_register, from step c on. */
  function Pick(b: Book, preferred: set<int>, c: nat): (x: int)
    requires c <= 24
    ensures -1 <= x < 8
    decreases 24 - c
  {
    if c == 24 then -1
    else if (c < 16 && c % 8 !in preferred) || (c < 8 && b.e[c % 8].Holds?) || c % 8 in b.busy
      then Pick(b, preferred, c + 1)
    else c % 8
  }

  predicate Used(b: Book, x: int) { 0 <= x < 8 && b.e[x].Holds? }

  function Emptied(b: Book, x: int): Book { if Used(b, x) then b.(e := b.e[x := Empty]) else b }

  function Ordered(b: Book, x: int, order: int): Book {
    if Used(b, x) then b.(e := b.e[x := b.e[x].(order := order)]) else b
  }

  function Settled(b: Book, x: int): Book {
    if Used(b, x) then b.(e := b.e[x := b.e[x].(dirty := true, offset := ZERO, order := BO_NORMAL)]) else b
  }

  function Refilled(b: Book, x: int, order: int): Book {
    if Used(b, x) then b.(e := b.e[x := b.e[x].(dirty := true, order := order)]) else b
  }

  function Held(b: Book, x: int, s: int): Book {
    if 0 <= x < 8 then b.(e := b.e[x := Holds(s, false, ZERO, BO_NORMAL)]) else b
  }

  function Adopted(b: Book, x: int, s: int, offset: Word, order: int): Book {
    if 0 <= x < 8 then b.(e := b.e[x := Holds(s, true, offset, order)]) else b
  }

  function Locked(b: Book, x: int, lockType: int): Book {
    if 0 <= x < 8 && |b.locks| == 8 then b.(busy := b.busy + {x}, locks := b.locks[x := lockType]) else b
  }

  function Renewed(b: Book): Book { b.(busy := {R_ESP}, locks := [0, 0, 0, 0, 2, 0, 0, 0]) }

  function Loaded(b: Book, want: set<int>, s: int): (Book, int) {
    var x := Pick(b, want, 0);
    (Held(Emptied(b, x), x, s), x)
  }

  /** From x to the register y, which has been emptied for it, with the offset added. */
  function Moved(b: Book, x: int, y: int): Book {
    if !Used(b, x) || !(0 <= y < 8) then b
    else
      var c, changed := b.e[x], b.e[x].offset != ZERO;
      b.(e := b.e[x := Empty][y := Holds(c.slot, changed || c.dirty, ZERO, if changed then BO_NORMAL else c.order)])
  }

  predicate Conflict(b: Book, x: int, noOffset: bool, lockType: int) {
    Used(b, x) && |b.locks| == 8
    && (b.locks[x] == 2 || (b.locks[x] == 1 && (lockType == 2 || (b.e[x].offset != ZERO && noOffset))))
  }

  function Placed(b: Book, want: set<int>, s: int, noOffset: bool, lockType: int): (Book, int) {
    var x := Where(b, s);
    if x == -1 then Loaded(b, want, s)
    else if Conflict(b, x, noOffset, lockType) then (Moved(b, x, Pick(b, want, 0)), Pick(b, want, 0))
    else (b, x)
  }

  function Wanted(b: Book, want: set<int>, s: int, noOffset: bool, lockType: int): (Book, int) {
    var (c, x) := Placed(b, want, s, noOffset, lockType);
    (if noOffset && Used(c, x) && c.e[x].offset != ZERO then Settled(c, x) else c, x)
  }

  /** get_and_lock_68k_reg */
  function Got(b: Book, want: set<int>, s: int, noOffset: bool, lockType: int): (Book, int) {
    var (c, x) := Wanted(b, want, s, noOffset, lockType);
    (Locked(c, x, lockType), x)
  }

  function SyncedEntry(b: Book, x: int, flush: bool): Book {
    if !Used(b, x) then b
    else if flush then Emptied(b, x)
    else b.(e := b.e[x := b.e[x].(offset := ZERO,
                                  order := if b.e[x].dirty || b.e[x].offset != ZERO then BO_NORMAL else b.e[x].order)])
  }

  function SyncedTo(b: Book, flush: bool, n: nat): Book {
    if n == 0 then b else SyncedEntry(SyncedTo(b, flush, n - 1), n - 1, flush)
  }

  function Cleaned(b: Book): Book {
    b.(e := seq(8, x requires 0 <= x < 8 => if b.e[x].Holds? then b.e[x].(dirty := false) else Empty))
  }

  /** sync_reg_cache */
  function AllSynced(b: Book, flush: bool): Book { Cleaned(SyncedTo(b, flush, 8)) }

  function Stepped(b: Book, reg: int, delta: Word, predecrement: bool, want: set<int>): Book {
    var (c, x) := Got(b, want, 8 + reg, false, 1);
    if Used(c, x) then
      c.(e := c.e[x := c.e[x].(order := BO_NORMAL, offset := Step(c.e[x].offset, delta, predecrement))])
    else c
  }

  function Prepared(b: Book, areg: int): (Book, int) {
    var (c, a) := Got(b, AddressRegs(), 8 + areg, false, 1);
    (Ordered(c, a, BO_NORMAL), a)
  }

  function AfterStore(b: Book, s: int, areg: int): Book {
    var (c, a) := Prepared(b, areg);
    var (d, x) := Got(c, AllRegs(), s, true, 2);
    Ordered(Ordered(d, x, BO_SWAPPED_LONG), a, BO_NORMAL)
  }

  function Taken(b: Book): (Book, int) {
    var x := Pick(b, AllRegs(), 0);
    (Locked(Emptied(b, x), x, 2), x)
  }

  function Fetched(b: Book, a: int): (Book, int) {
    var (c, x) := Taken(b);
    (Ordered(c, a, BO_NORMAL), x)
  }

  function Evicted(b: Book, s: int): Book { Emptied(b, Where(b, s)) }

  /** The destination register s is given the result in x; `order` is the byte order of x. */
  function Written(b: Book, x: int, s: int, offset: Word, order: int): Book {
    if Used(b, x) && b.e[x].slot == s then b.(e := b.e[x := b.e[x].(dirty := true, offset := offset)])
    else Adopted(Evicted(Emptied(b, x), s), x, s, offset, if Used(b, x) then BO_NORMAL else order)
  }

  function DestLocked(b: Book, d: int): (Book, int, bool) {
    var (c, x) := Got(b, AllRegs(), d, true, 2);
    var order := if Used(c, x) then c.e[x].order else BO_NORMAL;
    (if order != BO_NORMAL && order != BO_SWAPPED_LONG then Ordered(c, x, BO_NORMAL) else c,
     x, d < 8 && order == BO_SWAPPED_LONG)
  }

  function LoadedFresh(b: Book, d: int, a: int): Book {
    var e := if d < 8 then Pick(b, AllRegs(), 0) else -1;
    var (c, x) := Fetched(Emptied(b, e), a);
    Written(Ordered(Ordered(c, e, BO_NORMAL), x, BO_NORMAL), x, d, ZERO, BO_NORMAL)
  }

  function LoadedOver(b: Book, d: int, a: int): Book {
    var (c, y, scrambled) := DestLocked(b, d);
    if scrambled then Refilled(Ordered(c, a, BO_NORMAL), y, BO_SWAPPED_LONG)
    else
      var (f, x) := Fetched(c, a);
      Written(Ordered(Ordered(f, y, BO_NORMAL), x, BO_NORMAL), x, d, ZERO, BO_NORMAL)
  }

  function AfterLoad(b: Book, d: int, areg: int): Book {
    var (c, a) := Prepared(b, areg);
    if Where(c, d) == -1 then LoadedFresh(c, d, a) else LoadedOver(c, d, a)
  }

  function MovedFromHome(b: Book, d: int): Book {
    if Where(b, d) == -1 then
      var x := Pick(b, AllRegs(), 0);
      Adopted(Emptied(b, x), x, d, ZERO, BO_NORMAL)
    else
      var (c, x) := Got(b, AllRegs(), d, true, 2);
      Refilled(c, x, BO_NORMAL)
  }

  function BothLocked(b: Book, s: int, d: int): (Book, int, int, bool) {
    var (c, y, possible) := DestLocked(b, d);
    var (f, x) := Got(c, AllRegs(), s, true, 2);
    (f, y, x, possible && Used(f, x) && f.e[x].order != BO_NORMAL)
  }

  function MoveWritten(b: Book, y: int, x: int, d: int, order: int): Book {
    Written(Ordered(Ordered(b, y, order), x, order), x, d, ZERO, order)
  }

  function MovedCached(b: Book, s: int, d: int): Book {
    var (c, y, x, scrambled) := BothLocked(b, s, d);
    MoveWritten(c, y, x, d, if scrambled then BO_SWAPPED_LONG else BO_NORMAL)
  }

  function MovedToHome(b: Book, s: int, d: int): Book {
    var (c, x) := Got(b, AllRegs(), s, true, 2);
    Written(Ordered(c, x, BO_NORMAL), x, d, ZERO, BO_NORMAL)
  }

  function AfterMove(b: Book, s: int, d: int): Book {
    if Where(b, s) == -1 then MovedFromHome(b, d)
    else if Where(b, d) == -1 then MovedToHome(b, s, d)
    else MovedCached(b, s, d)
  }

  /** MOVE.L from slot s to slot d reverses the bytes: both are cached, the destination is a data register in
      swapped order, and the source is not in normal order although clean; neither has an offset. */
  predicate Reverses(b: Book, s: int, d: int) {
    var x, y := Where(b, s), Where(b, d);
    && s != d && d < 8 && x != -1 && y != -1
    && b.e[y].order == BO_SWAPPED_LONG && b.e[y].offset == ZERO
    && b.e[x].order != BO_NORMAL && b.e[x].offset == ZERO && !b.e[x].dirty
  }

  /** sync_reg does nothing for a clean register without a pending offset; so a swapped one is
      still swapped when remove_x86r_from_cache declares it to be in normal order. */
  ghost predicate Misread(t: Tables, x: int)
    requires Shape(t) && 0 <= x < 8
  {
    t.cacheReg[x] != -1 && !t.dirty[x] && t.constOffset[x] == ZERO && t.byteOrder[x] != BO_NORMAL
  }

  lemma CleanIsHome(t: Tables, x: int)
    requires Valid(t) && 0 <= x < 8 && t.cacheReg[x] != -1 && !t.dirty[x]
    ensures t.home[SlotOf(t, x)] == Plain(t, x)
  {
  }

  lemma MappedIff(t: Tables, s: int, x: int)
    requires Valid(t) && 0 <= s < 16 && 0 <= x < 8
    ensures MapOf(t, s) == x <==> SlotOf(t, x) == s
  {
  }

  lemma RemovedIsUnmapped(t: Tables, x: int)
    requires Valid(t) && 0 <= x < 8
    ensures forall u :: Shape(u) && (if t.cacheReg[x] == -1 then u == t else Removed(t, u, x, false)) ==>
              u.cacheReg[x] == -1 && SlotOf(u, x) == -1 && (t.cacheReg[x] != -1 ==> u.byteOrder[x] == BO_NORMAL)
  {
  }

  /** The result register is removed, the old cache register of the destination evicted (m to b), and
      the result register adopted (b to u). */
  lemma WriteBackStep(t: Tables, m: Tables, b: Tables, u: Tables, x: int, s: int)
    requires Valid(t) && Valid(m) && Valid(b) && Shape(u) && 0 <= x < 8 && 0 <= s < 16 && SlotOf(t, x) != s
    requires Values(m) == Values(t) && Values(b) == Values(t)
    requires if t.cacheReg[x] == -1 then m == t else Removed(t, m, x, false)
    requires b.cacheReg[x] == -1 && b.x86[x] == m.x86[x] && b.byteOrder[x] == m.byteOrder[x]
    requires MapOf(b, s) == -1 && Remapped(b, u, s, x)
    requires u == b.(dregMap := u.dregMap, aregMap := u.aregMap, cacheReg := b.cacheReg[x := s % 8],
                     crData := b.crData[x := s < 8], constOffset := b.constOffset[x := u.constOffset[x]],
                     dirty := b.dirty[x := true])
    ensures Valid(u) && MapOf(u, s) == x
    ensures Values(u) == Values(t)[s := Add(if Misread(t, x) then t.x86[x] else Plain(t, x), u.constOffset[x])]
  {
    hide Inverse, CleanMeansHome, LocksHaveUsers, Values, Logical, Add;
    AdoptKeeps(b, u, x, s);
  }

  lemma Uncached(t: Tables, s: int)
    requires Valid(t) && 0 <= s < 16 && MapOf(t, s) == -1
    ensures Values(t)[s] == t.home[s]
  {
    assert Values(t)[s] == Logical(t, s);
  }

  lemma FreeHasRoom(t: Tables)
    requires Valid(t) && Fresh(t)
    ensures HasFree(t) && forall x :: 0 <= x < 8 && t.users[x] == 0 ==> x != R_ESP
  {
    assert t.users[0] <= 0;
  }

  lemma CachedSum(t: Tables, s: int)
    requires Valid(t) && 0 <= s < 16 && MapOf(t, s) != -1
    ensures var x := MapOf(t, s); 0 <= x < 8 && Values(t)[s] == Add(Plain(t, x), t.constOffset[x])
  {
    assert Values(t)[s] == Logical(t, s);
  }

  lemma CachedValue(t: Tables, s: int)
    requires Valid(t) && 0 <= s < 16 && MapOf(t, s) != -1 && t.constOffset[MapOf(t, s)] == ZERO
    ensures 0 <= MapOf(t, s) < 8 && Values(t)[s] == Plain(t, MapOf(t, s))
  {
    assert Values(t)[s] == Logical(t, s);
    AddZero(Plain(t, MapOf(t, s)));
  }

  /** Registers locked in t stand for the same numbers in u. */
  ghost predicate LockedKept(t: Tables, u: Tables)
    requires Shape(t) && Shape(u)
  {
    forall y :: 0 <= y < 8 && t.locked[y] != 0 ==> Plain(u, y) == Plain(t, y)
  }

  /** The 68k register with home slot s is in x, which the lock does not conflict with. */
  ghost predicate In(t: Tables, u: Tables, s: int, x: int, noOffset: bool, lockType: int)
    requires Shape(t) && Shape(u) && 0 <= s < 16
  {
    && 0 <= x < 8 && MapOf(u, s) == x && x != R_ESP && u.cacheReg[x] != -1
    && (noOffset ==> u.constOffset[x] == ZERO)
    && u.users == t.users && u.locked == t.locked && (u.locked[x] == 0 || (u.locked[x] == 1 && lockType == 1))
    && LockedKept(t, u)
  }

  /** The same, and it is locked. */
  ghost predicate InLocked(t: Tables, u: Tables, s: int, x: int, noOffset: bool, lockType: int)
    requires Shape(t) && Shape(u) && 0 <= s < 16
  {
    && 0 <= x < 8 && MapOf(u, s) == x && x != R_ESP && u.cacheReg[x] != -1
    && (noOffset ==> u.constOffset[x] == ZERO)
    && u.users == t.users[x := t.users[x] + 1] && u.locked == t.locked[x := lockType]
    && (t.locked[x] == 0 || (t.locked[x] == 1 && lockType == 1))
    && LockedKept(t, u)
  }

  lemma PlacedFits(t: Tables, m: Tables, s: int, x: int, noOffset: bool, lockType: int)
    requires Shape(t) && Shape(m) && 0 <= s < 16 && In(t, m, s, x, noOffset, lockType)
    ensures 0 <= x < 8 && (m.locked[x] == 0 || (m.locked[x] == 1 && lockType == 1))
  {
  }

  lemma ThenLocked(t: Tables, m: Tables, u: Tables, s: int, x: int, noOffset: bool, lockType: int)
    requires Shape(t) && Shape(m) && Shape(u) && 0 <= s < 16 && 0 <= x < 8 && In(t, m, s, x, noOffset, lockType)
    requires u == m.(locked := m.locked[x := lockType], users := m.users[x := m.users[x] + 1])
    ensures InLocked(t, u, s, x, noOffset, lockType)
  {
    hide Swap;
  }

  lemma ThenReordered(t: Tables, m: Tables, u: Tables, s: int, x: int)
    requires Shape(t) && Shape(m) && Shape(u) && 0 <= s < 16 && InLocked(t, m, s, x, true, 2)
    requires u == m.(x86 := u.x86, byteOrder := u.byteOrder) && forall y :: 0 <= y < 8 ==> Plain(u, y) == Plain(m, y)
    ensures InLocked(t, u, s, x, true, 2)
  {
    hide Swap, Plain;
  }

  lemma OneInUse(t: Tables, m: Tables, s: int, x: int)
    requires Shape(t) && Shape(m) && Fresh(t) && 0 <= s < 16 && InLocked(t, m, s, x, true, 2)
    ensures HasFree(m)
  {
    assert m.users[0] <= 0 || m.users[1] <= 0;
  }

  /** Two registers, exclusively locked; the second one holds slot s. */
  ghost predicate BothIn(u: Tables, s: int, xd: int, xs: int)
    requires Shape(u) && 0 <= s < 16
  {
    && 0 <= xd < 8 && 0 <= xs < 8 && xs != R_ESP && xs != xd
    && MapOf(u, s) == xs && u.constOffset[xs] == ZERO && u.cacheReg[xs] != -1 && u.locked[xs] == 2
  }

  lemma ThenBoth(t: Tables, m: Tables, u: Tables, s: int, d: int, xd: int, xs: int)
    requires Shape(t) && Shape(m) && Shape(u) && 0 <= s < 16 && 0 <= d < 16
    requires InLocked(t, m, d, xd, true, 2) && InLocked(m, u, s, xs, true, 2)
    ensures BothIn(u, s, xd, xs)
  {
    hide LockedKept;
  }

  lemma GotFrom(b: Book, want: set<int>, s: int, noOffset: bool, lockType: int)
    ensures var (c, x) := Wanted(b, want, s, noOffset, lockType);
            Got(b, want, s, noOffset, lockType) == (Locked(c, x, lockType), x)
  {
    hide Wanted;
  }

  lemma LockedInUse(t: Tables)
    requires Valid(t)
    ensures forall y :: 0 <= y < 8 && t.locked[y] != 0 ==> t.users[y] > 0
  {
  }

  lemma NotLocked(t: Tables, s: int)
    requires Valid(t) && Fresh(t) && 0 <= s < 16 && MapOf(t, s) != -1
    ensures HasFree(t) && !NeedsNew(t, s, true, 2)
  {
    assert t.users[0] <= 0;
    assert SlotOf(t, MapOf(t, s)) == s;
  }

  // ------------------------------------------------------- the book of the tables

  /** An entry of the book. */
  lemma EntryIs(t: Tables, x: int)
    requires Shape(t) && 0 <= x < 8
    ensures var b := BookOf(t);
            && b.e[x] == EntryOf(t, x) && (Used(b, x) <==> t.cacheReg[x] != -1) && b.locks == t.locked
            && (x in b.busy <==> t.users[x] > 0)
            && (t.cacheReg[x] != -1 ==>
                  b.e[x].dirty == t.dirty[x] && b.e[x].offset == t.constOffset[x]
                    && b.e[x].order == t.byteOrder[x] && b.e[x].slot == SlotOf(t, x))
  {
    hide SlotOf;
  }

  ghost predicate SameBut(t: Tables, u: Tables, x: int)
    requires Shape(t) && Shape(u)
  {
    forall y :: 0 <= y < 8 && y != x ==> EntryOf(u, y) == EntryOf(t, y)
  }

  /** Changing one entry. */
  lemma BookChanged(t: Tables, u: Tables, x: int)
    requires Shape(t) && Shape(u) && 0 <= x < 8 && SameBut(t, u, x) && u.users == t.users && u.locked == t.locked
    ensures BookOf(u) == BookOf(t).(e := BookOf(t).e[x := EntryOf(u, x)])
  {
    hide EntryOf;
    assert BookOf(u).e == BookOf(t).e[x := EntryOf(u, x)] by {
      forall y | 0 <= y < 8 ensures BookOf(u).e[y] == BookOf(t).e[x := EntryOf(u, x)][y] {
      }
    }
  }

  lemma BookSame(t: Tables, u: Tables)
    requires Shape(t) && Shape(u) && u.users == t.users && u.locked == t.locked
    requires forall y :: 0 <= y < 8 ==> EntryOf(u, y) == EntryOf(t, y)
    ensures BookOf(u) == BookOf(t)
  {
    hide EntryOf;
    assert BookOf(u).e == BookOf(t).e;
  }

  lemma OrderedBook(t: Tables, u: Tables, x: int)
    requires Shape(t) && Shape(u) && 0 <= x < 8
    requires u == t.(x86 := u.x86, byteOrder := t.byteOrder[x := u.byteOrder[x]])
    ensures BookOf(u) == Ordered(BookOf(t), x, u.byteOrder[x])
  {
    assert SameBut(t, u, x);
    BookChanged(t, u, x);
    EntryIs(t, x);
    hide BookOf, SameBut;
  }

  lemma ScratchBook(t: Tables, u: Tables, x: int)
    requires Shape(t) && Shape(u) && 0 <= x < 8 && t.cacheReg[x] == -1
    requires u == t.(x86 := u.x86, byteOrder := t.byteOrder[x := u.byteOrder[x]])
    ensures BookOf(u) == BookOf(t)
  {
    BookSame(t, u);
  }

  lemma RemovedBook(t: Tables, u: Tables, x: int, mayClobber: bool)
    requires Shape(t) && Shape(u) && 0 <= x < 8 && Removed(t, u, x, mayClobber)
    ensures BookOf(u) == Emptied(BookOf(t), x)
  {
    hide Plain, Misread;
    assert SameBut(t, u, x);
    BookChanged(t, u, x);
    EntryIs(t, x);
    hide BookOf, SameBut;
  }

  lemma FreedBook(t: Tables, u: Tables, x: int)
    requires Shape(t) && Shape(u) && 0 <= x < 8 && Freed(t, u, x)
    ensures BookOf(u) == Emptied(BookOf(t), x)
  {
    hide MapOf;
    assert SameBut(t, u, x);
    BookChanged(t, u, x);
    EntryIs(t, x);
    hide BookOf, SameBut;
  }

  lemma SettledBook(t: Tables, u: Tables, x: int)
    requires Shape(t) && Shape(u) && 0 <= x < 8
    requires u == t.(x86 := u.x86, byteOrder := t.byteOrder[x := BO_NORMAL],
                     constOffset := t.constOffset[x := ZERO], dirty := t.dirty[x := true])
    ensures BookOf(u) == Settled(BookOf(t), x)
  {
    assert SameBut(t, u, x);
    BookChanged(t, u, x);
    EntryIs(t, x);
    hide BookOf, SameBut;
  }

  lemma SteppedBook(t: Tables, u: Tables, x: int, delta: Word, predecrement: bool)
    requires Shape(t) && Shape(u) && 0 <= x < 8 && t.cacheReg[x] != -1
    requires u == t.(x86 := u.x86, byteOrder := t.byteOrder[x := BO_NORMAL],
                     constOffset := t.constOffset[x := Step(t.constOffset[x], delta, predecrement)])
    ensures var b := BookOf(t);
            Used(b, x) && BookOf(u) == b.(e := b.e[x := b.e[x].(order := BO_NORMAL,
                                                                offset := Step(b.e[x].offset, delta, predecrement))])
  {
    hide Step;
    assert SameBut(t, u, x);
    BookChanged(t, u, x);
    EntryIs(t, x);
    hide BookOf, SameBut;
  }

  lemma RefilledBook(t: Tables, u: Tables, x: int)
    requires Shape(t) && Shape(u) && 0 <= x < 8
    requires u == t.(x86 := u.x86, byteOrder := t.byteOrder[x := u.byteOrder[x]], dirty := t.dirty[x := true])
    ensures BookOf(u) == Refilled(BookOf(t), x, u.byteOrder[x])
  {
    assert SameBut(t, u, x);
    BookChanged(t, u, x);
    EntryIs(t, x);
    hide BookOf, SameBut;
  }

  lemma OverwrittenBook(t: Tables, u: Tables, x: int, s: int, order: int)
    requires Shape(t) && Shape(u) && 0 <= x < 8 && SlotOf(t, x) == s >= 0
    requires u == t.(constOffset := t.constOffset[x := u.constOffset[x]], dirty := t.dirty[x := true])
    ensures BookOf(u) == Written(BookOf(t), x, s, u.constOffset[x], order)
  {
    assert SameBut(t, u, x);
    BookChanged(t, u, x);
    EntryIs(t, x);
    hide BookOf, SameBut;
  }

  lemma AdoptedBook(t: Tables, u: Tables, x: int, s: int)
    requires Shape(t) && Shape(u) && 0 <= x < 8 && 0 <= s < 16
    requires u == t.(dregMap := u.dregMap, aregMap := u.aregMap, cacheReg := t.cacheReg[x := s % 8],
                     crData := t.crData[x := s < 8], constOffset := t.constOffset[x := u.constOffset[x]],
                     dirty := t.dirty[x := true])
    ensures BookOf(u) == Adopted(BookOf(t), x, s, u.constOffset[x], t.byteOrder[x])
  {
    assert SameBut(t, u, x);
    BookChanged(t, u, x);
    assert SlotOf(u, x) == s;
    hide BookOf, SameBut;
  }

  lemma HeldBook(t: Tables, u: Tables, x: int, s: int)
    requires Shape(t) && Shape(u) && 0 <= x < 8 && 0 <= s < 16
    requires t.byteOrder[x] == BO_NORMAL && t.constOffset[x] == ZERO && !t.dirty[x]
    requires u == t.(dregMap := u.dregMap, aregMap := u.aregMap, x86 := u.x86,
                     cacheReg := t.cacheReg[x := s % 8], crData := t.crData[x := s < 8])
    ensures BookOf(u) == Held(BookOf(t), x, s)
  {
    assert SameBut(t, u, x);
    BookChanged(t, u, x);
    assert SlotOf(u, x) == s;
    hide BookOf, SameBut;
  }

  lemma LockedBook(t: Tables, u: Tables, x: int, lockType: int)
    requires Shape(t) && Shape(u) && 0 <= x < 8 && t.users[x] >= 0
    requires u == t.(locked := t.locked[x := lockType], users := t.users[x := t.users[x] + 1])
    ensures BookOf(u) == Locked(BookOf(t), x, lockType)
  {
    assert BookOf(u).e == BookOf(t).e;
    assert BookOf(u).busy == BookOf(t).busy + {x};
  }

  lemma RenewedBook(t: Tables, u: Tables)
    requires Shape(t) && Shape(u) && Fresh(u) && u == t.(users := u.users, locked := u.locked)
    ensures BookOf(u) == Renewed(BookOf(t))
  {
    assert BookOf(u).e == BookOf(t).e;
    assert BookOf(u).busy == {R_ESP};
  }

  lemma CleanedBook(t: Tables, u: Tables)
    requires Shape(t) && Shape(u) && u == t.(dirty := u.dirty) && forall x :: 0 <= x < 8 ==> !u.dirty[x]
    ensures BookOf(u) == Cleaned(BookOf(t))
  {
    assert forall x :: 0 <= x < 8 ==>
             EntryOf(u, x) == (if t.cacheReg[x] == -1 then Empty else EntryOf(t, x).(dirty := false));
    assert BookOf(u).e == Cleaned(BookOf(t)).e;
  }

  lemma SyncedBook(t: Tables, u: Tables, x: int, flush: bool)
    requires Shape(t) && Shape(u) && 0 <= x < 8 && Synced(t, u, x, flush)
    ensures BookOf(u) == SyncedEntry(BookOf(t), x, flush)
  {
    hide Plain;
    assert SameBut(t, u, x);
    BookChanged(t, u, x);
    EntryIs(t, x);
    hide BookOf, SameBut;
  }

  /** A 68k register goes from x to y. */
  lemma MovedBook(t: Tables, u: Tables, x: int, y: int, s: int, changed: bool)
    requires Shape(t) && Shape(u) && 0 <= x < 8 && 0 <= y < 8 && x != y && 0 <= s < 16
    requires SlotOf(t, x) == s && (changed <==> t.constOffset[x] != ZERO)
    requires u.cacheReg == t.cacheReg[x := -1][y := s % 8] && u.crData == t.crData[x := s < 8][y := s < 8]
    requires u.constOffset == t.constOffset[x := ZERO][y := ZERO] && u.users == t.users && u.locked == t.locked
    requires u.dirty == t.dirty[x := false][y := changed || t.dirty[x]]
    requires u.byteOrder[y] == if changed then BO_NORMAL else t.byteOrder[x]
    requires forall z :: 0 <= z < 8 && z != x && z != y ==> u.byteOrder[z] == t.byteOrder[z]
    ensures BookOf(u) == Moved(BookOf(t), x, y)
  {
    EntryIs(t, x);
    var b, c := BookOf(t), BookOf(u);
    forall z | 0 <= z < 8 ensures c.e[z] == Moved(b, x, y).e[z] {
      EntryIs(u, z);
      EntryIs(t, z);
    }
    assert c.e == Moved(b, x, y).e;
  }

  lemma EmptiedHeld(b: Book, want: set<int>)
    ensures forall s: int ::
              Loaded(b, want, s) == (Held(Emptied(b, Pick(b, want, 0)), Pick(b, want, 0), s), Pick(b, want, 0))
  {
    hide Held, Emptied, Pick;
  }

  /** The target of a move is overwritten, whether it was emptied before or not. */
  lemma MovedAnyway(b: Book, x: int, y: int)
    requires x != y && Used(b, x)
    ensures Moved(Emptied(b, y), x, y) == Moved(b, x, y)
  {
    if Used(b, x) && Used(b, y) {
      var one, two := Moved(Emptied(b, y), x, y), Moved(b, x, y);
      forall z | 0 <= z < 8 ensures one.e[z] == two.e[z] {
      }
      assert one.e == two.e;
    }
  }

  lemma OrderedNone()
    ensures forall b: Book, order: int :: Ordered(b, -1, order) == b && Emptied(b, -1) == b
  {
  }

  /** One step of the search. */
  lemma PickStep(t: Tables, preferred: set<int>, c: nat)
    requires Shape(t) && c < 24
    ensures Pick(BookOf(t), preferred, c) ==
            if Rejected(t, preferred, c) then Pick(BookOf(t), preferred, c + 1) else c % 8
  {
    EntryIs(t, c % 8);
    hide BookOf, EntryOf;
  }

  /** The maps of the tables find what the book holds. */
  lemma WhereIsMap(t: Tables, s: int)
    requires Valid(t) && 0 <= s < 16
    ensures Where(BookOf(t), s) == MapOf(t, s)
  {
    var x, y := Where(BookOf(t), s), MapOf(t, s);
    assert y == -1 || 0 <= y < 8;
    if x != -1 {
      EntryIs(t, x);
      MappedIff(t, s, x);
    } else if y != -1 {
      EntryIs(t, y);
      MappedIff(t, s, y);
      hide BookOf, EntryOf;
      assert false;
    }
  }

  lemma CachedMove(t: Tables, s: int, d: int)
    requires Valid(t) && Fresh(t) && 0 <= s < 16 && 0 <= d < 16 && MapOf(t, s) != -1 && MapOf(t, d) != -1
    ensures var b := BookOf(t);
            var (f, y, x, scrambled) := BothLocked(b, s, d);
            && (s == d ==> !Reverses(b, s, d))
            && (s != d ==> Used(f, x) && (scrambled && !f.e[x].dirty <==> Reverses(b, s, d)))
  {
    WhereIsMap(t, s);
    WhereIsMap(t, d);
    NotEsp(t, s);
    NotEsp(t, d);
    NotReversed(BookOf(t), s, d);
    assert BookOf(t).locks == t.locked;
    hide BookOf, BothLocked, Reverses, Where;
    if s != d {
      MoveDecided(BookOf(t), s, d);
    }
  }

  lemma NotEsp(t: Tables, s: int)
    requires Valid(t) && 0 <= s < 16
    ensures MapOf(t, s) != R_ESP
  {
    MappedIff(t, s, R_ESP);
  }

  lemma NotReversed(b: Book, s: int, d: int)
    ensures s == d || Where(b, s) == -1 || Where(b, d) == -1 ==> !Reverses(b, s, d)
  {
  }

  /** Bringing in a 68k register brings in no other. */
  lemma OthersStay(b: Book, want: set<int>, d: int, s: int)
    requires Where(b, s) == -1 && s != d
    ensures Where(Got(b, want, d, true, 2).0, s) == -1
  {
    var c := Got(b, want, d, true, 2).0;
    assert forall y :: 0 <= y < 8 && b.e[y].Holds? ==> b.e[y].slot != s;
    hide Pick;
    assert forall y :: 0 <= y < 8 && c.e[y].Holds? ==> c.e[y].slot != s;
  }

  /** The locks of a fresh instruction let a cached register be taken as it is. */
  lemma GotAtOnce(b: Book, s: int, want: set<int>)
    requires Where(b, s) != -1 && |b.locks| == 8 && b.locks[Where(b, s)] == 0
    ensures var x := Where(b, s);
            Got(b, want, s, true, 2) == (Locked(if b.e[x].offset != ZERO then Settled(b, x) else b, x, 2), x)
  {
    hide Pick, Moved, Loaded, Settled;
  }

  /** Whether the move is one that reverses the bytes is decided by the book at its start. */
  lemma MoveDecided(b: Book, s: int, d: int)
    requires s != d && Where(b, s) != -1 && Where(b, d) != -1 && b.locks == [0, 0, 0, 0, 2, 0, 0, 0]
    requires Where(b, s) != R_ESP && Where(b, d) != R_ESP
    ensures var (f, y, x, scrambled) := BothLocked(b, s, d);
            Used(f, x) && (scrambled && !f.e[x].dirty <==> Reverses(b, s, d))
  {
    var x, y := Where(b, s), Where(b, d);
    GotAtOnce(b, d, AllRegs());
    var (c, y1, possible) := DestLocked(b, d);
    StillThere(b, c, s, y);
    GotAtOnce(c, s, AllRegs());
    hide Got, Where;
  }

  /** Changing another register's entry does not move slot s. */
  lemma StillThere(b: Book, c: Book, s: int, y: int)
    requires Where(b, s) != -1 && 0 <= y < 8
    requires forall z :: 0 <= z < 8 && z != y ==> c.e[z] == b.e[z]
    requires (b.e[y].Holds? ==> b.e[y].slot != s) && (c.e[y].Holds? ==> c.e[y].slot != s)
    ensures Where(c, s) == Where(b, s)
  {
    StillThereFrom(b, c, s, y, 0);
  }

  lemma {:induction false} StillThereFrom(b: Book, c: Book, s: int, y: int, i: nat)
    requires i <= 8 && WhereFrom(b, s, i) != -1 && 0 <= y < 8
    requires forall z :: 0 <= z < 8 && z != y ==> c.e[z] == b.e[z]
    requires (b.e[y].Holds? ==> b.e[y].slot != s) && (c.e[y].Holds? ==> c.e[y].slot != s)
    ensures WhereFrom(c, s, i) == WhereFrom(b, s, i)
    decreases 8 - i
  {
    if i < 8 && !(b.e[i].Holds? && b.e[i].slot == s) {
      StillThereFrom(b, c, s, y, i + 1);
    }
  }

  /** What removing a cached register x does to the tables. */
  ghost predicate Removed(t: Tables, u: Tables, x: int, mayClobber: bool)
    requires Shape(t) && Shape(u) && 0 <= x < 8
  {
    var s := SlotOf(t, x);
    && s != -1
    && u.cacheReg == t.cacheReg[x := -1] && u.crData == t.crData
    && u.users == t.users && u.locked == t.locked
    && u.dregMap == (if s < 8 then t.dregMap[s := -1] else t.dregMap)
    && u.aregMap == (if s < 8 then t.aregMap else t.aregMap[s - 8 := -1])
    && u.dirty == t.dirty[x := false] && u.constOffset == t.constOffset[x := ZERO]
    && u.home == t.home[s := Add(Plain(t, x), t.constOffset[x])]
    && u.byteOrder[x] == BO_NORMAL
    && u.x86[x] == (if Misread(t, x) then t.x86[x]
                    else if mayClobber then Add(Plain(t, x), t.constOffset[x]) else Plain(t, x))
    && forall y :: 0 <= y < 8 && y != x && (mayClobber || t.cacheReg[y] != -1 || t.users[y] > 0) ==>
         u.x86[y] == t.x86[y] && u.byteOrder[y] == t.byteOrder[y]
  }

  /** The first half of this, before the entry is cleared. */
  ghost predicate Unmapped(t: Tables, u: Tables, x: int, mayClobber: bool)
    requires Shape(t) && Shape(u) && 0 <= x < 8
  {
    var s := SlotOf(t, x);
    && s != -1
    && u == t.(dregMap := if s < 8 then t.dregMap[s := -1] else t.dregMap,
               aregMap := if s < 8 then t.aregMap else t.aregMap[s - 8 := -1],
               home := t.home[s := Add(Plain(t, x), t.constOffset[x])], x86 := u.x86, byteOrder := u.byteOrder)
    && (if t.dirty[x] || t.constOffset[x] != ZERO then
          && u.byteOrder[x] == BO_NORMAL
          && u.x86[x] == if mayClobber then Add(Plain(t, x), t.constOffset[x]) else Plain(t, x)
        else u.x86[x] == t.x86[x])
    && forall y :: 0 <= y < 8 && y != x && (mayClobber || t.cacheReg[y] != -1 || t.users[y] > 0) ==>
         u.x86[y] == t.x86[y] && u.byteOrder[y] == t.byteOrder[y]
  }

  lemma ThenCleared(t: Tables, m: Tables, u: Tables, x: int, mayClobber: bool)
    requires Shape(t) && Shape(m) && Shape(u) && 0 <= x < 8 && Unmapped(t, m, x, mayClobber)
    requires u == m.(dirty := m.dirty[x := false], cacheReg := m.cacheReg[x := -1],
                     constOffset := m.constOffset[x := ZERO], byteOrder := m.byteOrder[x := BO_NORMAL])
    ensures Removed(t, u, x, mayClobber)
  {
    hide Add;
    AddZero(Plain(t, x));
  }

  lemma RemovalKeeps(t: Tables, u: Tables, x: int, mayClobber: bool)
    requires Valid(t) && Shape(u) && 0 <= x < 8 && Removed(t, u, x, mayClobber)
    ensures Valid(u) && Values(u) == Values(t)
  {
    hide Add;
    var s := SlotOf(t, x);
    assert forall y :: 0 <= y < 8 && y != x ==> SlotOf(u, y) == SlotOf(t, y);
    assert SlotOf(u, x) == -1;
    assert forall r :: 0 <= r < 16 && r != s ==> MapOf(u, r) == MapOf(t, r);
    assert MapOf(u, s) == -1;
    forall r | 0 <= r < 16 ensures Logical(u, r) == Logical(t, r) {
      if r != s && MapOf(t, r) != -1 {
        assert SlotOf(t, MapOf(t, r)) == r;
      }
    }
  }

  /** Some register is not in use. */
  ghost predicate HasFree(t: Tables)
    requires Shape(t)
  {
    exists y :: 0 <= y < 8 && t.users[y] <= 0
  }

  /** get_and_lock_68k_reg needs a fresh register: nothing cached, or a conflicting lock. */
  ghost predicate NeedsNew(t: Tables, s: int, noOffset: bool, lockType: int)
    requires Shape(t) && Inverse(t) && 0 <= s < 16
  {
    var x := MapOf(t, s);
    x == -1 || t.locked[x] == 2
    || (t.locked[x] == 1 && (lockType == 2 || (t.constOffset[x] != ZERO && noOffset)))
  }

  /** Step c of the 24-step search passes over register c % 8. */
  ghost predicate Rejected(t: Tables, preferred: set<int>, c: int)
    requires Shape(t) && 0 <= c < 24
  {
    var x := c % 8;
    (c < 16 && x !in preferred) || (c < 8 && t.cacheReg[x] != -1) || t.users[x] > 0
  }

  /** The search discards nothing from the cache if a preferred register is idle, and
      leaves the preferred set only if all of it is in use. */
  ghost predicate BestChoice(t: Tables, preferred: set<int>, x: int)
    requires Shape(t) && 0 <= x < 8
  {
    && t.users[x] <= 0
    && ((exists y :: 0 <= y < 8 && y in preferred && t.users[y] <= 0 && t.cacheReg[y] == -1) ==>
          x in preferred && t.cacheReg[x] == -1)
    && ((exists y :: 0 <= y < 8 && y in preferred && t.users[y] <= 0) ==> x in preferred)
  }

  lemma ChoiceIsBest(t: Tables, preferred: set<int>, cnt: int)
    requires Shape(t) && 0 <= cnt < 24 && !Rejected(t, preferred, cnt)
    requires forall c :: 0 <= c < cnt ==> Rejected(t, preferred, c)
    ensures BestChoice(t, preferred, cnt % 8)
  {
    if cnt >= 8 {
      forall y | 0 <= y < 8 && y in preferred && t.users[y] <= 0 ensures t.cacheReg[y] != -1 {
        assert Rejected(t, preferred, y);
      }
    }
    if cnt >= 16 {
      forall y | 0 <= y < 8 && y in preferred ensures t.users[y] > 0 {
        assert Rejected(t, preferred, 8 + y);
      }
    }
  }

  lemma NoneIsFree(t: Tables, preferred: set<int>)
    requires Shape(t) && forall c :: 0 <= c < 24 ==> Rejected(t, preferred, c)
    ensures !HasFree(t)
  {
    forall y | 0 <= y < 8 ensures t.users[y] > 0 {
      assert Rejected(t, preferred, 16 + y);
    }
  }

  /** Register x has been emptied and nothing else has changed. */
  ghost predicate Freed(t: Tables, u: Tables, x: int)
    requires Shape(t) && Shape(u) && 0 <= x < 8
  {
    && u.cacheReg == t.cacheReg[x := -1] && u.crData == t.crData && u.users == t.users && u.locked == t.locked
    && u.dirty == t.dirty[x := false] && u.constOffset == t.constOffset[x := ZERO]
    && u.byteOrder == t.byteOrder[x := BO_NORMAL]
    && (forall y :: 0 <= y < 8 && y != x ==> u.x86[y] == t.x86[y])
    && (forall s :: 0 <= s < 16 ==> MapOf(u, s) == if MapOf(t, s) == x then -1 else MapOf(t, s))
    && (forall s :: 0 <= s < 16 && MapOf(t, s) != x ==> u.home[s] == t.home[s])
  }

  lemma FreedFromRemoved(t: Tables, m: Tables, u: Tables, x: int)
    requires Valid(t) && Shape(m) && Shape(u) && 0 <= x < 8
    requires if t.cacheReg[x] == -1 then m == t else Removed(t, m, x, true)
    requires u == m.(dirty := m.dirty[x := false], cacheReg := m.cacheReg[x := -1],
                     constOffset := m.constOffset[x := ZERO], byteOrder := m.byteOrder[x := BO_NORMAL])
    ensures Freed(t, u, x)
  {
    forall s | 0 <= s < 16
      ensures MapOf(u, s) == if MapOf(t, s) == x then -1 else MapOf(t, s)
    {
      if MapOf(t, s) == x {
        assert SlotOf(t, x) == s;
      }
    }
  }

  /** Resetting the entry of a register that caches nothing. */
  lemma ClearKeeps(t: Tables, u: Tables, x: int)
    requires Valid(t) && Shape(u) && 0 <= x < 8 && t.cacheReg[x] == -1
    requires u == t.(dirty := t.dirty[x := false], cacheReg := t.cacheReg[x := -1],
                     constOffset := t.constOffset[x := ZERO], byteOrder := t.byteOrder[x := BO_NORMAL])
    ensures Valid(u) && Values(u) == Values(t)
  {
    assert u.cacheReg == t.cacheReg;
    assert forall y :: 0 <= y < 8 ==> SlotOf(u, y) == SlotOf(t, y);
    assert forall s :: 0 <= s < 16 ==> MapOf(u, s) == MapOf(t, s);
    forall s | 0 <= s < 16 ensures Logical(u, s) == Logical(t, s) {
      assert MapOf(t, s) != -1 ==> SlotOf(t, MapOf(t, s)) == s;
    }
  }

  /** Locks and users do not enter the logical values. */
  lemma LocksKeep(t: Tables, u: Tables)
    requires Valid(t) && Shape(u) && u == t.(users := u.users, locked := u.locked) && LocksHaveUsers(u)
    ensures Valid(u) && Values(u) == Values(t)
  {
    assert forall y :: 0 <= y < 8 ==> SlotOf(u, y) == SlotOf(t, y);
    assert forall s :: 0 <= s < 16 ==> MapOf(u, s) == MapOf(t, s);
    forall s | 0 <= s < 16 ensures Logical(u, s) == Logical(t, s) {
    }
  }

  /** u differs from t in the map entry of slot s only. */
  ghost predicate Remapped(t: Tables, u: Tables, s: int, x: int)
    requires Shape(t) && Shape(u) && 0 <= s < 16
  {
    && u.dregMap == (if s < 8 then t.dregMap[s := x] else t.dregMap)
    && u.aregMap == (if s < 8 then t.aregMap else t.aregMap[s - 8 := x])
  }

  lemma EnterKeepsMaps(t: Tables, u: Tables, x: int, s: int)
    requires Valid(t) && Shape(u) && 0 <= x < 8 && 0 <= s < 16
    requires MapOf(t, s) == -1 && t.cacheReg[x] == -1 && Remapped(t, u, s, x)
    requires u.cacheReg == t.cacheReg[x := s % 8] && u.crData == t.crData[x := s < 8]
    ensures SlotOf(u, x) == s && MapOf(u, s) == x && Inverse(u)
    ensures forall y :: 0 <= y < 8 && y != x ==> SlotOf(u, y) == SlotOf(t, y)
    ensures forall r :: 0 <= r < 16 && r != s ==> MapOf(u, r) == MapOf(t, r)
  {
    EnterMoves(t, u, x, s);
    hide Remapped, SlotOf, MapOf, CleanMeansHome, LocksHaveUsers;
  }

  lemma EnterMoves(t: Tables, u: Tables, x: int, s: int)
    requires Valid(t) && Shape(u) && 0 <= x < 8 && 0 <= s < 16
    requires t.cacheReg[x] == -1 && Remapped(t, u, s, x)
    requires u.cacheReg == t.cacheReg[x := s % 8] && u.crData == t.crData[x := s < 8]
    ensures SlotOf(u, x) == s && MapOf(u, s) == x && SlotOf(t, x) == -1
    ensures forall y :: 0 <= y < 8 && y != x ==> SlotOf(u, y) == SlotOf(t, y)
    ensures forall r :: 0 <= r < 16 && r != s ==> MapOf(u, r) == MapOf(t, r)
  {
    hide Plain, CleanMeansHome;
    assert forall y :: 0 <= y < 8 && y != x ==> SlotOf(u, y) == SlotOf(t, y);
    assert forall r :: 0 <= r < 16 && r != s ==> MapOf(u, r) == MapOf(t, r);
  }

  /** Loading an uncached 68k register into an empty x86 register. */
  lemma LoadKeeps(t: Tables, u: Tables, x: int, s: int)
    requires Valid(t) && Shape(u) && 0 <= x < 8 && 0 <= s < 16
    requires MapOf(t, s) == -1 && t.cacheReg[x] == -1
    requires t.byteOrder[x] == BO_NORMAL && t.constOffset[x] == ZERO && !t.dirty[x]
    requires Remapped(t, u, s, x)
    requires u == t.(dregMap := u.dregMap, aregMap := u.aregMap, x86 := t.x86[x := t.home[s]],
                     cacheReg := t.cacheReg[x := s % 8], crData := t.crData[x := s < 8])
    ensures Valid(u) && Values(u) == Values(t)
  {
    hide Add;
    EnterKeepsMaps(t, u, x, s);
    AddZero(t.home[s]);
    forall r | 0 <= r < 16 ensures Logical(u, r) == Logical(t, r) {
      assert r != s && MapOf(t, r) != -1 ==> SlotOf(t, MapOf(t, r)) == r;
    }
  }

  lemma FreeIsNotEsp(t: Tables, x: int)
    requires Valid(t) && 0 <= x < 8 && t.users[x] == 0
    ensures x != R_ESP
  {
  }

  lemma LoadStep(t: Tables, m: Tables, u: Tables, want: set<int>, x: int, s: int)
    requires Valid(t) && Valid(m) && Shape(u) && 0 <= x < 8 && 0 <= s < 16 && Values(m) == Values(t)
    requires t.users[x] == 0 && Freed(t, m, x) && BestChoice(t, want, x) && MapOf(t, s) == -1
    requires Remapped(m, u, s, x)
    requires u == m.(dregMap := u.dregMap, aregMap := u.aregMap, x86 := m.x86[x := m.home[s]],
                     cacheReg := m.cacheReg[x := s % 8], crData := m.crData[x := s < 8])
    ensures Valid(u) && Values(u) == Values(t)
    ensures MapOf(u, s) == x && u.constOffset[x] == ZERO && u.users[x] == 0
    ensures forall y :: 0 <= y < 8 && u.users[y] > 0 ==> Plain(u, y) == Plain(t, y)
    ensures BookOf(u) == Held(BookOf(m), x, s)
  {
    HeldBook(m, u, x, s);
    hide Inverse, CleanMeansHome, LocksHaveUsers, Values, Logical, SlotOf, Swap, BookOf, Held;
    LoadKeeps(m, u, x, s);
  }

  /** The 68k register with home slot s has moved from x to the empty register y. */
  ghost predicate Transferred(t: Tables, u: Tables, x: int, y: int, s: int)
    requires Valid(t) && Shape(u)
  {
    && 0 <= x < 8 && 0 <= y < 8 && x != y && 0 <= s < 16
    && MapOf(t, s) == x && t.cacheReg[y] == -1
    && Remapped(t, u, s, y)
    && u.cacheReg == t.cacheReg[x := -1][y := s % 8] && u.crData == t.crData[x := s < 8][y := s < 8]
    && u.users == t.users && u.locked == t.locked && u.home == t.home
    && u.constOffset == t.constOffset[x := ZERO][y := ZERO]
    && Plain(u, y) == Add(Plain(t, x), t.constOffset[x])
    && (!u.dirty[y] ==> !t.dirty[x] && t.constOffset[x] == ZERO && u.byteOrder[y] == t.byteOrder[x])
    && forall z :: 0 <= z < 8 && z != x && z != y ==>
         u.x86[z] == t.x86[z] && u.byteOrder[z] == t.byteOrder[z] && u.dirty[z] == t.dirty[z]
  }

  lemma TransferKeepsMaps(t: Tables, u: Tables, x: int, y: int, s: int)
    requires Valid(t) && Shape(u) && Transferred(t, u, x, y, s)
    ensures SlotOf(u, x) == -1 && SlotOf(u, y) == s && MapOf(u, s) == y && SlotOf(t, x) == s
    ensures forall z :: 0 <= z < 8 && z != x && z != y ==> SlotOf(u, z) == SlotOf(t, z)
    ensures forall r :: 0 <= r < 16 && r != s ==> MapOf(u, r) == MapOf(t, r)
    ensures Inverse(u) && LocksHaveUsers(u)
  {
    TransferMoves(t, u, x, y, s);
    hide Transferred, SlotOf, MapOf;
  }

  lemma TransferMoves(t: Tables, u: Tables, x: int, y: int, s: int)
    requires Valid(t) && Shape(u) && Transferred(t, u, x, y, s)
    ensures SlotOf(u, x) == -1 && SlotOf(u, y) == s && MapOf(u, s) == y && SlotOf(t, x) == s
    ensures forall z :: 0 <= z < 8 && z != x && z != y ==> SlotOf(u, z) == SlotOf(t, z)
    ensures forall r :: 0 <= r < 16 && r != s ==> MapOf(u, r) == MapOf(t, r)
    ensures LocksHaveUsers(u)
  {
    hide Plain, CleanMeansHome;
    assert SlotOf(t, x) == s;
    assert forall z :: 0 <= z < 8 && z != x && z != y ==> SlotOf(u, z) == SlotOf(t, z);
    assert forall r :: 0 <= r < 16 && r != s ==> MapOf(u, r) == MapOf(t, r);
  }

  lemma TransferKeeps(t: Tables, u: Tables, x: int, y: int, s: int)
    requires Valid(t) && Shape(u) && Transferred(t, u, x, y, s)
    ensures Valid(u) && Values(u) == Values(t)
  {
    hide Add;
    TransferKeepsMaps(t, u, x, y, s);
    AddZero(Plain(u, y));
    AddZero(Plain(t, x));
    forall r | 0 <= r < 16 ensures Logical(u, r) == Logical(t, r) {
      assert r != s && MapOf(t, r) != -1 ==> SlotOf(t, MapOf(t, r)) == r;
    }
  }

  /** Adding the pending offset to the register itself. */
  lemma MaterialiseKeeps(t: Tables, u: Tables, x: int)
    requires Valid(t) && Shape(u) && 0 <= x < 8
    requires u == t.(x86 := t.x86[x := Add(Plain(t, x), t.constOffset[x])], byteOrder := t.byteOrder[x := BO_NORMAL],
                     constOffset := t.constOffset[x := ZERO], dirty := t.dirty[x := true])
    ensures Valid(u) && Values(u) == Values(t)
  {
    hide Add;
    assert forall y :: 0 <= y < 8 ==> SlotOf(u, y) == SlotOf(t, y);
    assert forall s :: 0 <= s < 16 ==> MapOf(u, s) == MapOf(t, s);
    AddZero(Plain(u, x));
    forall s | 0 <= s < 16 ensures Logical(u, s) == Logical(t, s) {
      assert MapOf(t, s) != -1 ==> SlotOf(t, MapOf(t, s)) == s;
    }
  }

  // ------------------------------------------------------------------ sync lemmas

  /** What one round of sync_reg_cache does for a cached register x. */
  ghost predicate Synced(t: Tables, u: Tables, x: int, flush: bool)
    requires Shape(t) && Shape(u) && 0 <= x < 8
  {
    var s := SlotOf(t, x);
    && s != -1
    && u.cacheReg == (if flush then t.cacheReg[x := -1] else t.cacheReg) && u.crData == t.crData
    && u.users == t.users && u.locked == t.locked && u.dirty == t.dirty
    && u.dregMap == (if flush && s < 8 then t.dregMap[s := -1] else t.dregMap)
    && u.aregMap == (if flush && s >= 8 then t.aregMap[s - 8 := -1] else t.aregMap)
    && u.constOffset == t.constOffset[x := ZERO]
    && u.home == t.home[s := Add(Plain(t, x), t.constOffset[x])]
    && Plain(u, x) == Add(Plain(t, x), t.constOffset[x])
    && u.byteOrder[x] == (if t.dirty[x] || t.constOffset[x] != ZERO then BO_NORMAL else t.byteOrder[x])
    && forall y :: 0 <= y < 8 && y != x ==> u.x86[y] == t.x86[y] && u.byteOrder[y] == t.byteOrder[y]
  }

  lemma SyncedKeeps(t: Tables, u: Tables, x: int, flush: bool)
    requires Valid(t) && Shape(u) && 0 <= x < 8 && Synced(t, u, x, flush)
    ensures Valid(u) && Values(u) == Values(t)
  {
    hide Add;
    var s := SlotOf(t, x);
    assert forall y :: 0 <= y < 8 && y != x ==> SlotOf(u, y) == SlotOf(t, y);
    assert SlotOf(u, x) == if flush then -1 else s;
    assert forall r :: 0 <= r < 16 && r != s ==> MapOf(u, r) == MapOf(t, r);
    assert MapOf(u, s) == if flush then -1 else x;
    AddZero(Plain(u, x));
    forall r | 0 <= r < 16 ensures Logical(u, r) == Logical(t, r) {
      if r != s && MapOf(t, r) != -1 {
        assert SlotOf(t, MapOf(t, r)) == r;
      }
    }
  }

  /** Changing the byte order of a register together with its content changes no number. */
  lemma ForceKeeps(t: Tables, u: Tables, x: int)
    requires Valid(t) && Shape(u) && 0 <= x < 8 && Plain(u, x) == Plain(t, x)
    requires u == t.(x86 := t.x86[x := u.x86[x]], byteOrder := t.byteOrder[x := u.byteOrder[x]])
    ensures Valid(u) && Values(u) == Values(t) && forall y :: 0 <= y < 8 ==> Plain(u, y) == Plain(t, y)
    ensures forall s :: 0 <= s < 16 ==> MapOf(u, s) == MapOf(t, s)
  {
    hide Add;
    assert forall y :: 0 <= y < 8 ==> SlotOf(u, y) == SlotOf(t, y);
    assert forall s :: 0 <= s < 16 ==> MapOf(u, s) == MapOf(t, s);
    forall s | 0 <= s < 16 ensures Logical(u, s) == Logical(t, s) {
    }
  }

  /** What is done to a register that caches nothing concerns no 68k register. */
  lemma ScratchKeeps(t: Tables, u: Tables, x: int)
    requires Valid(t) && Shape(u) && 0 <= x < 8 && t.cacheReg[x] == -1
    requires u == t.(x86 := t.x86[x := u.x86[x]], byteOrder := t.byteOrder[x := u.byteOrder[x]])
    ensures Valid(u) && Values(u) == Values(t)
  {
    hide Add;
    assert forall y :: 0 <= y < 8 ==> SlotOf(u, y) == SlotOf(t, y);
    assert forall s :: 0 <= s < 16 ==> MapOf(u, s) == MapOf(t, s);
    forall s | 0 <= s < 16 ensures Logical(u, s) == Logical(t, s) {
      assert MapOf(t, s) != -1 ==> SlotOf(t, MapOf(t, s)) == s;
    }
  }

  /** The cache register of slot s is overwritten. */
  lemma RefillKeeps(t: Tables, u: Tables, x: int, s: int)
    requires Valid(t) && Shape(u) && 0 <= x < 8 && 0 <= s < 16 && MapOf(t, s) == x && t.constOffset[x] == ZERO
    requires u == t.(x86 := t.x86[x := u.x86[x]], byteOrder := t.byteOrder[x := u.byteOrder[x]],
                     dirty := t.dirty[x := true])
    ensures Valid(u) && Values(u) == Values(t)[s := Plain(u, x)]
  {
    hide Add;
    assert forall y :: 0 <= y < 8 ==> SlotOf(u, y) == SlotOf(t, y);
    assert forall r :: 0 <= r < 16 ==> MapOf(u, r) == MapOf(t, r);
    assert SlotOf(t, x) == s;
    AddZero(Plain(u, x));
    forall r | 0 <= r < 16 && r != s ensures Logical(u, r) == Logical(t, r) {
      assert MapOf(t, r) != -1 ==> SlotOf(t, MapOf(t, r)) == r;
    }
  }

  function NoUsers(): (u: seq<int>)
    ensures |u| == 8
  {
    [0, 0, 0, 0, 1, 0, 0, 0]
  }

  /** The locks at the start of an instruction. */
  ghost predicate Fresh(t: Tables) {
    t.users == NoUsers() && t.locked == [0, 0, 0, 0, 2, 0, 0, 0]
  }

  lemma OneUser(t: Tables, a: int)
    requires Shape(t) && 0 <= a < 8 && t.users == NoUsers()[a := NoUsers()[a] + 1]
    ensures HasFree(t)
  {
    assert t.users[0] <= 0 || t.users[1] <= 0;
  }

  lemma TwoUsers(t: Tables, a: int, b: int)
    requires Shape(t) && 0 <= a < 8 && 0 <= b < 8 && t.users == NoUsers()[a := NoUsers()[a] + 1][b := t.users[b]]
    ensures HasFree(t)
  {
    assert t.users[0] <= 0 || t.users[1] <= 0 || t.users[2] <= 0;
  }

  /** Register x, if cached, agrees with its home slot. */
  ghost predicate UpToDate(t: Tables, x: int)
    requires Shape(t) && 0 <= x < 8
  {
    SlotOf(t, x) != -1 ==>
      t.constOffset[x] == ZERO && t.home[SlotOf(t, x)] == Plain(t, x)
  }

  lemma UpToDateStable(t: Tables, u: Tables, i: int, flush: bool)
    requires Valid(t) && Valid(u) && 0 <= i < 8 && Synced(t, u, i, flush)
    requires forall x :: 0 <= x < i ==> UpToDate(t, x)
    ensures forall x :: 0 <= x <= i ==> UpToDate(u, x)
  {
    forall x | 0 <= x < i ensures UpToDate(u, x) {
      assert UpToDate(t, x);
      if SlotOf(t, x) != -1 {
        assert MapOf(t, SlotOf(t, x)) == x && MapOf(t, SlotOf(t, i)) == i;
      }
    }
  }

  lemma CleanedKeeps(t: Tables, u: Tables)
    requires Valid(t) && Shape(u) && u == t.(dirty := u.dirty)
    requires forall x :: 0 <= x < 8 ==> UpToDate(t, x)
    ensures Valid(u) && Values(u) == Values(t) && u.home == Values(t)
    ensures (forall x :: 0 <= x < 8 ==> t.cacheReg[x] == -1) ==> forall s :: 0 <= s < 16 ==> MapOf(u, s) == -1
  {
    hide Add;
    assert forall y :: 0 <= y < 8 ==> SlotOf(u, y) == SlotOf(t, y);
    assert forall s :: 0 <= s < 16 ==> MapOf(u, s) == MapOf(t, s);
    assert Inverse(u);
    forall y | 0 <= y < 8 && SlotOf(u, y) != -1
      ensures u.home[SlotOf(u, y)] == Plain(u, y)
    {
      assert UpToDate(t, y);
    }
    forall s | 0 <= s < 16
      ensures Logical(u, s) == Logical(t, s) == u.home[s]
      ensures MapOf(u, s) != -1 ==> t.cacheReg[MapOf(u, s)] != -1
    {
      var x := MapOf(t, s);
      if x != -1 {
        assert SlotOf(t, x) == s && UpToDate(t, x);
        AddZero(Plain(t, x));
      }
    }
  }

  // ------------------------------------------------------- operations on registers

  function Step(v: Word, delta: Word, predecrement: bool): Word {
    if predecrement then Sub(v, delta) else Add(v, delta)
  }

  /** -(An) takes the step away from the number in An and (An)+ adds it, modulo 2^32. */
  lemma StepIsModular(v: Word, delta: Word, predecrement: bool)
    ensures var w := Step(v, delta, predecrement);
            if predecrement then IsSum(ToInt(v), ToInt(w), ToInt(delta)) else IsSum(ToInt(w), ToInt(v), ToInt(delta))
  {
    if predecrement {
      SubAddCancels(v, delta);
      AddIsModular(Sub(v, delta), delta);
    } else {
      AddIsModular(v, delta);
    }
  }

  lemma SubAddCancels(v: Word, delta: Word)
    ensures Add(Sub(v, delta), delta) == v
  {
    hide Add, Neg;
    AddAssociates(v, Neg(delta), delta);
    NegCancels(delta);
    AddZero(v);
  }

  lemma NegCancels(v: Word)
    ensures Add(Neg(v), v) == ZERO
  {
    NegIsModular(v);
    AddIsModular(Neg(v), v);
    ZeroIsZero();
    hide Add, Neg, ToInt, IsSum;
    SumToZero(ToInt(v), ToInt(Neg(v)), ToInt(Add(Neg(v), v)));
    ToIntInjective(Add(Neg(v), v), ZERO);
  }

  lemma ZeroIsZero()
    ensures ToInt(ZERO) == 0
  {
  }

  lemma SumToZero(v: int, n: int, s: int)
    requires 0 <= v < WRAP && (n == WRAP - v || (v == 0 && n == 0)) && IsSum(s, n, v)
    ensures s == 0
  {
  }

  lemma AddAssociates(v: Word, w: Word, z: Word)
    ensures Add(v, Add(w, z)) == Add(Add(v, w), z)
  {
    var vw, wz := Add(v, w), Add(w, z);
    AddIsModular(v, w);
    AddIsModular(w, z);
    AddIsModular(v, wz);
    AddIsModular(vw, z);
    IntAssociates(ToInt(v), ToInt(w), ToInt(z), ToInt(vw), ToInt(wz), ToInt(Add(v, wz)), ToInt(Add(vw, z)));
    ToIntInjective(Add(v, wz), Add(vw, z));
  }

  lemma IntAssociates(v: int, w: int, z: int, vw: int, wz: int, l: int, r: int)
    requires 0 <= v < WRAP && 0 <= w < WRAP && 0 <= z < WRAP
    requires IsSum(vw, v, w) && IsSum(wz, w, z) && IsSum(l, v, wz) && IsSum(r, vw, z)
    ensures l == r
  {
  }

  lemma StepKeeps(t: Tables, u: Tables, x: int, s: int, delta: Word, predecrement: bool)
    requires Valid(t) && Shape(u) && 0 <= x < 8 && 0 <= s < 16 && MapOf(t, s) == x
    requires u == t.(x86 := t.x86[x := Plain(t, x)], byteOrder := t.byteOrder[x := BO_NORMAL],
                     constOffset := t.constOffset[x := Step(t.constOffset[x], delta, predecrement)])
    ensures Valid(u) && Values(u) == Values(t)[s := Step(Values(t)[s], delta, predecrement)]
  {
    hide Add;
    assert forall y :: 0 <= y < 8 ==> SlotOf(u, y) == SlotOf(t, y);
    assert forall r :: 0 <= r < 16 ==> MapOf(u, r) == MapOf(t, r);
    AddAssociates(Plain(t, x), t.constOffset[x], if predecrement then Neg(delta) else delta);
    assert Logical(u, s) == Step(Logical(t, s), delta, predecrement);
    forall r | 0 <= r < 16 && r != s ensures Logical(u, r) == Logical(t, r) {
      assert SlotOf(t, x) == s;
    }
  }

  /** An empty register becomes the cache register of the unmapped slot s. */
  lemma AdoptKeeps(t: Tables, u: Tables, x: int, s: int)
    requires Valid(t) && Shape(u) && 0 <= x < 8 && 0 <= s < 16
    requires MapOf(t, s) == -1 && t.cacheReg[x] == -1 && Remapped(t, u, s, x)
    requires u == t.(dregMap := u.dregMap, aregMap := u.aregMap, cacheReg := t.cacheReg[x := s % 8],
                     crData := t.crData[x := s < 8], constOffset := t.constOffset[x := u.constOffset[x]],
                     dirty := t.dirty[x := true])
    ensures Valid(u) && Values(u) == Values(t)[s := Add(Plain(t, x), u.constOffset[x])]
  {
    hide Add;
    EnterKeepsMaps(t, u, x, s);
    forall r | 0 <= r < 16 && r != s ensures Logical(u, r) == Logical(t, r) {
      assert MapOf(t, r) != -1 ==> SlotOf(t, MapOf(t, r)) == r;
    }
  }

  /** The cache register of slot s gets a new pending offset. */
  lemma OverwriteKeeps(t: Tables, u: Tables, x: int, s: int)
    requires Valid(t) && Shape(u) && 0 <= x < 8 && 0 <= s < 16 && MapOf(t, s) == x
    requires u == t.(constOffset := t.constOffset[x := u.constOffset[x]], dirty := t.dirty[x := true])
    ensures Valid(u) && Values(u) == Values(t)[s := Add(Plain(t, x), u.constOffset[x])]
  {
    hide Add;
    assert forall y :: 0 <= y < 8 ==> SlotOf(u, y) == SlotOf(t, y);
    assert forall r :: 0 <= r < 16 ==> MapOf(u, r) == MapOf(t, r);
    assert SlotOf(t, x) == s;
    forall r | 0 <= r < 16 && r != s ensures Logical(u, r) == Logical(t, r) {
      assert MapOf(t, r) != -1 ==> SlotOf(t, MapOf(t, r)) == r;
    }
  }

  // --------------------------------------------- lazy execution equals eager execution

  /** Register-level operations a compiled block performs through the cache. */
  datatype Op =
    | Touch(reg: int, isData: bool, noOffset: bool, lockType: int)      // just bring it in
    | StepA(reg: int, delta: Word, predecrement: bool)                  // -(An), (An)+
    | Move(src: int, srcData: bool, dst: int, dstData: bool)            // MOVE.L Rs,Rd
    | Load(areg: int, disp: Word, dst: int, dstData: bool)              // MOVE.L d(An),Rd
    | Store(src: int, srcData: bool, areg: int, disp: Word)             // MOVE.L Rs,d(An)
    | Checkpoint(flush: bool)                                           // sync_reg_cache

  predicate WellFormed(op: Op) {
    match op
    case Touch(reg, _, _, lockType) => 0 <= reg < 8 && 1 <= lockType <= 2
    case StepA(reg, _, _) => 0 <= reg < 8
    case Move(src, _, dst, _) => 0 <= src < 8 && 0 <= dst < 8
    case Load(areg, _, dst, _) => 0 <= areg < 8 && 0 <= dst < 8
    case Store(src, _, areg, _) => 0 <= src < 8 && 0 <= areg < 8
    case Checkpoint(_) => true
  }

  /** The 68k registers and the memory, without any cache. */
  datatype Guest = Guest(regs: seq<Word>, mem: Memory)

  /** The meaning of an operation, where a move may have reversed the bytes. */
  function Eager(g: Guest, op: Op, reversed: bool): (r: Guest)
    requires |g.regs| == 16 && WellFormed(op)
    ensures |r.regs| == 16
  {
    var v := g.regs;
    match op
    case Touch(_, _, _, _) => g
    case StepA(reg, delta, pre) => g.(regs := v[8 + reg := Step(v[8 + reg], delta, pre)])
    case Move(src, srcData, dst, dstData) =>
      var w := v[Slot(srcData, src)];
      g.(regs := v[Slot(dstData, dst) := if reversed then SwapLong(w) else w])
    case Load(areg, disp, dst, dstData) =>
      g.(regs := v[Slot(dstData, dst) := GetLong(g.mem, Add(v[8 + areg], disp))])
    case Store(src, srcData, areg, disp) =>
      g.(mem := PutLong(g.mem, Add(v[8 + areg], disp), v[Slot(srcData, src)]))
    case Checkpoint(_) => g
  }

  function EagerAll(g: Guest, ops: seq<Op>, reversed: seq<bool>): (r: Guest)
    requires |g.regs| == 16 && |reversed| == |ops| && forall op :: op in ops ==> WellFormed(op)
    ensures |r.regs| == 16
  {
    var n := |ops| - 1;
    if ops == [] then g
    else Eager(EagerAll(g, ops[..n], reversed[..n]), ops[n], reversed[n])
  }

  /** The state of the guest as the cache has it. */
  ghost function GuestOf(m: RegisterMapping): (g: Guest)
    requires Valid(m.t)
    reads m
    ensures |g.regs| == 16
  {
    Guest(Values(m.t), m.mem)
  }

  /** What the compiler keeps book of after an operation. */
  function AfterOp(b: Book, op: Op): Book
    requires WellFormed(op)
  {
    match op
    case Touch(reg, isData, noOffset, lockType) => Got(b, AllRegs(), Slot(isData, reg), noOffset, lockType).0
    case StepA(reg, delta, pre) => Stepped(b, reg, delta, pre, AddressRegs())
    case Move(src, srcData, dst, dstData) => AfterMove(b, Slot(srcData, src), Slot(dstData, dst))
    case Load(areg, _, dst, dstData) => AfterLoad(b, Slot(dstData, dst), areg)
    case Store(src, srcData, areg, _) => AfterStore(b, Slot(srcData, src), areg)
    case Checkpoint(flush) => AllSynced(b, flush)
  }

  predicate ReversedBy(b: Book, op: Op)
    requires WellFormed(op)
  {
    op.Move? && Reverses(b, Slot(op.srcData, op.src), Slot(op.dstData, op.dst))
  }

  function RunBook(b: Book, ops: seq<Op>): Book
    requires forall op :: op in ops ==> WellFormed(op)
  {
    if ops == [] then b else AfterOp(Renewed(RunBook(b, ops[..|ops| - 1])), ops[|ops| - 1])
  }

  /** Which operations of a block reverse bytes: known before any of them has run. */
  function Reversals(b: Book, ops: seq<Op>): (r: seq<bool>)
    requires forall op :: op in ops ==> WellFormed(op)
    ensures |r| == |ops|
  {
    if ops == [] then []
    else Reversals(b, ops[..|ops| - 1]) + [ReversedBy(Renewed(RunBook(b, ops[..|ops| - 1])), ops[|ops| - 1])]
  }

  /** One operation, with the locks of the previous instruction dropped. */
  method Execute(m: RegisterMapping, op: Op)
    requires Valid(m.t) && Fresh(m.t) && WellFormed(op)
    modifies m
    ensures Valid(m.t) && GuestOf(m) == Eager(old(GuestOf(m)), op, ReversedBy(old(BookOf(m.t)), op))
    ensures BookOf(m.t) == AfterOp(old(BookOf(m.t)), op)
  {
    hide Add, SwapLong, GetLong, PutLong, Inverse, CleanMeansHome, LocksHaveUsers, Values, Logical, SlotOf,
         Plain, BookOf, Got, Stepped, AfterMove, AfterLoad, AfterStore, AllSynced, Reverses;
    assert m.t.users[0] <= 0;
    match op
    case Touch(reg, isData, noOffset, lockType) =>
      var x := m.GetAndLock(reg, isData, {}, noOffset, lockType);
    case StepA(reg, delta, pre) =>
      var x, offs := m.StepAddress(reg, delta, pre, AddressRegs());
    case Move(src, srcData, dst, dstData) =>
      m.MoveLong(src, srcData, dst, dstData);
    case Load(areg, disp, dst, dstData) =>
      m.LoadLong(dst, dstData, areg, disp);
    case Store(src, srcData, areg, disp) =>
      m.StoreLong(src, srcData, areg, disp);
    case Checkpoint(flush) =>
      m.SyncRegCache(flush);
  }

  /** Runs any block of operations through the cache: whatever was cached, swapped, offset, evicted or
      transferred on the way, the home slots and the memory end up as if every operation had been
      carried out on them directly, but for exactly the moves that Reversals names. */
  method RunBlock(m: RegisterMapping, ops: seq<Op>)
    requires Valid(m.t) && forall op :: op in ops ==> WellFormed(op)
    modifies m
    ensures Valid(m.t)
    ensures Guest(m.t.home, m.mem) == EagerAll(old(GuestOf(m)), ops, Reversals(old(BookOf(m.t)), ops))
  {
    hide Eager, Inverse, CleanMeansHome, LocksHaveUsers, Values, Fresh, BookOf, AfterOp, ReversedBy, Renewed;
    ghost var start, book := GuestOf(m), BookOf(m.t);
    var i := 0;
    while i < |ops|
      invariant 0 <= i <= |ops| && Valid(m.t)
      invariant BookOf(m.t) == RunBook(book, ops[..i])
      invariant GuestOf(m) == EagerAll(start, ops[..i], Reversals(book, ops[..i]))
    {
      m.NewInstruction();
      Execute(m, ops[i]);
      OneMoreOp(start, book, ops, i);
      i := i + 1;
    }
    assert ops[..|ops|] == ops;
    m.SyncRegCache(true);
  }

  /** A block of one operation. */
  lemma OneOpRuns(g: Guest, b: Book, op: Op)
    requires |g.regs| == 16 && WellFormed(op)
    ensures EagerAll(g, [op], Reversals(b, [op])) == Eager(g, op, ReversedBy(Renewed(b), op))
  {
    hide Eager, ReversedBy, Renewed;
    var ops := [op];
    assert ops[..|ops| - 1] == [] && EagerAll(g, [], []) == g;
    assert Reversals(b, ops) == [ReversedBy(Renewed(b), op)];
    assert Reversals(b, ops)[..|ops| - 1] == [];
  }

  /** A block that only steps an address register: the number in it goes down or up by the step, in its home
      slot, and nothing else of the guest changes. */
  method StepBlock(m: RegisterMapping, reg: int, delta: Word, predecrement: bool)
    requires Valid(m.t) && 0 <= reg < 8
    modifies m
    ensures Valid(m.t) && m.mem == old(m.mem)
    ensures m.t.home == old(Values(m.t))[8 + reg := m.t.home[8 + reg]]
    ensures predecrement ==> IsSum(ToInt(old(Values(m.t))[8 + reg]), ToInt(m.t.home[8 + reg]), ToInt(delta))
    ensures !predecrement ==> IsSum(ToInt(m.t.home[8 + reg]), ToInt(old(Values(m.t))[8 + reg]), ToInt(delta))
  {
    ghost var g, b := GuestOf(m), BookOf(m.t);
    StepRuns(g, b, reg, delta, predecrement);
    hide Step, Valid, Values, BookOf, ToInt, IsSum, EagerAll, Reversals, Inverse;
    RunBlock(m, [StepA(reg, delta, predecrement)]);
  }

  /** In r the number in An is stepped, and all else is as in g. */
  ghost predicate OnlyStepped(g: Guest, r: Guest, reg: int, delta: Word, predecrement: bool)
    requires |g.regs| == |r.regs| == 16 && 0 <= reg < 8
  {
    && r.mem == g.mem && r.regs == g.regs[8 + reg := r.regs[8 + reg]]
    && (predecrement ==> IsSum(ToInt(g.regs[8 + reg]), ToInt(r.regs[8 + reg]), ToInt(delta)))
    && (!predecrement ==> IsSum(ToInt(r.regs[8 + reg]), ToInt(g.regs[8 + reg]), ToInt(delta)))
  }

  lemma StepRuns(g: Guest, b: Book, reg: int, delta: Word, predecrement: bool)
    requires |g.regs| == 16 && 0 <= reg < 8
    ensures var ops := [StepA(reg, delta, predecrement)];
            OnlyStepped(g, EagerAll(g, ops, Reversals(b, ops)), reg, delta, predecrement)
  {
    var op := StepA(reg, delta, predecrement);
    assert WellFormed(op);
    hide *;
    OneOpRuns(g, b, op);
    StepDirectly(g, ReversedBy(Renewed(b), op), reg, delta, predecrement);
  }

  lemma StepDirectly(g: Guest, reversed: bool, reg: int, delta: Word, predecrement: bool)
    requires |g.regs| == 16 && 0 <= reg < 8
    ensures OnlyStepped(g, Eager(g, StepA(reg, delta, predecrement), reversed), reg, delta, predecrement)
  {
    StepIsModular(g.regs[8 + reg], delta, predecrement);
    hide Step, ToInt, IsSum;
  }

  lemma OneMoreOp(g: Guest, b: Book, ops: seq<Op>, i: nat)
    requires |g.regs| == 16 && i < |ops| && forall op :: op in ops ==> WellFormed(op)
    ensures var before, bk := EagerAll(g, ops[..i], Reversals(b, ops[..i])), Renewed(RunBook(b, ops[..i]));
            && RunBook(b, ops[..i + 1]) == AfterOp(bk, ops[i])
            && EagerAll(g, ops[..i + 1], Reversals(b, ops[..i + 1])) == Eager(before, ops[i], ReversedBy(bk, ops[i]))
  {
    hide Eager, AfterOp, ReversedBy, Renewed;
    var one := ops[..i + 1];
    assert one[..|one| - 1] == ops[..i] && one[|one| - 1] == ops[i];
    var r := Reversals(b, one);
    assert r[..|one| - 1] == Reversals(b, ops[..i]);
  }

  // ------------------------------------------------- blocks that cannot reverse bytes

  /** No clean register is in swapped order. */
  predicate CleanNormal(b: Book) {
    forall x :: 0 <= x < 8 && b.e[x].Holds? && !b.e[x].dirty ==> b.e[x].order == BO_NORMAL
  }

  lemma GotNormal(b: Book, want: set<int>, s: int, noOffset: bool, lockType: int)
    requires CleanNormal(b)
    ensures CleanNormal(Got(b, want, s, noOffset, lockType).0)
  {
    hide Pick, Where;
  }

  /** An exclusively locked register is left alone by what comes after it, or emptied. */
  lemma GotBusy(b: Book, want: set<int>, s: int, noOffset: bool, lockType: int, y: int)
    requires 0 <= y < 8 && y in b.busy && |b.locks| == 8 && b.locks[y] == 2
    ensures var (f, x) := Got(b, want, s, noOffset, lockType);
            x != y && (f.e[y] == b.e[y] || f.e[y] == Empty)
  {
    PickIsFree(b, want, 0);
    hide Pick;
  }

  lemma {:induction false} PickIsFree(b: Book, want: set<int>, c: nat)
    requires c <= 24
    ensures Pick(b, want, c) !in b.busy || Pick(b, want, c) == -1
    decreases 24 - c
  {
    if c < 24 {
      PickIsFree(b, want, c + 1);
    }
  }

  lemma {:induction false} SyncedNormal(b: Book, flush: bool, n: nat)
    requires CleanNormal(b) && n <= 8
    ensures var c := SyncedTo(b, flush, n);
            CleanNormal(c) && forall x :: 0 <= x < n && c.e[x].Holds? ==> c.e[x].order == BO_NORMAL
  {
    if n > 0 {
      SyncedNormal(b, flush, n - 1);
    }
  }

  lemma WrittenNormal(b: Book, x: int, s: int, offset: Word, order: int)
    requires CleanNormal(b)
    ensures CleanNormal(Written(b, x, s, offset, order))
  {
    hide Where;
  }

  lemma OrderedNormal(b: Book, x: int)
    requires CleanNormal(b)
    ensures CleanNormal(Ordered(b, x, BO_NORMAL)) && CleanNormal(Emptied(b, x)) && CleanNormal(Locked(b, x, 2))
    ensures forall order: int :: CleanNormal(Refilled(b, x, order))
  {
  }

  lemma FetchedNormal(b: Book, a: int)
    requires CleanNormal(b)
    ensures CleanNormal(Fetched(b, a).0)
  {
    hide CleanNormal, Emptied, Ordered, Locked, Pick;
    var x := Pick(b, AllRegs(), 0);
    OrderedNormal(b, x);
    OrderedNormal(Emptied(b, x), x);
    OrderedNormal(Taken(b).0, a);
  }

  lemma LoadedNormal(b: Book, d: int, areg: int)
    requires CleanNormal(b)
    ensures CleanNormal(AfterLoad(b, d, areg))
  {
    hide CleanNormal, Emptied, Ordered, Refilled, Got, Where, Written, Pick, Fetched;
    GotNormal(b, AddressRegs(), 8 + areg, false, 1);
    OrderedNormal(Got(b, AddressRegs(), 8 + areg, false, 1).0, Got(b, AddressRegs(), 8 + areg, false, 1).1);
    var (c, a) := Prepared(b, areg);
    if Where(c, d) == -1 {
      var e := if d < 8 then Pick(c, AllRegs(), 0) else -1;
      OrderedNormal(c, e);
      ThenWrittenNormal(Emptied(c, e), a, e, d);
    } else {
      DestNormal(c, d);
      var (g, y, scrambled) := DestLocked(c, d);
      OrderedNormal(g, a);
      OrderedNormal(Ordered(g, a, BO_NORMAL), y);
      ThenWrittenNormal(g, a, y, d);
    }
  }

  lemma ThenWrittenNormal(b: Book, a: int, y: int, d: int)
    requires CleanNormal(b)
    ensures var (f, x) := Fetched(b, a);
            CleanNormal(Written(Ordered(Ordered(f, y, BO_NORMAL), x, BO_NORMAL), x, d, ZERO, BO_NORMAL))
  {
    hide CleanNormal, Ordered, Fetched, Written;
    FetchedNormal(b, a);
    var (f, x) := Fetched(b, a);
    OrderedNormal(f, y);
    OrderedNormal(Ordered(f, y, BO_NORMAL), x);
    WrittenNormal(Ordered(Ordered(f, y, BO_NORMAL), x, BO_NORMAL), x, d, ZERO, BO_NORMAL);
  }

  lemma DestNormal(b: Book, d: int)
    requires CleanNormal(b)
    ensures CleanNormal(DestLocked(b, d).0)
  {
    hide CleanNormal, Got, Ordered;
    GotNormal(b, AllRegs(), d, true, 2);
    OrderedNormal(Got(b, AllRegs(), d, true, 2).0, Got(b, AllRegs(), d, true, 2).1);
  }

  lemma DirtyOrderedNormal(b: Book, x: int, order: int)
    requires CleanNormal(b) && (Used(b, x) ==> b.e[x].dirty || order == BO_NORMAL)
    ensures CleanNormal(Ordered(b, x, order))
    ensures forall y :: Used(Ordered(b, x, order), y) ==> Used(b, y) && Ordered(b, x, order).e[y].dirty == b.e[y].dirty
  {
  }

  /** In a scrambled operation both registers are dirty. */
  lemma ScrambledIsDirty(b: Book, s: int, d: int)
    requires CleanNormal(b) && |b.locks| == 8
    ensures var (f, y, x, scrambled) := BothLocked(b, s, d);
            CleanNormal(f) && (scrambled ==> (Used(f, y) ==> f.e[y].dirty) && (Used(f, x) ==> f.e[x].dirty))
  {
    DestNormal(b, d);
    var (c, y, possible) := DestLocked(b, d);
    assert possible ==> Used(c, y) && c.e[y].order == BO_SWAPPED_LONG && y in c.busy && |c.locks| == 8 && c.locks[y] == 2;
    GotNormal(c, AllRegs(), s, true, 2);
    if possible {
      GotBusy(c, AllRegs(), s, true, 2, y);
    }
    hide Got, DestLocked;
  }

  lemma MovedCachedNormal(b: Book, s: int, d: int)
    requires CleanNormal(b) && |b.locks| == 8
    ensures CleanNormal(MovedCached(b, s, d))
  {
    ScrambledIsDirty(b, s, d);
    hide CleanNormal, BothLocked, Ordered, Written;
    var (f, y, x, scrambled) := BothLocked(b, s, d);
    var order := if scrambled then BO_SWAPPED_LONG else BO_NORMAL;
    DirtyOrderedNormal(f, y, order);
    DirtyOrderedNormal(Ordered(f, y, order), x, order);
    WrittenNormal(Ordered(Ordered(f, y, order), x, order), x, d, ZERO, order);
  }

  lemma MovedNormal(b: Book, s: int, d: int)
    requires CleanNormal(b) && |b.locks| == 8
    ensures CleanNormal(AfterMove(b, s, d))
  {
    GotNormal(b, AllRegs(), d, true, 2);
    GotNormal(b, AllRegs(), s, true, 2);
    hide Got, Where, Written, Pick, MovedCached;
    if Where(b, s) != -1 && Where(b, d) != -1 {
      MovedCachedNormal(b, s, d);
    } else if Where(b, s) != -1 {
      var (c, x) := Got(b, AllRegs(), s, true, 2);
      WrittenNormal(Ordered(c, x, BO_NORMAL), x, d, ZERO, BO_NORMAL);
    }
  }

  /** Only storing a register to memory brings a clean one into swapped order. */
  lemma OpKeepsNormal(b: Book, op: Op)
    requires WellFormed(op) && CleanNormal(b) && |b.locks| == 8 && !op.Store?
    ensures CleanNormal(AfterOp(b, op))
  {
    hide Got, Stepped, AfterMove, AfterLoad, AllSynced, CleanNormal;
    match op
    case Touch(reg, isData, noOffset, lockType) => GotNormal(b, AllRegs(), Slot(isData, reg), noOffset, lockType);
    case StepA(reg, delta, pre) => SteppedNormal(b, reg, delta, pre);
    case Move(src, srcData, dst, dstData) => MovedNormal(b, Slot(srcData, src), Slot(dstData, dst));
    case Load(areg, _, dst, dstData) => LoadedNormal(b, Slot(dstData, dst), areg);
    case Checkpoint(flush) => CheckpointNormal(b, flush);
  }

  lemma SteppedNormal(b: Book, reg: int, delta: Word, predecrement: bool)
    requires CleanNormal(b)
    ensures CleanNormal(Stepped(b, reg, delta, predecrement, AddressRegs()))
  {
    GotNormal(b, AddressRegs(), 8 + reg, false, 1);
    hide Got;
  }

  lemma CheckpointNormal(b: Book, flush: bool)
    requires CleanNormal(b)
    ensures CleanNormal(AllSynced(b, flush))
  {
    SyncedNormal(b, flush, 8);
    hide SyncedTo;
  }

  /** So a block that stores no register to memory reverses no bytes, wherever it starts from. */
  lemma {:induction false} NoStoreNoReversal(b: Book, ops: seq<Op>)
    requires CleanNormal(b) && forall op :: op in ops ==> WellFormed(op) && !op.Store?
    ensures CleanNormal(RunBook(b, ops)) && forall i :: 0 <= i < |ops| ==> !Reversals(b, ops)[i]
    decreases |ops|
  {
    hide AfterOp, Reverses;
    if ops != [] {
      var n := |ops| - 1;
      NoStoreNoReversal(b, ops[..n]);
      var c := Renewed(RunBook(b, ops[..n]));
      OpKeepsNormal(c, ops[n]);
      if ops[n].Move? {
        ReversalNeedsSwapped(c, Slot(ops[n].srcData, ops[n].src), Slot(ops[n].dstData, ops[n].dst));
      }
    }
  }

  lemma ReversalNeedsSwapped(b: Book, s: int, d: int)
    requires CleanNormal(b)
    ensures !Reverses(b, s, d)
  {
  }

  /** The empty cache at the start of a block. */
  const START := Book([Empty, Empty, Empty, Empty, Empty, Empty, Empty, Empty], {R_ESP}, [0, 0, 0, 0, 2, 0, 0, 0])

  /** Store D0, store D1, move D0 to D1. */
  const REVERSING: seq<Op> := [Store(0, true, 0, ZERO), Store(1, true, 0, ZERO), Move(0, true, 1, true)]

  /** After one store A0 is in the first address register and D0 in the first register of all, clean and
      in swapped order; after two, D1 is in the next one. */
  function OneStored(): Book {
    Book([Holds(0, false, ZERO, BO_SWAPPED_LONG), Empty, Empty, Empty, Empty, Holds(8, false, ZERO, BO_NORMAL),
          Empty, Empty],
         {0, R_ESP, 5}, [2, 0, 0, 0, 2, 1, 0, 0])
  }

  function TwoStored(): Book {
    Book([Holds(0, false, ZERO, BO_SWAPPED_LONG), Holds(1, false, ZERO, BO_SWAPPED_LONG), Empty, Empty, Empty,
          Holds(8, false, ZERO, BO_NORMAL), Empty, Empty],
         {1, R_ESP, 5}, [0, 2, 0, 0, 2, 1, 0, 0])
  }

  lemma FirstStore()
    ensures AfterStore(START, 0, 0) == OneStored()
  {
    var b := START;
    assert Where(b, 8) == -1 by { assert WhereFrom(b, 8, 4) == WhereFrom(b, 8, 8); }
    assert Pick(b, AddressRegs(), 0) == 5 by { assert Pick(b, AddressRegs(), 3) == 5; }
    var c := Prepared(b, 0).0;
    assert c == Book([Empty, Empty, Empty, Empty, Empty, Holds(8, false, ZERO, BO_NORMAL), Empty, Empty],
                     {R_ESP, 5}, [0, 0, 0, 0, 2, 1, 0, 0]);
    assert Where(c, 0) == -1 by { assert WhereFrom(c, 0, 4) == WhereFrom(c, 0, 8); }
    assert Pick(c, AllRegs(), 0) == 0;
    var d := Got(c, AllRegs(), 0, true, 2).0;
    assert d.e == [Holds(0, false, ZERO, BO_NORMAL), Empty, Empty, Empty, Empty, Holds(8, false, ZERO, BO_NORMAL),
                   Empty, Empty];
  }

  lemma SecondStore()
    ensures AfterStore(Renewed(OneStored()), 1, 0) == TwoStored()
  {
    var b := Renewed(OneStored());
    assert Where(b, 8) == 5 by { assert WhereFrom(b, 8, 4) == 5; }
    var c := Prepared(b, 0).0;
    assert c == OneStored().(busy := {R_ESP, 5}, locks := [0, 0, 0, 0, 2, 1, 0, 0]);
    assert Where(c, 1) == -1 by { assert WhereFrom(c, 1, 4) == WhereFrom(c, 1, 8); }
    assert Pick(c, AllRegs(), 0) == 1 by { assert Pick(c, AllRegs(), 1) == 1; }
    var d := Got(c, AllRegs(), 1, true, 2).0;
    assert d.e == OneStored().e[1 := Holds(1, false, ZERO, BO_NORMAL)];
  }

  /** From an empty cache the move reverses the bytes. */
  lemma ReversingReverses()
    ensures Reversals(START, REVERSING) == [false, false, true]
  {
    var ops := REVERSING;
    hide AfterStore, Reverses;
    assert ops[..1] == [Store(0, true, 0, ZERO)] && ops[..2] == [Store(0, true, 0, ZERO), Store(1, true, 0, ZERO)];
    assert ops[..2][..1] == ops[..1] && ops[..1][..0] == [];
    assert Renewed(START) == START;
    FirstStore();
    SecondStore();
    assert RunBook(START, ops[..1]) == OneStored();
    assert RunBook(START, ops[..2]) == TwoStored();
    assert Reversals(START, ops[..1]) == [false] && Reversals(START, ops[..2]) == [false, false];
    ThenReversed();
  }

  lemma ThenReversed()
    ensures Reverses(Renewed(TwoStored()), 0, 1)
  {
    var b := Renewed(TwoStored());
    assert Where(b, 0) == 0 && Where(b, 1) == 1;
  }

  /** So D1 ends up with the bytes of D0 in the wrong order. */
  method ReversedMove(d0: Word, home: seq<Word>, x86: seq<Word>, mem: Memory) returns (d1: Word)
    requires |home| == 16 && |x86| == 8 && home[0] == d0
    ensures d1 == SwapLong(d0)
  {
    var m := new RegisterMapping(home, x86, mem);
    StartIs(m.t);
    ghost var g := GuestOf(m);
    RunBlock(m, REVERSING);
    ReversedGuest(g);
    d1 := m.t.home[1];
  }

  lemma StartIs(t: Tables)
    requires Valid(t) && Fresh(t) && forall x :: 0 <= x < 8 ==> t.cacheReg[x] == -1
    ensures BookOf(t) == START
  {
    assert BookOf(t).e == START.e;
    assert BookOf(t).busy == START.busy;
  }

  lemma ReversedGuest(g: Guest)
    requires |g.regs| == 16
    ensures EagerAll(g, REVERSING, Reversals(START, REVERSING)).regs[1] == SwapLong(g.regs[0])
  {
    ReversingReverses();
    hide Reversals, EagerAll, PutLong, Add, SwapLong;
    var none: seq<Op> := [];
    var a, b, c := Store(0, true, 0, ZERO), Store(1, true, 0, ZERO), Move(0, true, 1, true);
    assert REVERSING == ([a] + [b]) + [c] && [false, false, true] == ([false] + [false]) + [true];
    var no: seq<bool> := [];
    EagerSnoc(g, none, a, no, false);
    assert none + [a] == [a] && no + [false] == [false];
    EagerNone(g);
    var one := EagerAll(g, [a], [false]);
    assert one == Eager(g, a, false) && one.regs == g.regs;
    EagerSnoc(g, [a], b, [false], false);
    var two := EagerAll(g, [a] + [b], [false] + [false]);
    assert two == Eager(one, b, false) && two.regs == g.regs;
    EagerSnoc(g, [a] + [b], c, [false] + [false], true);
    assert Eager(two, c, true).regs[1] == SwapLong(two.regs[0]);
  }

  lemma EagerNone(g: Guest)
    requires |g.regs| == 16
    ensures EagerAll(g, [], []) == g
  {
  }

  lemma EagerSnoc(g: Guest, ops: seq<Op>, op: Op, r: seq<bool>, x: bool)
    requires |g.regs| == 16 && |r| == |ops| && forall o :: o in ops + [op] ==> WellFormed(o)
    ensures (forall o :: o in ops ==> WellFormed(o)) && WellFormed(op)
    ensures EagerAll(g, ops + [op], r + [x]) == Eager(EagerAll(g, ops, r), op, x)
  {
    hide Eager, WellFormed;
    assert forall o :: o in ops ==> o in ops + [op];
    assert op in ops + [op];
    assert (ops + [op])[..|ops|] == ops && (r + [x])[..|ops|] == r;
  }

  /** No 68k register is held twice. */
  predicate HeldOnce(b: Book) {
    forall x, y :: 0 <= x < y < 8 && b.e[x].Holds? && b.e[y].Holds? ==> b.e[x].slot != b.e[y].slot
  }

  /** What reverses a move, entry by entry: source and destination are different and both cached without a pending
      offset; the destination is a data register in swapped order; the source is clean and not in normal order. */
  lemma ReversesWhen(b: Book, s: int, d: int)
    requires HeldOnce(b)
    ensures Reverses(b, s, d) <==>
            s != d && d < 8
            && exists x, y :: 0 <= x < 8 && 0 <= y < 8
                 && b.e[x].Holds? && b.e[x].slot == s && !b.e[x].dirty && b.e[x].offset == ZERO && b.e[x].order != BO_NORMAL
                 && b.e[y].Holds? && b.e[y].slot == d && b.e[y].offset == ZERO && b.e[y].order == BO_SWAPPED_LONG
  {
    hide WhereFrom;
    var i, j := Where(b, s), Where(b, d);
    FoundIf(b, s);
    FoundIf(b, d);
  }

  lemma FoundIf(b: Book, s: int)
    requires HeldOnce(b)
    ensures var x := Where(b, s);
            && (x != -1 ==> b.e[x].Holds? && b.e[x].slot == s)
            && forall y :: 0 <= y < 8 && b.e[y].Holds? && b.e[y].slot == s ==> y == x
  {
  }
}
