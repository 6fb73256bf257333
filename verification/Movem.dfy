/**
 MOVEM with the register tables of init_m68k (src/newcpu.c) and the loops that genmovemle and
 genmovemel (src/gencpu.c) emit, and the mask reversal of src/compiler.c.
 */
module Movem {

  import opened Powers
  import opened Bytes

  // --------------------------------------------------------------------- bits and tables

  /** m & (1 << j) */
  predicate Bit(m: nat, j: nat) {
    if j == 0 then m % 2 == 1 else Bit(m / 2, j - 1)
  }

  /** The lowest bit that is set. */
  function Lowest(m: nat): (j: nat)
    requires m > 0
    ensures Bit(m, j) && forall k: nat :: k < j ==> !Bit(m, k)
  {
    if m % 2 == 1 then 0 else Lowest(m / 2) + 1
  }

  /** m & ~(1 << Lowest(m)) */
  function Next(m: nat): (r: nat)
    requires m > 0
    ensures r < m
  {
    if m % 2 == 1 then m - 1 else 2 * Next(m / 2)
  }

  /** The table entry movem_next loses the lowest bit and no other. */
  lemma {:induction false} NextBits(m: nat, k: nat)
    requires m > 0
    ensures Bit(Next(m), k) <==> Bit(m, k) && k != Lowest(m)
  {
    if k > 0 && m % 2 == 0 {
      NextBits(m / 2, k - 1);
    }
  }

  lemma {:induction false} NextIsMinus(m: nat)
    requires m > 0
    ensures m == Next(m) + Pow2(Lowest(m))
  {
    if m % 2 == 0 {
      NextIsMinus(m / 2);
    }
  }

  lemma {:induction false} ZeroBits(j: nat)
    ensures !Bit(0, j)
  {
    if j > 0 {
      ZeroBits(j - 1);
    }
  }

  lemma {:induction false} SmallBits(m: nat, n: nat, j: nat)
    requires m < Pow2(n) && Bit(m, j)
    ensures j < n
  {
    if n == 0 {
      ZeroBits(j);
    } else if j > 0 {
      SmallBits(m / 2, n - 1, j - 1);
    }
  }

  /** Numbers with the same bits are the same. */
  lemma {:induction false} SameBits(a: nat, b: nat, n: nat)
    requires a < Pow2(n) && b < Pow2(n) && forall j :: 0 <= j < n ==> Bit(a, j) == Bit(b, j)
    ensures a == b
  {
    if n > 0 {
      forall j | 0 <= j < n - 1 ensures Bit(a / 2, j) == Bit(b / 2, j) {
        assert Bit(a, j + 1) == Bit(b, j + 1);
      }
      SameBits(a / 2, b / 2, n - 1);
      assert Bit(a, 0) == Bit(b, 0);
    }
  }

  /** The bits that a loop driven by the tables visits, in order. */
  function Visited(m: nat): seq<int> {
    if m == 0 then [] else [Lowest(m)] + Visited(Next(m))
  }

  /** The set bits from k up to n-1, in order. */
  function Up(m: nat, k: nat, n: nat): seq<int>
    requires k <= n
    decreases n - k
  {
    if k == n then [] else (if Bit(m, k) then [k] else []) + Up(m, k + 1, n)
  }

  /** Each table loop visits every set bit of the mask once, lowest first, and ends. */
  lemma {:induction false} VisitsEachBitOnce(m: nat, n: nat)
    requires m < Pow2(n)
    ensures Visited(m) == Up(m, 0, n)
  {
    if m == 0 {
      NothingUp(0, 0, n);
    } else {
      VisitsEachBitOnce(Next(m), n);
      hide Lowest, Next;
      NextUp(m, n);
    }
  }

  lemma NextUp(m: nat, n: nat)
    requires 0 < m < Pow2(n)
    ensures Up(m, 0, n) == [Lowest(m)] + Up(Next(m), 0, n)
  {
    var j, next := Lowest(m), Next(m);
    SmallBits(m, n, j);
    forall k | 0 <= k < n ensures Bit(next, k) <==> Bit(m, k) && k != j {
      NextBits(m, k);
    }
    assert Bit(m, j) && forall i :: 0 <= i < j ==> !Bit(m, i);
    hide Bit, Lowest, Next;
    SkipZeros(m, 0, j, n);
    SkipZeros(next, 0, j + 1, n);
    SameUp(m, next, j + 1, n);
  }

  lemma {:induction false} NothingUp(m: nat, k: nat, n: nat)
    requires k <= n && m == 0
    ensures Up(m, k, n) == []
    decreases n - k
  {
    ZeroBits(k);
    if k < n {
      NothingUp(m, k + 1, n);
    }
  }

  lemma {:induction false} SkipZeros(m: nat, k: nat, j: nat, n: nat)
    requires k <= j <= n && forall i :: k <= i < j ==> !Bit(m, i)
    ensures Up(m, k, n) == Up(m, j, n)
    decreases j - k
  {
    if k < j {
      SkipZeros(m, k + 1, j, n);
    }
  }

  lemma {:induction false} SameUp(a: nat, b: nat, k: nat, n: nat)
    requires k <= n && forall i :: k <= i < n ==> Bit(a, i) == Bit(b, i)
    ensures Up(a, k, n) == Up(b, k, n)
    decreases n - k
  {
    if k < n {
      SameUp(a, b, k + 1, n);
    }
  }

  // ----------------------------------------------------------------------- mask reversal

  /** The 16-bit mask with its bits in the opposite order, as bitswap makes it. */
  predicate Swapped(m: nat, r: nat) {
    m < 0x1_0000 && r < 0x1_0000 && forall k :: 0 <= k < 16 ==> Bit(r, k) == Bit(m, 15 - k)
  }

  /** Swapping twice gives back the mask. */
  lemma SwapTwice(m: nat, r: nat, s: nat)
    requires Swapped(m, r) && Swapped(r, s)
    ensures s == m
  {
    forall k | 0 <= k < 16 ensures Bit(s, k) == Bit(m, k) {
      assert Bit(s, k) == Bit(r, 15 - k);
      assert Bit(r, 15 - k) == Bit(m, 15 - (15 - k));
    }
    Pow16();
    SameBits(m, s, 16);
  }

  lemma Pow16()
    ensures Pow2(8) == 0x100 && Pow2(16) == 0x1_0000
  {
    assert Pow2(4) == 16;
    assert Pow2(12) == 4096;
  }

  function Mirror(s: seq<int>): seq<int> {
    if s == [] then [] else Mirror(s[1..]) + [15 - s[0]]
  }

  /** The listed registers in the order of the reversed mask are those of the mask mirrored, in
      the opposite order. */
  lemma {:induction false} SwappedOrder(m: nat, r: nat, k: nat)
    requires Swapped(m, r) && k <= 16
    ensures Mirror(Up(m, k, 16)) == Up(r, 0, 16 - k)
    decreases 16 - k
  {
    hide Bit, Up;
    if k < 16 {
      SwappedOrder(m, r, k + 1);
      OneMoreUp(r, 0, 15 - k);
      assert Bit(r, 15 - k) == Bit(m, 15 - (15 - k));
      UpStep(m, k, 16);
      var u := Up(m, k + 1, 16);
      if Bit(m, k) {
        MirrorStep(k, u);
      } else {
        assert [] + u == u;
      }
    } else {
      UpNone(m, 16);
      UpNone(r, 0);
    }
  }

  lemma MirrorStep(k: int, u: seq<int>)
    ensures Mirror([k] + u) == Mirror(u) + [15 - k]
  {
    assert ([k] + u)[1..] == u;
  }

  lemma {:induction false} OneMoreUp(m: nat, k: nat, n: nat)
    requires k <= n
    ensures Up(m, k, n + 1) == Up(m, k, n) + if Bit(m, n) then [n] else []
    decreases n - k
  {
    hide Bit, Up;
    var tail := if Bit(m, n) then [n] else [];
    UpStep(m, k, n + 1);
    if k < n {
      UpStep(m, k, n);
      OneMoreUp(m, k + 1, n);
      var head := if Bit(m, k) then [k] else [];
      assert head + (Up(m, k + 1, n) + tail) == (head + Up(m, k + 1, n)) + tail;
    } else {
      UpNone(m, n);
      UpNone(m, n + 1);
    }
  }

  lemma UpStep(m: nat, k: nat, n: nat)
    requires k < n
    ensures Up(m, k, n) == (if Bit(m, k) then [k] else []) + Up(m, k + 1, n)
  {
    hide Bit;
  }

  lemma UpNone(m: nat, n: nat)
    ensures Up(m, n, n) == []
  {
    hide Bit;
  }

  // ------------------------------------------------------------------- stores and loads

  /** Big-endian access to RAM; a word access takes the low half of the register. */
  function Put(mem: seq<int>, at: nat, size: nat, v: int): (r: seq<int>)
    requires (size == 2 || size == 4) && at + size <= |mem|
    ensures |r| == |mem| && forall i :: 0 <= i < |mem| && !(at <= i < at + size) ==> r[i] == mem[i]
  {
    if size == 2 then mem[at := v / 0x100 % 0x100][at + 1 := v % 0x100]
    else mem[at := v / 0x100_0000 % 0x100][at + 1 := v / 0x1_0000 % 0x100][at + 2 := v / 0x100 % 0x100][at + 3 := v % 0x100]
  }

  /** get_long, or get_word sign-extended to 32 bits. */
  function Get(mem: seq<int>, at: nat, size: nat): int
    requires (size == 2 || size == 4) && at + size <= |mem|
  {
    if size == 2 then SignExtend(mem[at] * 0x100 + mem[at + 1])
    else mem[at] * 0x100_0000 + mem[at + 1] * 0x1_0000 + mem[at + 2] * 0x100 + mem[at + 3]
  }

  function SignExtend(v: int): int { if v >= 0x8000 then v + 0xFFFF_0000 else v }

  /** What a register is after it has been stored and loaded again: itself, or the sign extension
      of its low word. */
  function Reloaded(size: nat, v: int): int { if size == 4 then v else SignExtend(v % 0x1_0000) }

  lemma GetPut(mem: seq<int>, at: nat, size: nat, v: int)
    requires (size == 2 || size == 4) && at + size <= |mem| && 0 <= v < 0x1_0000_0000
    ensures Get(Put(mem, at, size, v), at, size) == Reloaded(size, v)
  {
    FourBytes(v);
    TwoBytes(v);
  }

  predicate Registers(list: seq<int>) { forall i :: 0 <= i < |list| ==> 0 <= list[i] < 16 }

  /** The room that n registers take. */
  function Room(size: nat, n: nat): nat { if n == 0 then 0 else size + Room(size, n - 1) }

  /** Stores the listed registers one below the other, starting below srca. */
  function StoreList(regs: seq<int>, list: seq<int>, size: nat, srca: nat, mem: seq<int>): (r: seq<int>)
    requires (size == 2 || size == 4) && |regs| == 16 && Registers(list) && Room(size, |list|) <= srca <= |mem|
    ensures |r| == |mem|
    ensures forall i :: 0 <= i < |mem| && !(srca - Room(size, |list|) <= i < srca) ==> r[i] == mem[i]
    decreases |list|
  {
    if list == [] then mem
    else StoreList(regs, list[1..], size, srca - size, Put(mem, srca - size, size, regs[list[0]]))
  }

  /** Loads the listed registers from srca upwards. */
  function LoadList(regs: seq<int>, list: seq<int>, size: nat, srca: nat, mem: seq<int>): (r: seq<int>)
    requires (size == 2 || size == 4) && |regs| == 16 && Registers(list) && srca + Room(size, |list|) <= |mem|
    ensures |r| == 16
    decreases |list|
  {
    if list == [] then regs
    else LoadList(regs[list[0] := Get(mem, srca, size)], list[1..], size, srca + size, mem)
  }

  function Reverse(s: seq<int>): (r: seq<int>)
    ensures |r| == |s|
    ensures Registers(s) ==> Registers(r)
  {
    if s == [] then [] else Reverse(s[1..]) + [s[0]]
  }

  lemma {:induction false} LoadLast(regs: seq<int>, list: seq<int>, x: int, size: nat, srca: nat, mem: seq<int>)
    requires (size == 2 || size == 4) && |regs| == 16 && Registers(list) && 0 <= x < 16
    requires srca + Room(size, |list|) + size <= |mem|
    ensures Registers(list + [x]) && Room(size, |list + [x]|) == Room(size, |list|) + size
    ensures LoadList(regs, list + [x], size, srca, mem) ==
            LoadList(regs, list, size, srca, mem)[x := Get(mem, srca + Room(size, |list|), size)]
    decreases |list|
  {
    hide Get;
    if list == [] {
      assert [] + [x] == [x] && [x][1..] == [];
    } else {
      assert (list + [x])[1..] == list[1..] + [x];
      LoadLast(regs[list[0] := Get(mem, srca, size)], list[1..], x, size, srca + size, mem);
    }
  }

  /** Loading in the opposite order from where storing ended brings back every listed register,
      whatever has happened to the registers in between. */
  lemma {:induction false} LoadAfterStore(regs: seq<int>, list: seq<int>, size: nat, srca: nat, mem: seq<int>,
                                          now: seq<int>, nowMem: seq<int>)
    requires (size == 2 || size == 4) && |regs| == 16 && Registers(list) && Room(size, |list|) <= srca <= |mem|
    requires forall i :: 0 <= i < 16 ==> 0 <= regs[i] < 0x1_0000_0000
    requires |now| == 16 && |nowMem| == |mem|
    requires var stored := StoreList(regs, list, size, srca, mem);
             forall i :: srca - Room(size, |list|) <= i < srca ==> nowMem[i] == stored[i]
    ensures var r := LoadList(now, Reverse(list), size, srca - Room(size, |list|), nowMem);
            forall q :: 0 <= q < 16 ==> r[q] == if q in list then Reloaded(size, regs[q]) else now[q]
    decreases |list|
  {
    hide Get, Put, Reloaded;
    if list != [] {
      var x, rest := list[0], list[1..];
      var put := Put(mem, srca - size, size, regs[x]);
      LoadAfterStore(regs, rest, size, srca - size, put, now, nowMem);
      var base := srca - Room(size, |list|);
      LoadLast(now, Reverse(rest), x, size, base, nowMem);
      var stored := StoreList(regs, list, size, srca, mem);
      SameGet(nowMem, put, srca - size, size);
      GetPut(mem, srca - size, size, regs[x]);
      assert forall q :: q in list <==> q == x || q in rest;
    }
  }

  lemma SameGet(a: seq<int>, b: seq<int>, at: nat, size: nat)
    requires (size == 2 || size == 4) && |a| == |b| && at + size <= |a|
    requires forall i :: at <= i < at + size ==> a[i] == b[i]
    ensures Get(a, at, size) == Get(b, at, size)
  {
  }

  // ----------------------------------------------------------------- the instructions

  /** m & ((1 << n) - 1) */
  function Low(m: nat, n: nat): (r: nat)
    ensures r < Pow2(n)
    ensures n > 0 ==> r % 2 == m % 2
  {
    if n == 0 then 0
    else
      var half := Low(m / 2, n - 1);
      Doubled(half);
      if m % 2 == 1 then 2 * half + 1 else 2 * half
  }

  /** m >> n */
  function High(m: nat, n: nat): nat { if n == 0 then m else High(m / 2, n - 1) }

  lemma {:induction false} LowBits(m: nat, n: nat, j: nat)
    requires j < n
    ensures Bit(Low(m, n), j) == Bit(m, j)
  {
    if j > 0 {
      LowBits(m / 2, n - 1, j - 1);
    }
  }

  lemma {:induction false} HighBits(m: nat, n: nat, j: nat)
    ensures Bit(High(m, n), j) == Bit(m, j + n)
  {
    if n > 0 {
      HighBits(m / 2, n - 1, j);
    }
  }

  lemma {:induction false} HighFits(m: nat, n: nat, k: nat)
    requires m < Pow2(n + k)
    ensures High(m, n) < Pow2(k)
  {
    if n > 0 {
      HighFits(m / 2, n - 1, k);
    }
  }

  /** c + sign * j for every j of the list. */
  function Each(c: int, minus: bool, s: seq<int>): seq<int> {
    if s == [] then [] else [if minus then c - s[0] else c + s[0]] + Each(c, minus, s[1..])
  }

  /** The order in which MOVEM to -(An) stores: address registers by movem_index2 first, then data
      registers.  Registers 0 to 7 are D0 to D7, 8 to 15 are A0 to A7. */
  function StoreOrder(mask: nat): seq<int> {
    Each(15, true, Visited(Low(mask, 8))) + Each(7, true, Visited(High(mask, 8)))
  }

  /** The order in which MOVEM from (An)+ loads: data registers by movem_index1 first. */
  function LoadOrder(mask: nat): seq<int> {
    Visited(Low(mask, 8)) + Each(8, false, Visited(High(mask, 8)))
  }

  /** The bits of a 16-bit mask in order, as the two loops over its halves visit them. */
  lemma HalvesAreUp(mask: nat)
    requires mask < 0x1_0000
    ensures Visited(Low(mask, 8)) == Up(mask, 0, 8)
    ensures Each(8, false, Visited(High(mask, 8))) == Up(mask, 8, 16)
  {
    hide Visited, Up, Low, High, Pow2;
    Pow16();
    assert Pow2(8 + 8) == Pow2(16);
    HighFits(mask, 8, 8);
    VisitsEachBitOnce(Low(mask, 8), 8);
    VisitsEachBitOnce(High(mask, 8), 8);
    forall j | 0 <= j < 8 ensures Bit(Low(mask, 8), j) == Bit(mask, j) {
      LowBits(mask, 8, j);
    }
    SameUp(Low(mask, 8), mask, 0, 8);
    forall j | 0 <= j < 8 ensures Bit(High(mask, 8), j) == Bit(mask, j + 8) {
      HighBits(mask, 8, j);
    }
    ShiftedUp(High(mask, 8), mask, 0);
  }

  lemma {:induction false} ShiftedUp(h: nat, m: nat, k: nat)
    requires k <= 8 && forall j :: 0 <= j < 8 ==> Bit(h, j) == Bit(m, j + 8)
    ensures Each(8, false, Up(h, k, 8)) == Up(m, k + 8, 16)
    decreases 8 - k
  {
    hide Bit, Up;
    if k < 8 {
      ShiftedUp(h, m, k + 1);
      UpStep(h, k, 8);
      UpStep(m, k + 8, 16);
      var u := Up(h, k + 1, 8);
      assert ([k] + u)[1..] == u && [] + u == u;
      assert [] + Up(m, k + 9, 16) == Up(m, k + 9, 16);
    } else {
      UpNone(h, 8);
      UpNone(m, 16);
    }
  }

  lemma {:induction false} UpJoins(m: nat, k: nat, j: nat, n: nat)
    requires k <= j <= n
    ensures Up(m, k, j) + Up(m, j, n) == Up(m, k, n)
    decreases j - k
  {
    hide Bit, Up;
    if k < j {
      UpJoins(m, k + 1, j, n);
      UpStep(m, k, j);
      UpStep(m, k, n);
      var head := if Bit(m, k) then [k] else [];
      assert (head + Up(m, k + 1, j)) + Up(m, j, n) == head + (Up(m, k + 1, j) + Up(m, j, n));
    } else {
      UpNone(m, k);
    }
  }

  lemma {:induction false} EachJoins(c: int, minus: bool, s: seq<int>, t: seq<int>)
    ensures Each(c, minus, s + t) == Each(c, minus, s) + Each(c, minus, t)
  {
    if s == [] {
      assert s + t == t;
    } else {
      assert (s + t)[1..] == s[1..] + t;
      EachJoins(c, minus, s[1..], t);
    }
  }

  lemma {:induction false} EachTwice(s: seq<int>)
    ensures Each(15, true, Each(8, false, s)) == Each(7, true, s)
  {
    if s != [] {
      EachTwice(s[1..]);
      assert Each(8, false, s)[1..] == Each(8, false, s[1..]);
    }
  }

  lemma {:induction false} MirrorIsReverse(s: seq<int>)
    ensures Mirror(s) == Reverse(Each(15, true, s))
  {
    if s != [] {
      MirrorIsReverse(s[1..]);
      assert Each(15, true, s)[1..] == Each(15, true, s[1..]);
    }
  }

  predicate Opposite(s: seq<int>, t: seq<int>) { s == Reverse(t) }

  /** The two loops of the store and the two loops of the load with the reversed mask name the
      same registers in opposite orders. */
  lemma OrdersAreOpposite(mask: nat, swapped: nat)
    requires Swapped(mask, swapped)
    ensures Opposite(LoadOrder(swapped), StoreOrder(mask))
  {
    hide Bit, Up, Low, High, Visited;
    HalvesAreUp(mask);
    UpJoins(mask, 0, 8, 16);
    LoadOrderIsUp(swapped);
    EachTwice(Visited(High(mask, 8)));
    EachJoins(15, true, Up(mask, 0, 8), Up(mask, 8, 16));
    SwappedOrder(mask, swapped, 0);
    MirrorIsReverse(Up(mask, 0, 16));
  }

  lemma LoadOrderIsUp(mask: nat)
    requires mask < 0x1_0000
    ensures LoadOrder(mask) == Up(mask, 0, 16)
  {
    hide Bit, Up, Low, High, Visited;
    HalvesAreUp(mask);
    UpJoins(mask, 0, 8, 16);
  }

  /** A register is listed exactly if its bit is set: bit q of the load mask for register q. */
  lemma {:induction false} UpLists(m: nat, k: nat, n: nat, q: int)
    requires k <= n
    ensures q in Up(m, k, n) <==> k <= q < n && Bit(m, q)
    decreases n - k
  {
    hide Bit;
    if k < n {
      UpLists(m, k + 1, n, q);
    }
  }

  lemma {:induction false} ReverseLists(s: seq<int>, q: int)
    ensures q in Reverse(s) <==> q in s
  {
    if s != [] {
      ReverseLists(s[1..], q);
      assert q in s <==> q == s[0] || q in s[1..];
    }
  }

  lemma {:induction false} ReverseTwice(s: seq<int>)
    ensures Reverse(Reverse(s)) == s
  {
    if s != [] {
      ReverseTwice(s[1..]);
      ReverseEnd(Reverse(s[1..]), s[0]);
    }
  }

  lemma {:induction false} ReverseEnd(s: seq<int>, x: int)
    ensures Reverse(s + [x]) == [x] + Reverse(s)
  {
    if s == [] {
      assert [] + [x] == [x] && [x][1..] == [];
    } else {
      assert (s + [x])[1..] == s[1..] + [x];
      ReverseEnd(s[1..], x);
    }
  }

  /** Every register in the list is a register. */
  lemma OrdersAreRegisters(mask: nat, swapped: nat)
    requires Swapped(mask, swapped)
    ensures Registers(LoadOrder(swapped)) && Registers(StoreOrder(mask))
  {
    hide Bit, Up, LoadOrder, StoreOrder;
    OrdersAreOpposite(mask, swapped);
    LoadOrderIsUp(swapped);
    var u := Up(swapped, 0, 16);
    forall i | 0 <= i < |u| ensures 0 <= u[i] < 16 {
      UpLists(swapped, 0, 16, u[i]);
    }
    assert Registers(u);
    ReverseTwice(StoreOrder(mask));
    assert Registers(Reverse(u));
  }

  /** MOVEM regs,-(An) with a mask followed, some time later, by MOVEM (An)+,regs with the reversed
      mask, An and the saved area being as the first one left them: every listed register is
      back, the others are as they were, and the address that An is set to is its old value. */
  lemma RoundTrip(regs: seq<int>, an: nat, mask: nat, swapped: nat, size: nat, mem: seq<int>, now: seq<int>,
                  nowMem: seq<int>,
                  store: seq<int>, load: seq<int>)
    requires Orders(mask, swapped, store, load)
    requires (size == 2 || size == 4) && |regs| == |now| == 16 && AreWords(regs)
    requires Registers(store) && Room(size, |store|) <= an <= |mem|
    requires Agree(nowMem, StoreList(regs, store, size, an, mem), an - Room(size, |store|), an)
    ensures |mem| == |nowMem| && Registers(load) && Room(size, |load|) == Room(size, |store|)
    ensures Restores(regs, now, LoadList(now, load, size, an - Room(size, |store|), nowMem), swapped, size)
  {
    hide *;
    OrderFacts(mask, swapped, store, load);
    SameLength(nowMem, StoreList(regs, store, size, an, mem), an - Room(size, |store|), an);
    Restored(regs, store, size, an, mem, now, nowMem, swapped, load);
  }

  predicate AreWords(regs: seq<int>) { forall i :: 0 <= i < |regs| ==> 0 <= regs[i] < 0x1_0000_0000 }

  /** Register q has its old value if bit q of the load mask is set, and its present one if not. */
  predicate Restores(regs: seq<int>, now: seq<int>, r: seq<int>, swapped: nat, size: nat) {
    && |regs| == |now| == |r| == 16
    && forall q :: 0 <= q < 16 ==> r[q] == if Bit(swapped, q) then Reloaded(size, regs[q]) else now[q]
  }

  lemma SameLength(a: seq<int>, b: seq<int>, lo: int, hi: int)
    requires Agree(a, b, lo, hi)
    ensures |a| == |b|
  {
  }

  /** `store` is the order for the mask and `load` the order for the reversed mask. */
  predicate Orders(mask: nat, swapped: nat, store: seq<int>, load: seq<int>) {
    Swapped(mask, swapped) && store == StoreOrder(mask) && load == LoadOrder(swapped)
  }

  lemma OrderFacts(mask: nat, swapped: nat, store: seq<int>, load: seq<int>)
    requires Orders(mask, swapped, store, load)
    ensures Registers(store) && Registers(load) && Opposite(load, store)
    ensures forall q :: 0 <= q < 16 ==> (q in store <==> Bit(swapped, q))
  {
    hide StoreOrder, LoadOrder, Swapped, Registers, Opposite, Bit;
    OrdersAreOpposite(mask, swapped);
    OrdersAreRegisters(mask, swapped);
    StoreLists(mask, swapped);
  }

  /** Two memories agree from lo up to hi. */
  predicate Agree(a: seq<int>, b: seq<int>, lo: int, hi: int) {
    |a| == |b| && forall i :: lo <= i < hi && 0 <= i < |a| ==> a[i] == b[i]
  }

  lemma Restored(regs: seq<int>, list: seq<int>, size: nat, an: int, mem: seq<int>, now: seq<int>, nowMem: seq<int>,
                 swapped: nat, order: seq<int>)
    requires (size == 2 || size == 4) && |regs| == |now| == 16 && AreWords(regs)
    requires Registers(list) && Registers(order) && Opposite(order, list)
    requires Room(size, |list|) <= an <= |mem| == |nowMem|
    requires Agree(nowMem, StoreList(regs, list, size, an, mem), an - Room(size, |list|), an)
    requires forall q :: 0 <= q < 16 ==> (q in list <==> Bit(swapped, q))
    ensures Room(size, |order|) == Room(size, |list|)
    ensures Restores(regs, now, LoadList(now, order, size, an - Room(size, |list|), nowMem), swapped, size)
  {
    hide Registers, Room, StoreList, LoadList, Reverse, Bit, Reloaded;
    LoadAfterStore(regs, list, size, an, mem, now, nowMem);
  }

  lemma StoreLists(mask: nat, swapped: nat)
    requires Swapped(mask, swapped)
    ensures forall q :: 0 <= q < 16 ==> (q in StoreOrder(mask) <==> Bit(swapped, q))
  {
    hide Bit, Up, LoadOrder, StoreOrder;
    OrdersAreOpposite(mask, swapped);
    LoadOrderIsUp(swapped);
    forall q | 0 <= q < 16 ensures q in StoreOrder(mask) <==> Bit(swapped, q) {
      UpLists(swapped, 0, 16, q);
      ReverseLists(StoreOrder(mask), q);
    }
  }

  // ------------------------------------------------------- the code, step by step

  /** The table entries for index i; an empty index has none and stays where it is. */
  predicate EntryOk(i: nat, index1: int, index2: int, next: int) {
    && index1 == (if i == 0 then 8 else Lowest(i)) && index2 == 7 - index1
    && next == (if i == 0 then 0 else Next(i))
  }

  /** Bit j is (m >> j) & 1. */
  lemma {:induction false} BitIsQuotient(i: nat, j: nat)
    ensures Bit(i, j) <==> i / Pow2(j) % 2 == 1
  {
    if j > 0 {
      BitIsQuotient(i / 2, j - 1);
      HalfQuotient(i, Pow2(j - 1));
    }
  }

  lemma HalfQuotient(i: nat, p: nat)
    requires p > 0
    ensures i / (2 * p) == i / 2 / p
  {
    var h := i / 2;
    var q, r := h / p, h % p;
    assert h == p * q + r;
    var s := 2 * r + i % 2;
    assert i == 2 * p * q + s;
    assert s < 2 * p;
    QuotientIs(i, 2 * p, q, s);
  }

  lemma QuotientIs(x: nat, m: nat, q: nat, r: nat)
    requires m > 0 && x == m * q + r && r < m
    ensures x / m == q
  {
    var d := x / m - q;
    assert m * d == r - x % m by {
      assert x == m * (x / m) + x % m;
    }
    assert d > 0 ==> m * d >= m;
    assert d < 0 ==> m * d <= 0 - m;
  }

  /** The processor: tables, registers (D0 to D7, then A0 to A7) and RAM. */
  class Processor {
    const index1: array<int>
    const index2: array<int>
    const next: array<int>
    var regs: seq<int>
    var mem: seq<int>

    ghost predicate Tables()
      reads index1, index2, next
    {
      && index1.Length == index2.Length == next.Length == 256
      && forall i :: 0 <= i < 256 ==> EntryOk(i, index1[i], index2[i], next[i])
    }

    /** init_m68k, the loop that fills the MOVEM tables. */
    constructor (initial: seq<int>, ram: seq<int>)
      ensures Tables() && fresh(index1) && fresh(index2) && fresh(next)
      ensures regs == initial && mem == ram
    {
      var i1, i2, nx := new int[256], new int[256], new int[256];
      var i: nat := 0;
      while i < 256
        invariant 0 <= i <= 256
        invariant forall k :: 0 <= k < i ==> EntryOk(k, i1[k], i2[k], nx[k])
      {
        var j: int := LowestBit(i);
        i1[i] := j;
        i2[i] := 7 - j;
        nx[i] := if j < 8 then i - Pow2(j) else i;
        if i > 0 {
          NextIsMinus(i);
        }
        i := i + 1;
      }
      index1, index2, next := i1, i2, nx;
      regs, mem := initial, ram;
    }

    /** The inner loop of init_m68k. */
    static method LowestBit(i: nat) returns (j: nat)
      requires i < 256
      ensures j == (if i == 0 then 8 else Lowest(i)) && (i > 0 ==> j < 8)
    {
      j := 0;
      while j < 8
        invariant 0 <= j <= 8 && forall k :: 0 <= k < j ==> !Bit(i, k)
      {
        if Bit(i, j) {
          ZeroBits(j);
          LowestIs(i, j);
          return;
        }
        j := j + 1;
      }
      if i > 0 {
        Pow16();
        SmallBits(i, 8, Lowest(i));
        assert false;
      }
    }

    /** bitswap */
    static method Bitswap(v: nat) returns (r: nat)
      requires v < 0x1_0000
      ensures Swapped(v, r)
    {
      r := 0;
      var i := 0;
      Pow16();
      forall k | 0 <= k < 16 ensures !Bit(0, k) { ZeroBits(k); }
      while i < 16
        invariant 0 <= i <= 16 && r < Pow2(16)
        invariant forall k :: 0 <= k < 16 ==> Bit(r, k) == (k >= 16 - i && Bit(v, 15 - k))
      {
        ghost var before := r;
        if Bit(v, i) {
          SetBit(r, 15 - i, 16);
          r := r + Pow2(15 - i);
        }
        forall k: nat | 0 <= k < 16 ensures Bit(r, k) == (k >= 15 - i && Bit(v, 15 - k)) {
          assert Bit(before, k) == (k >= 16 - i && Bit(v, 15 - k));
          if k == 15 - i {
            assert 15 - k == i;
            assert Bit(v, 15 - k) == Bit(v, i);
          }
        }
        i := i + 1;
      }
    }

    /** MOVEM to -(An), as genmovemle emits it. */
    method StorePredecrement(mask: nat, dst: nat, size: nat)
      requires Tables() && |regs| == 16 && mask < 0x1_0000 && dst < 8 && (size == 2 || size == 4)
      requires Registers(StoreOrder(mask)) && Room(size, |StoreOrder(mask)|) <= regs[8 + dst] <= |mem|
      modifies `regs, `mem
      ensures mem == StoreList(old(regs), StoreOrder(mask), size, old(regs[8 + dst]), old(mem))
      ensures regs == old(regs)[8 + dst := old(regs[8 + dst]) - Room(size, |StoreOrder(mask)|)]
    {
      hide Put, Low, High, Visited, Each, StoreList, Room, Registers, EntryOk;
      var amask, dmask := Low(mask, 8), High(mask, 8);
      HalvesFit(mask);
      var srca := regs[8 + dst];
      ghost var data := Each(7, true, Visited(dmask));
      ghost var r := StoreList(regs, StoreOrder(mask), size, srca, mem);
      srca := StoreHalf(amask, true, size, srca, data);
      NothingLeft(data);
      srca := StoreHalf(dmask, false, size, srca, []);
      StoredAll(regs, size, srca, mem);
      regs := regs[8 + dst := srca];
    }

    /** One of the two loops: address registers or data registers, `rest` being stored later. */
    method StoreHalf(half: nat, address: bool, size: nat, start: int, ghost rest: seq<int>) returns (srca: int)
      requires Tables() && |regs| == 16 && half < 256 && (size == 2 || size == 4)
      requires var list := Remaining(if address then 15 else 7, true, half, rest);
               Registers(list) && Room(size, |list|) <= start <= |mem|
      modifies `mem
      ensures Registers(rest) && Room(size, |rest|) <= srca <= |mem| == old(|mem|)
      ensures var list := Remaining(if address then 15 else 7, true, half, rest);
              && srca - Room(size, |rest|) == start - Room(size, |list|)
              && StoreList(regs, rest, size, srca, mem) == StoreList(regs, list, size, start, old(mem))
    {
      hide Put, Registers, Room, StoreList, Remaining;
      srca := start;
      var mask := half;
      var top := if address then 15 else 7;
      while mask != 0
        invariant 0 <= mask < 256 && |mem| == old(|mem|)
        invariant Registers(Remaining(top, true, mask, rest))
        invariant Room(size, |Remaining(top, true, mask, rest)|) <= srca <= |mem|
        invariant StoreList(regs, Remaining(top, true, mask, rest), size, srca, mem) ==
                  StoreList(regs, Remaining(top, true, half, rest), size, start, old(mem))
        invariant srca - Room(size, |Remaining(top, true, mask, rest)|) ==
                  start - Room(size, |Remaining(top, true, half, rest)|)
        decreases mask
      {
        assert EntryOk(mask, index1[mask], index2[mask], next[mask]);
        FirstStored(regs, mask, top, rest, size, srca, mem);
        srca := srca - size;
        mem := Put(mem, srca, size, regs[(if address then 8 else 0) + index2[mask]]);
        mask := next[mask];
      }
      NothingVisited(top, rest);
    }

    /** MOVEM from (An)+, as genmovemel emits it. */
    method LoadPostincrement(mask: nat, dst: nat, size: nat)
      requires Tables() && |regs| == 16 && mask < 0x1_0000 && dst < 8 && (size == 2 || size == 4)
      requires Registers(LoadOrder(mask)) && 0 <= regs[8 + dst] && regs[8 + dst] + Room(size, |LoadOrder(mask)|) <= |mem|
      modifies `regs
      ensures regs == LoadList(old(regs), LoadOrder(mask), size, old(regs[8 + dst]), mem)
                        [8 + dst := old(regs[8 + dst]) + Room(size, |LoadOrder(mask)|)]
    {
      hide Get, Low, High, Visited, Each, LoadList, Room, Registers, EntryOk;
      var dmask, amask := Low(mask, 8), High(mask, 8);
      LoadHalvesFit(mask);
      var srca := regs[8 + dst];
      ghost var addresses := Each(8, false, Visited(amask));
      srca := LoadHalf(dmask, false, size, srca, addresses);
      NothingLeft(addresses);
      srca := LoadHalf(amask, true, size, srca, []);
      LoadedAll(regs, size, srca, mem);
      regs := regs[8 + dst := srca];
    }

    /** One of the two loops: data registers or address registers, `rest` being loaded later. */
    method LoadHalf(half: nat, address: bool, size: nat, start: int, ghost rest: seq<int>) returns (srca: int)
      requires Tables() && |regs| == 16 && half < 256 && (size == 2 || size == 4)
      requires var list := Remaining(if address then 8 else 0, false, half, rest);
               Registers(list) && 0 <= start && start + Room(size, |list|) <= |mem|
      modifies `regs
      ensures |regs| == 16 && Registers(rest) && 0 <= srca && srca + Room(size, |rest|) <= |mem|
      ensures var list := Remaining(if address then 8 else 0, false, half, rest);
              && srca + Room(size, |rest|) == start + Room(size, |list|)
              && LoadList(regs, rest, size, srca, mem) == LoadList(old(regs), list, size, start, mem)
    {
      hide Get, Registers, Room, LoadList, Remaining;
      srca := start;
      var mask := half;
      var first := if address then 8 else 0;
      while mask != 0
        invariant 0 <= mask < 256 && |regs| == 16 && 0 <= srca
        invariant Registers(Remaining(first, false, mask, rest))
        invariant srca + Room(size, |Remaining(first, false, mask, rest)|) ==
                  start + Room(size, |Remaining(first, false, half, rest)|)
        invariant LoadList(regs, Remaining(first, false, mask, rest), size, srca, mem) ==
                  LoadList(old(regs), Remaining(first, false, half, rest), size, start, mem)
        decreases mask
      {
        assert EntryOk(mask, index1[mask], index2[mask], next[mask]);
        FirstLoaded(regs, mask, first, rest, size, srca, mem);
        regs := regs[first + index1[mask] := Get(mem, srca, size)];
        srca := srca + size;
        mask := next[mask];
      }
      NothingToLoad(first, rest);
    }
  }

  /** The usual pair around a routine: MOVEM regs,-(An) with a mask, the routine, and MOVEM (An)+,regs with the
      reversed mask.  The routine leaves `clobbered` in the registers and `scratch` in memory, but An and
      the saved area as they were.  Afterwards An and the saved registers are back. */
  method SaveAndRestore(p: Processor, mask: nat, dst: nat, size: nat, clobbered: seq<int>, scratch: seq<int>)
    requires p.Tables() && |p.regs| == 16 && AreWords(p.regs) && mask < 0x1_0000 && dst < 8 && (size == 2 || size == 4)
    requires Room(size, |StoreOrder(mask)|) <= p.regs[8 + dst] <= |p.mem|
    requires |clobbered| == 16 && |scratch| == |p.mem|
    modifies p
    ensures |p.regs| == 16 && p.regs[8 + dst] == old(p.regs[8 + dst])
    ensures forall q :: 0 <= q < 16 && q != 8 + dst ==>
              p.regs[q] == if Bit(mask, 15 - q) then Reloaded(size, old(p.regs[q])) else clobbered[q]
  {
    hide Room, StoreOrder, LoadOrder, StoreList, LoadList, Registers, Swapped, Bit, Reloaded, AreWords, EntryOk,
         Agree, Restores, Orders;
    var swapped := Processor.Bitswap(mask);
    ghost var regs, mem := p.regs, p.mem;
    var an := p.regs[8 + dst];
    PairOrders(mask, swapped);
    p.StorePredecrement(mask, dst, size);
    ghost var saved := p.mem;
    var low := p.regs[8 + dst];
    p.regs := clobbered[8 + dst := low];
    p.mem := Outside(scratch, p.mem, low, an);
    OutsideAgrees(scratch, saved, low, an);
    RoundTrip(regs, an, mask, swapped, size, mem, p.regs, p.mem, StoreOrder(mask), LoadOrder(swapped));
    ghost var now := p.regs;
    p.LoadPostincrement(swapped, dst, size);
    BitByBit(regs, now, LoadList(now, LoadOrder(swapped), size, low, p.mem), mask, swapped, size);
  }

  /** Memory that the routine has changed outside the saved area. */
  function Outside(scratch: seq<int>, mem: seq<int>, lo: int, hi: int): (r: seq<int>)
    requires |scratch| == |mem|
    ensures |r| == |mem|
  {
    seq(|mem|, i requires 0 <= i < |mem| => if lo <= i < hi then mem[i] else scratch[i])
  }

  lemma OutsideAgrees(scratch: seq<int>, mem: seq<int>, lo: int, hi: int)
    requires |scratch| == |mem|
    ensures Agree(Outside(scratch, mem, lo, hi), mem, lo, hi)
  {
  }

  lemma PairOrders(mask: nat, swapped: nat)
    requires Swapped(mask, swapped)
    ensures Orders(mask, swapped, StoreOrder(mask), LoadOrder(swapped)) && swapped < 0x1_0000
    ensures Registers(StoreOrder(mask)) && Registers(LoadOrder(swapped))
  {
    hide StoreOrder, LoadOrder, Registers, Bit;
    OrdersAreRegisters(mask, swapped);
  }

  lemma BitByBit(regs: seq<int>, now: seq<int>, r: seq<int>, mask: nat, swapped: nat, size: nat)
    requires Swapped(mask, swapped) && Restores(regs, now, r, swapped, size)
    ensures |regs| == |now| == |r| == 16
    ensures forall q :: 0 <= q < 16 ==> r[q] == if Bit(mask, 15 - q) then Reloaded(size, regs[q]) else now[q]
  {
    hide Reloaded, Bit;
  }

  lemma LoadHalvesFit(mask: nat)
    requires mask < 0x1_0000
    ensures Low(mask, 8) < 256 && High(mask, 8) < 256
    ensures LoadOrder(mask) == Each(0, false, Visited(Low(mask, 8))) + Each(8, false, Visited(High(mask, 8)))
  {
    HalvesFit(mask);
    EachZero(Visited(Low(mask, 8)));
    hide Low, High, Each, Visited, Pow2;
  }

  lemma {:induction false} EachZero(s: seq<int>)
    ensures Each(0, false, s) == s
  {
    if s != [] {
      EachZero(s[1..]);
    }
  }

  lemma NothingToLoad(first: int, rest: seq<int>)
    ensures Remaining(first, false, 0, rest) == rest
  {
    assert [] + rest == rest;
  }

  lemma LoadedAll(regs: seq<int>, size: nat, srca: nat, mem: seq<int>)
    requires (size == 2 || size == 4) && |regs| == 16 && srca <= |mem|
    ensures Registers([]) && Room(size, 0) == 0 && LoadList(regs, [], size, srca, mem) == regs
  {
  }

  /** The registers that the bits of `mask` still stand for, and those that come after them. */
  function Remaining(c: int, minus: bool, mask: nat, rest: seq<int>): seq<int> {
    Each(c, minus, Visited(mask)) + rest
  }

  lemma VisitedFirst(mask: nat)
    requires mask > 0
    ensures Visited(mask) == [Lowest(mask)] + Visited(Next(mask))
  {
    hide Lowest, Next;
  }

  lemma EachFirst(c: int, minus: bool, x: int, s: seq<int>)
    ensures Each(c, minus, [x] + s) == [if minus then c - x else c + x] + Each(c, minus, s)
  {
    assert ([x] + s)[1..] == s;
  }

  lemma VisitedHead(c: int, minus: bool, mask: nat, rest: seq<int>)
    requires mask > 0
    ensures var list := Remaining(c, minus, mask, rest);
            && list != [] && list[0] == (if minus then c - Lowest(mask) else c + Lowest(mask))
            && list[1..] == Remaining(c, minus, Next(mask), rest)
  {
    hide Each, Visited, Next, Lowest;
    var x := if minus then c - Lowest(mask) else c + Lowest(mask);
    var e := Each(c, minus, Visited(Next(mask)));
    VisitedFirst(mask);
    EachFirst(c, minus, Lowest(mask), Visited(Next(mask)));
    assert Remaining(c, minus, mask, rest) == ([x] + e) + rest;
    assert Remaining(c, minus, Next(mask), rest) == e + rest;
    HeadOf(x, e, rest);
  }

  lemma HeadOf(x: int, e: seq<int>, rest: seq<int>)
    ensures (([x] + e) + rest)[0] == x && (([x] + e) + rest)[1..] == e + rest
  {
  }

  lemma RegistersTail(list: seq<int>)
    requires Registers(list) && list != []
    ensures Registers(list[1..]) && 0 <= list[0] < 16
  {
  }

  /** The first register that a load loop has still to do. */
  lemma FirstLoaded(regs: seq<int>, mask: nat, first: int, rest: seq<int>, size: nat, srca: int, mem: seq<int>)
    requires mask > 0 && (size == 2 || size == 4) && |regs| == 16 && 0 <= srca
    requires var list := Remaining(first, false, mask, rest);
             Registers(list) && srca + Room(size, |list|) <= |mem|
    ensures var list, after := Remaining(first, false, mask, rest), Remaining(first, false, Next(mask), rest);
            && 0 <= first + Lowest(mask) < 16 && srca + size <= |mem| && Registers(after)
            && Room(size, |list|) == Room(size, |after|) + size
            && LoadList(regs, list, size, srca, mem) ==
               LoadList(regs[first + Lowest(mask) := Get(mem, srca, size)], after, size, srca + size, mem)
  {
    var list := Remaining(first, false, mask, rest);
    VisitedHead(first, false, mask, rest);
    hide Get, Remaining, Next, Lowest;
    assert list[0] == first + Lowest(mask);
    RegistersTail(list);
    hide Registers;
  }

  lemma HalvesFit(mask: nat)
    requires mask < 0x1_0000
    ensures Low(mask, 8) < 256 && High(mask, 8) < 256
    ensures StoreOrder(mask) == Each(15, true, Visited(Low(mask, 8))) + Each(7, true, Visited(High(mask, 8)))
  {
    hide Low, High, Each, Visited, Pow2;
    Pow16();
    assert Pow2(8 + 8) == Pow2(16);
    HighFits(mask, 8, 8);
  }

  lemma NothingLeft(list: seq<int>)
    ensures list + [] == list
  {
  }

  lemma NothingVisited(top: int, rest: seq<int>)
    ensures Remaining(top, true, 0, rest) == rest
  {
    assert [] + rest == rest;
  }

  lemma StoredAll(regs: seq<int>, size: nat, srca: nat, mem: seq<int>)
    requires (size == 2 || size == 4) && |regs| == 16 && srca <= |mem|
    ensures Registers([]) && Room(size, 0) == 0 && StoreList(regs, [], size, srca, mem) == mem
  {
  }

  lemma StoreOne(regs: seq<int>, list: seq<int>, size: nat, srca: int, mem: seq<int>)
    requires (size == 2 || size == 4) && |regs| == 16 && list != [] && Registers(list) && Registers(list[1..])
    requires Room(size, |list|) <= srca <= |mem|
    ensures Room(size, |list|) == Room(size, |list| - 1) + size && size <= srca
    ensures StoreList(regs, list, size, srca, mem) ==
            StoreList(regs, list[1..], size, srca - size, Put(mem, srca - size, size, regs[list[0]]))
  {
    hide Put;
  }

  /** The first register that a store loop has still to do. */
  lemma FirstStored(regs: seq<int>, mask: nat, top: int, rest: seq<int>, size: nat, srca: int, mem: seq<int>)
    requires mask > 0 && (size == 2 || size == 4) && |regs| == 16
    requires var list := Remaining(top, true, mask, rest);
             Registers(list) && Room(size, |list|) <= srca <= |mem|
    ensures var list, after := Remaining(top, true, mask, rest), Remaining(top, true, Next(mask), rest);
            && 0 <= top - Lowest(mask) < 16 && size <= srca && Registers(after)
            && Room(size, |list|) == Room(size, |after|) + size
            && StoreList(regs, list, size, srca, mem) ==
               StoreList(regs, after, size, srca - size, Put(mem, srca - size, size, regs[top - Lowest(mask)]))
  {
    VisitedHead(top, true, mask, rest);
    var list := Remaining(top, true, mask, rest);
    assert list[0] == top - Lowest(mask);
    RegistersTail(list);
    StoreOne(regs, list, size, srca, mem);
    hide *;
  }

  lemma LowestIs(i: nat, j: nat)
    requires i > 0 && Bit(i, j) && forall k :: 0 <= k < j ==> !Bit(i, k)
    ensures Lowest(i) == j
  {
  }

  /** Setting a clear bit by adding its value. */
  lemma SetBit(r: nat, j: nat, n: nat)
    requires j < n && r < Pow2(n) && !Bit(r, j)
    ensures r + Pow2(j) < Pow2(n)
    ensures forall k: nat :: Bit(r + Pow2(j), k) <==> k == j || Bit(r, k)
  {
    hide *;
    SetBitFits(r, j, n);
    forall k: nat ensures Bit(r + Pow2(j), k) <==> k == j || Bit(r, k) {
      SetBitAt(r, j, k);
    }
  }

  lemma SetBitHalved(r: nat, j: nat)
    requires j > 0
    ensures (r + Pow2(j)) / 2 == r / 2 + Pow2(j - 1) && (r + Pow2(j)) % 2 == r % 2
  {
  }

  lemma {:induction false} SetBitFits(r: nat, j: nat, n: nat)
    requires j < n && r < Pow2(n) && !Bit(r, j)
    ensures r + Pow2(j) < Pow2(n)
    decreases j
  {
    var q, half := r / 2, Pow2(n - 1);
    assert Pow2(n) == 2 * half;
    if j > 0 {
      var bit := Pow2(j - 1);
      assert Pow2(j) == 2 * bit;
      assert !Bit(q, j - 1);
      hide *;
      Halved(r, half);
      SetBitFits(q, j - 1, n - 1);
    } else {
      assert r % 2 == 0;
      hide *;
      EvenBelow(r, half);
    }
  }

  lemma {:induction false} SetBitAt(r: nat, j: nat, k: nat)
    requires !Bit(r, j)
    ensures Bit(r + Pow2(j), k) <==> k == j || Bit(r, k)
    decreases j
  {
    if j > 0 {
      SetBitHalved(r, j);
      if k > 0 {
        SetBitAt(r / 2, j - 1, k - 1);
      }
    } else {
      assert (r + 1) / 2 == r / 2;
    }
  }

  // ------------------------------------------------------------ the layout in memory

  /** Longs and words are stored most significant byte first, and a word that is loaded is extended by its sign. */
  lemma MostSignificantFirst(mem: seq<int>, at: nat, size: nat, v: int)
    requires (size == 2 || size == 4) && at + size <= |mem| && 0 <= v < 0x1_0000_0000
    ensures var m := Put(mem, at, size, v);
            && (forall i :: at <= i < at + size ==> 0 <= m[i] < 0x100)
            && (size == 4 ==> v == 0x100_0000 * m[at] + 0x1_0000 * m[at + 1] + 0x100 * m[at + 2] + m[at + 3])
            && (size == 2 ==> v % 0x1_0000 == 0x100 * m[at] + m[at + 1])
            && Get(m, at, size) == if size == 4 then v
                                   else v % 0x1_0000 + if v / 0x8000 % 2 == 1 then 0xFFFF_0000 else 0
  {
    FourBytes(v);
    TwoBytes(v);
    SignBit(v);
  }

  lemma SignBit(v: nat)
    ensures v % 0x1_0000 >= 0x8000 <==> v / 0x8000 % 2 == 1
  {
    var q, r := v / 0x8000, v % 0x8000;
    assert v == 0x8000 * q + r;
    var h, b := q / 2, q % 2;
    assert q == 2 * h + b;
    LowPart(v, h, 0x8000 * b + r);
  }

  lemma LowPart(v: nat, h: nat, r: nat)
    requires v == 0x1_0000 * h + r && r < 0x1_0000
    ensures v % 0x1_0000 == r
  {
  }

  lemma {:induction false} RoomIs(size: nat, n: nat)
    ensures Room(size, n) == size * n
  {
    if n > 0 {
      RoomIs(size, n - 1);
      assert size * n == size * (n - 1) + size;
    }
  }

  /** The k-th register of the list is k + 1 places below the start. */
  lemma {:induction false} StoredAt(regs: seq<int>, list: seq<int>, size: nat, srca: nat, mem: seq<int>, k: nat)
    requires (size == 2 || size == 4) && |regs| == 16 && Registers(list) && Room(size, |list|) <= srca <= |mem|
    requires k < |list| && AreWords(regs)
    ensures Room(size, k + 1) <= srca
    ensures Get(StoreList(regs, list, size, srca, mem), srca - Room(size, k + 1), size) == Reloaded(size, regs[list[k]])
    decreases |list|
  {
    hide Get, Put, Reloaded;
    var put := Put(mem, srca - size, size, regs[list[0]]);
    RoomGrows(size, k + 1, |list|);
    if k == 0 {
      GetPut(mem, srca - size, size, regs[list[0]]);
      assert Room(size, 1) == size by { assert Room(size, 0) == 0; }
      SameGet(StoreList(regs, list, size, srca, mem), put, srca - size, size);
    } else {
      StoredAt(regs, list[1..], size, srca - size, put, k - 1);
    }
  }

  lemma {:induction false} RoomGrows(size: nat, a: nat, b: nat)
    requires a <= b
    ensures Room(size, a) <= Room(size, b)
  {
    if a < b {
      RoomGrows(size, a, b - 1);
    }
  }

  /** So the registers stand in memory with D0 lowest and A7 highest: the list goes down from there. */
  lemma StoreOrderDescends(mask: nat, swapped: nat, i: nat, j: nat)
    requires Swapped(mask, swapped) && i < j < |StoreOrder(mask)|
    ensures StoreOrder(mask)[i] > StoreOrder(mask)[j]
  {
    OppositeOfUp(mask, swapped);
    hide *;
    Descends(StoreOrder(mask), Up(swapped, 0, 16), swapped, i, j);
  }

  lemma Descends(s: seq<int>, u: seq<int>, m: nat, i: nat, j: nat)
    requires Reverse(s) == u && u == Up(m, 0, 16) && |u| == |s| && i < j < |s|
    ensures s[i] > s[j]
  {
    hide *;
    ReverseAt(s, |s| - 1 - i);
    ReverseAt(s, |s| - 1 - j);
    UpAscends(m, 0, 16, |s| - 1 - j, |s| - 1 - i);
  }

  lemma OppositeOfUp(mask: nat, swapped: nat)
    requires Swapped(mask, swapped)
    ensures Reverse(StoreOrder(mask)) == Up(swapped, 0, 16) && |Up(swapped, 0, 16)| == |StoreOrder(mask)|
  {
    OrdersAreOpposite(mask, swapped);
    LoadOrderIsUp(swapped);
    hide StoreOrder, LoadOrder, Up, Bit;
  }

  lemma {:induction false} ReverseAt(s: seq<int>, i: nat)
    requires i < |s|
    ensures Reverse(s)[i] == s[|s| - 1 - i]
  {
    if i < |s| - 1 {
      ReverseAt(s[1..], i);
    }
  }

  lemma {:induction false} UpAscends(m: nat, k: nat, n: nat, i: nat, j: nat)
    requires k <= n && i < j < |Up(m, k, n)|
    ensures Up(m, k, n)[i] < Up(m, k, n)[j]
    decreases n - k
  {
    hide Bit;
    if k < n {
      UpFrom(m, k + 1, n);
      if Bit(m, k) {
        if i > 0 {
          UpAscends(m, k + 1, n, i - 1, j - 1);
        }
      } else {
        UpAscends(m, k + 1, n, i, j);
      }
    }
  }

  lemma {:induction false} UpFrom(m: nat, k: nat, n: nat)
    requires k <= n
    ensures forall i :: 0 <= i < |Up(m, k, n)| ==> k <= Up(m, k, n)[i] < n
    decreases n - k
  {
    hide Bit;
    if k < n {
      UpFrom(m, k + 1, n);
    }
  }
}
